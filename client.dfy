/** `MovementController`: the client's fixed-timestep loop, its two circular
    caches, reconciliation against the server's reports, the redundant input
    batch and the report handler. `Tick`, `Update` and `Reconciliate` are
    proved against the step of module Prediction they run and keep the
    history invariant `Recorded`; `SendInput` changes nothing and returns
    `InputBatch` of the snapshot, and `Movement` stores `AcceptReport` of the
    decoded report and keeps `Valid`. */
module Client {
  import opened Common
  import opened Wire
  import opened Prediction

  class MovementController {
    var cspTick: Tick
    const inputStateCache: array<Option<ClientInputState>>
    const simulationStateCache: array<Option<SimulationState>>
    var serverSimulationState: SimulationState
    var lastCorrectedFrame: int
    /** Accumulated frame time, in integer time units. */
    var timer: nat
    /** The tick interval, `1 / ServerTickRate`, in the same units. */
    const minTimeBetweenTicks: nat
    /** The player's `transform.position`, moved by `SetInput`. */
    var position: Vec3
    /** The physics step of the player's `SimplePlayerMovement`. */
    const simulate: Simulator
    /** Ticks run since the start, not reduced modulo 2^16. */
    ghost var ticksRun: nat

    ghost function Snapshot(): Predictor
      reads this, inputStateCache, simulationStateCache
    {
      Predictor(inputStateCache[..], simulationStateCache[..], cspTick, position, lastCorrectedFrame, serverSimulationState)
    }

    ghost predicate Valid()
      reads this, inputStateCache, simulationStateCache
    {
      inputStateCache.Length == StateCacheSize && simulationStateCache.Length == StateCacheSize &&
      minTimeBetweenTicks > 0 && Recorded(Snapshot(), ticksRun)
    }

    /** The field initialisers and `Start`: empty caches, tick 0, the default
        server state, and the tick interval from the tick rate. */
    constructor (minTimeBetweenTicks: nat, position: Vec3, simulate: Simulator)
      requires minTimeBetweenTicks > 0
      ensures Valid() && fresh(inputStateCache) && fresh(simulationStateCache)
      ensures Snapshot() == Initial(position) && ticksRun == 0 && timer == 0
      ensures this.minTimeBetweenTicks == minTimeBetweenTicks && this.simulate == simulate
    {
      cspTick := 0;
      inputStateCache := new Option<ClientInputState>[StateCacheSize](_ => None);
      simulationStateCache := new Option<SimulationState>[StateCacheSize](_ => None);
      serverSimulationState := SimulationState(Vec3(0, 0, 0), 0);
      lastCorrectedFrame := 0;
      timer := 0;
      this.minTimeBetweenTicks := minTimeBetweenTicks;
      this.position := position;
      this.simulate := simulate;
      ticksRun := 0;
      new;
      assert inputStateCache[..] == seq(StateCacheSize, _ => None);
      assert simulationStateCache[..] == seq(StateCacheSize, _ => None);
      InitialRecorded(position);
    }

    /** One iteration of the loop in `Update`: both slots of `cspTick` are
        written, stamped with `cspTick`, the state holding the position before
        the input is applied; the input goes through the physics step; the
        tick advances modulo 2^16; no other slot changes. */
    method Tick(sample: Sample)
      requires Valid()
      modifies this`cspTick, this`position, this`ticksRun, inputStateCache, simulationStateCache
      ensures Valid() && ticksRun == old(ticksRun) + 1
      ensures Snapshot() == TickStep(old(Snapshot()), sample, simulate)
      ensures inputStateCache[CacheIndex(old(cspTick))] == Some(ClientInputState(sample.horizontal, sample.vertical, sample.jump, old(cspTick)))
      ensures simulationStateCache[CacheIndex(old(cspTick))] == Some(SimulationState(old(position), old(cspTick)))
      ensures forall k :: 0 <= k < StateCacheSize && k != CacheIndex(old(cspTick)) ==>
                inputStateCache[k] == old(inputStateCache[k]) && simulationStateCache[k] == old(simulationStateCache[k])
      ensures cspTick == NextTick(old(cspTick))
      ensures position == simulate(old(position), sample.vertical, sample.horizontal, sample.jump)
    {
      TickStepRecorded(Snapshot(), ticksRun, sample, simulate);
      var cacheIndex := CacheIndex(cspTick);
      inputStateCache[cacheIndex] := Some(GetInput(sample, cspTick));
      simulationStateCache[cacheIndex] := Some(CurrentSimulationState(position, cspTick));
      // movement.SetInput(vertical, horizontal, jump) moves this same transform
      var input := inputStateCache[cacheIndex].value;
      position := simulate(position, input.vertical, input.horizontal, input.jump);
      cspTick := NextTick(cspTick);
      ticksRun := ticksRun + 1;
    }

    /** `Update`: add the frame time, run one tick per whole interval that has
        accumulated (catching up when several have), keep the remainder, then
        reconcile against the stored server state. */
    method Update(deltaTime: nat, sample: Sample) returns (ticks: nat)
      requires Valid()
      requires CanReconcile(TickSteps(Snapshot(), sample, simulate, (timer + deltaTime) / minTimeBetweenTicks))
      modifies this, inputStateCache, simulationStateCache
      ensures Valid()
      ensures ticks == (old(timer) + deltaTime) / minTimeBetweenTicks
      ensures timer == (old(timer) + deltaTime) % minTimeBetweenTicks
      ensures ticksRun == old(ticksRun) + ticks
      ensures Snapshot() == Reconcile(TickSteps(old(Snapshot()), sample, simulate, ticks))
    {
      ghost var start := Snapshot();
      timer := timer + deltaTime;
      ticks := 0;
      while timer >= minTimeBetweenTicks
        invariant Valid()
        invariant timer + ticks * minTimeBetweenTicks == old(timer) + deltaTime
        invariant ticksRun == old(ticksRun) + ticks
        invariant Snapshot() == TickSteps(start, sample, simulate, ticks)
        decreases timer
      {
        timer := timer - minTimeBetweenTicks;
        assert (ticks + 1) * minTimeBetweenTicks == ticks * minTimeBetweenTicks + minTimeBetweenTicks;
        Tick(sample);
        ticks := ticks + 1;
      }
      DivisionUnique(old(timer) + deltaTime, minTimeBetweenTicks, ticks, timer);
      assert CanReconcile(Snapshot());
      Reconciliate();
    }

    /** `Reconciliate`, with its replay loop as written. A report not newer
        than `lastCorrectedFrame` changes nothing; otherwise `lastCorrectedFrame`
        becomes the report's tick, and on divergence the position snaps to the
        server's and the visited state slots are overwritten. */
    method Reconciliate()
      requires Valid()
      requires CanReconcile(Snapshot())
      modifies this`position, this`lastCorrectedFrame, simulationStateCache
      ensures Valid()
      ensures Snapshot() == Reconcile(old(Snapshot()))
      ensures old(serverSimulationState.currentTick <= lastCorrectedFrame) ==>
                position == old(position) && lastCorrectedFrame == old(lastCorrectedFrame) &&
                simulationStateCache[..] == old(simulationStateCache[..])
      ensures old(serverSimulationState.currentTick > lastCorrectedFrame) ==>
                lastCorrectedFrame == serverSimulationState.currentTick
    {
      ReconcileRecorded(Snapshot(), ticksRun);
      if serverSimulationState.currentTick <= lastCorrectedFrame {
        return;
      }
      var cacheIndex := CacheIndex(serverSimulationState.currentTick);
      var cachedSimulationState := simulationStateCache[cacheIndex].value;
      if Diverges(cachedSimulationState.position, serverSimulationState.position) {
        position := serverSimulationState.position;
        var rewindTick: Tick := serverSimulationState.currentTick;
        ghost var target := RewindAsWritten(simulationStateCache[..], inputStateCache[..], position, rewindTick, cspTick);
        while rewindTick < cspTick
          modifies simulationStateCache
          invariant RewindAsWritten(simulationStateCache[..], inputStateCache[..], position, rewindTick, cspTick) == target
          decreases cspTick - rewindTick
        {
          var rewindCacheIndex := CacheIndex(rewindTick);
          var rewindCachedInputState := inputStateCache[rewindCacheIndex];
          var rewindCachedSimulationState := simulationStateCache[rewindCacheIndex];
          if rewindCachedInputState.None? || rewindCachedSimulationState.None? {
            rewindTick := rewindTick + 1;
            continue;
          }
          // The call to movement.SetInput is commented out in the source.
          ghost var before := simulationStateCache[..];
          simulationStateCache[rewindCacheIndex] := Some(CurrentSimulationState(position, cspTick));
          simulationStateCache[rewindCacheIndex] := Some(simulationStateCache[rewindCacheIndex].value.(currentTick := rewindTick));
          assert simulationStateCache[..] == before[rewindCacheIndex := Some(CurrentSimulationState(position, cspTick).(currentTick := rewindTick))];
          rewindTick := rewindTick + 1;
        }
      }
      lastCorrectedFrame := serverSimulationState.currentTick;
    }

    /** `SendInput`: the count byte `(byte)(cspTick - serverTick)`, then one
        record per tick from the server tick up to `cspTick - 1`, read from
        slot `i % 1024`. It needs only those slots to be present, which the
        history invariant guarantees (`RecordedCanSendInput`). Reads only. */
    method SendInput() returns (message: seq<Value>)
      requires CanSendInput(Snapshot())
      ensures message == InputBatch(Snapshot())
      ensures |message| == 1 + 4 * (if cspTick <= serverSimulationState.currentTick then 0
                                    else cspTick - serverSimulationState.currentTick)
    {
      ghost var cache := inputStateCache[..];
      var serverTick := serverSimulationState.currentTick;
      var count := CountByte(cspTick, serverTick);
      message := [ByteValue(count)];
      var i: Tick := serverTick;
      while i < cspTick
        invariant serverTick <= i && (i <= cspTick || i == serverTick)
        invariant message == [ByteValue(count)] + EncodeInputs(BatchRecords(cache, serverTick, i))
      {
        var input := inputStateCache[CacheIndex(i)].value;
        EncodeInputsAppend(BatchRecords(cache, serverTick, i), input);
        message := message + EncodeInput(input);
        i := i + 1;
      }
      assert BatchRecords(cache, serverTick, i) == BatchRecords(cache, serverTick, cspTick);
    }

    /** The `Movement` handler: a well-formed report replaces the stored server
        state only when its tick is strictly newer. */
    method Movement(message: seq<Value>)
      requires Valid()
      modifies this`serverSimulationState
      ensures Valid()
      ensures serverSimulationState == match DecodeReport(message)
                                       case None => old(serverSimulationState)
                                       case Some(report) => AcceptReport(old(serverSimulationState), report)
      ensures serverSimulationState.currentTick >= old(serverSimulationState.currentTick)
    {
      var report := DecodeReport(message);
      if report.Some? && report.value.currentTick > serverSimulationState.currentTick {
        serverSimulationState := report.value;
      }
    }
  }
}
