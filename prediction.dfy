/** The client-side predictor as a value: the two 1024-slot caches, the tick
    counter, the player's position and the reconciliation bookkeeping of a
    `MovementController`, with one function per step the controller takes.
    The class in module Client runs these steps in place; the lemmas here are
    what the steps guarantee. */
module Prediction {
  import opened Common
  import opened Wire

  /** What `Input.GetAxisRaw("Horizontal")`, `Input.GetAxisRaw("Vertical")` and
      `Input.GetKey(KeyCode.Space)` return during one frame. */
  datatype Sample = Sample(horizontal: int, vertical: int, jump: bool)

  /** The fields of a `MovementController` that prediction and reconciliation
      read and write; `position` is the player's `transform.position`. */
  datatype Predictor = Predictor(
    inputCache: seq<Option<ClientInputState>>,
    stateCache: seq<Option<SimulationState>>,
    cspTick: Tick,
    position: Vec3,
    lastCorrectedFrame: int,
    serverState: SimulationState)

  predicate WellFormed(p: Predictor)
  {
    |p.inputCache| == StateCacheSize && |p.stateCache| == StateCacheSize
  }

  /** A freshly started controller: empty caches, tick 0, and the default
      server state (position zero, tick 0). */
  function Initial(position: Vec3): (p: Predictor)
    ensures WellFormed(p)
  {
    Predictor(seq(StateCacheSize, _ => None), seq(StateCacheSize, _ => None), 0, position, 0,
              SimulationState(Vec3(0, 0, 0), 0))
  }

  /** `GetInput`: the polled sample stamped with the tick. */
  function GetInput(sample: Sample, tick: Tick): ClientInputState
  {
    ClientInputState(sample.horizontal, sample.vertical, sample.jump, tick)
  }

  /** `CurrentSimulationState`: the current position stamped with the tick. */
  function CurrentSimulationState(position: Vec3, tick: Tick): SimulationState
  {
    SimulationState(position, tick)
  }

  // ---------------------------------------------------------------------------
  // The fixed-timestep loop

  /** One iteration of the loop in `Update`: record the input and the state
      (the position before the input is applied) in the slot of `cspTick`,
      run the input through the physics step, advance the 16-bit tick. */
  function TickStep(p: Predictor, sample: Sample, simulate: Simulator): (r: Predictor)
    requires WellFormed(p)
    ensures WellFormed(r)
    ensures r.serverState == p.serverState && r.lastCorrectedFrame == p.lastCorrectedFrame
    ensures forall k :: 0 <= k < StateCacheSize && p.stateCache[k].Some? ==> r.stateCache[k].Some?
    ensures forall k :: 0 <= k < StateCacheSize && p.inputCache[k].Some? ==> r.inputCache[k].Some?
  {
    var k := CacheIndex(p.cspTick);
    var input := GetInput(sample, p.cspTick);
    p.(inputCache := p.inputCache[k := Some(input)],
       stateCache := p.stateCache[k := Some(CurrentSimulationState(p.position, p.cspTick))],
       position := Apply(simulate, p.position, input),
       cspTick := NextTick(p.cspTick))
  }

  /** `n` iterations of the loop with the same polled sample (Unity's input
      readings do not change within one frame). */
  function TickSteps(p: Predictor, sample: Sample, simulate: Simulator, n: nat): (r: Predictor)
    requires WellFormed(p)
    ensures WellFormed(r)
    ensures r.serverState == p.serverState && r.lastCorrectedFrame == p.lastCorrectedFrame
    ensures forall k :: 0 <= k < StateCacheSize && p.stateCache[k].Some? ==> r.stateCache[k].Some?
    ensures forall k :: 0 <= k < StateCacheSize && p.inputCache[k].Some? ==> r.inputCache[k].Some?
    ensures CanReconcile(p) ==> CanReconcile(r)
  {
    if n == 0 then p else TickStep(TickSteps(p, sample, simulate, n - 1), sample, simulate)
  }

  /** The history invariant after `ticksRun` ticks in all: `cspTick` is
      `ticksRun` modulo 2^16; a slot is filled exactly when some tick has used
      it; an input slot holds the stamp of the last tick that wrote it; a state
      slot holds a stamp that maps to that slot. */
  predicate Recorded(p: Predictor, ticksRun: nat)
  {
    WellFormed(p) && p.cspTick == ticksRun % TickModulus &&
    (forall k :: 0 <= k < StateCacheSize ==>
       (p.inputCache[k].Some? <==> k < ticksRun) &&
       (p.stateCache[k].Some? <==> k < ticksRun)) &&
    (forall k :: 0 <= k < StateCacheSize && p.inputCache[k].Some? ==>
       p.inputCache[k].value.currentTick == LastTickAt(k, ticksRun) % TickModulus) &&
    (forall k :: 0 <= k < StateCacheSize && p.stateCache[k].Some? ==>
       CacheIndex(p.stateCache[k].value.currentTick) == k)
  }

  lemma InitialRecorded(position: Vec3)
    ensures Recorded(Initial(position), 0)
  {
  }

  /** How `LastTickAt` moves when tick `n` is written. */
  lemma LastTickAtStep(k: nat, n: nat)
    requires k < StateCacheSize
    ensures k == CacheIndex(n) ==> LastTickAt(k, n + 1) == n
    ensures k != CacheIndex(n) ==> LastTickAt(k, n + 1) == LastTickAt(k, n)
  {
    var q := (n - k) / StateCacheSize;
    var d := (n - k) % StateCacheSize;
    assert n - k == q * StateCacheSize + d;
    if d != 0 {
      assert n - 1 - k == q * StateCacheSize + (d - 1);
      assert (n - 1 - k) % StateCacheSize == d - 1;
    }
  }

  /** The 16-bit slot arithmetic agrees with the unbounded one. */
  lemma TickSlotAgrees(n: nat)
    ensures CacheIndex(n % TickModulus) == CacheIndex(n)
    ensures NextTick(n % TickModulus) == (n + 1) % TickModulus
  {
    var q := n / TickModulus;
    assert n == n % TickModulus + TickModulus * q;
    WholeTurns(n % TickModulus, q);
    WholeTurns(n % TickModulus + 1, q);
  }

  /** One tick keeps the history invariant, with one more tick run. */
  lemma {:induction false} TickStepRecorded(p: Predictor, ticksRun: nat, sample: Sample, simulate: Simulator)
    requires Recorded(p, ticksRun)
    ensures Recorded(TickStep(p, sample, simulate), ticksRun + 1)
  {
    var r := TickStep(p, sample, simulate);
    TickSlotAgrees(ticksRun);
    var k0 := CacheIndex(p.cspTick);
    assert k0 == CacheIndex(ticksRun);
    forall k | 0 <= k < StateCacheSize
      ensures (r.inputCache[k].Some? <==> k < ticksRun + 1) && (r.stateCache[k].Some? <==> k < ticksRun + 1)
      ensures r.inputCache[k].Some? ==> r.inputCache[k].value.currentTick == LastTickAt(k, ticksRun + 1) % TickModulus
      ensures r.stateCache[k].Some? ==> CacheIndex(r.stateCache[k].value.currentTick) == k
    {
      LastTickAtStep(k, ticksRun);
      if k == k0 {
        assert r.inputCache[k].value.currentTick == p.cspTick;
      } else {
        assert k != ticksRun;
      }
    }
  }

  lemma {:induction false} TickStepsRecorded(p: Predictor, ticksRun: nat, sample: Sample, simulate: Simulator, n: nat)
    requires Recorded(p, ticksRun)
    ensures Recorded(TickSteps(p, sample, simulate, n), ticksRun + n)
  {
    if n > 0 {
      TickStepsRecorded(p, ticksRun, sample, simulate, n - 1);
      TickStepRecorded(TickSteps(p, sample, simulate, n - 1), ticksRun + n - 1, sample, simulate);
    }
  }

  /** Any of the 1024 ticks just below `cspTick` finds its own input in its
      slot: the stamp there is that tick, also after the counter has wrapped. */
  lemma {:induction false} RecordedInputTick(p: Predictor, ticksRun: nat, i: int)
    requires Recorded(p, ticksRun)
    requires 0 <= i < p.cspTick && p.cspTick - i <= StateCacheSize
    ensures p.inputCache[CacheIndex(i)].Some?
    ensures p.inputCache[CacheIndex(i)].value.currentTick == i
  {
    var k := CacheIndex(i);
    var q := ticksRun / TickModulus;
    var t := i + TickModulus * q;
    assert ticksRun == p.cspTick + TickModulus * q;
    WholeTurns(i, q);
    assert CacheIndex(t) == k;
    LastTickAtFacts(k, ticksRun, t);
    var last := LastTickAt(k, ticksRun);
    if t < last {
      CacheIndexInjectiveOnWindow(t, last);
    }
  }

  /** Any of the last 1024 ticks run, counted without wrap, finds its own
      input in its slot, stamped with its 16-bit tick; the 16-bit tick uses
      the same slot. This covers a window that straddles the wrap from 65535
      to 0, which `RecordedInputTick` leaves out. */
  lemma RecordedWindowInputTick(p: Predictor, ticksRun: nat, i: nat)
    requires Recorded(p, ticksRun)
    requires ticksRun - StateCacheSize <= i < ticksRun
    ensures CacheIndex(i % TickModulus) == CacheIndex(i)
    ensures p.inputCache[CacheIndex(i)].Some?
    ensures p.inputCache[CacheIndex(i)].value.currentTick == i % TickModulus
  {
    TickSlotAgrees(i);
    var k := CacheIndex(i);
    LastTickAtFacts(k, ticksRun, i);
    var last := LastTickAt(k, ticksRun);
    if i < last {
      CacheIndexInjectiveOnWindow(i, last);
    }
  }

  /** Slot reuse: when two ticks `i < j` in the history share a slot and `j`
      is among the last 1024 ticks, the slot holds the input of `j`, and
      (unless they are a whole number of 16-bit turns apart) its stamp is not
      `i`'s. A lookup of tick 1 after tick 1025 finds tick 1025's input. */
  lemma RecordedSlotOverwritten(p: Predictor, ticksRun: nat, i: nat, j: nat)
    requires Recorded(p, ticksRun)
    requires i < j < ticksRun <= j + StateCacheSize && CacheIndex(i) == CacheIndex(j)
    ensures p.inputCache[CacheIndex(i)].Some?
    ensures p.inputCache[CacheIndex(i)].value.currentTick == j % TickModulus
    ensures (j - i) % TickModulus != 0 ==> p.inputCache[CacheIndex(i)].value.currentTick != i % TickModulus
  {
    var k := CacheIndex(j);
    LastTickAtFacts(k, ticksRun, j);
    var last := LastTickAt(k, ticksRun);
    if j < last {
      CacheIndexInjectiveOnWindow(j, last);
    }
    var qi, qj := i / TickModulus, j / TickModulus;
    assert i == qi * TickModulus + i % TickModulus;
    assert j == qj * TickModulus + j % TickModulus;
  }

  // ---------------------------------------------------------------------------
  // Reconciliation, as written

  /** What `Reconciliate` needs: the state slot of the server tick is filled
      whenever the stale-report guard lets the report through. */
  predicate CanReconcile(p: Predictor)
  {
    WellFormed(p) &&
    (p.serverState.currentTick > p.lastCorrectedFrame ==> p.stateCache[CacheIndex(p.serverState.currentTick)].Some?)
  }

  /** The replay loop of `Reconciliate` as written: the call to `SetInput` is
      commented out, so every visited slot whose input and state are both
      present receives the current (already corrected) position, stamped with
      the tick being replayed. */
  function RewindAsWritten(states: seq<Option<SimulationState>>, inputs: seq<Option<ClientInputState>>,
                           position: Vec3, rewindTick: Tick, cspTick: Tick): (r: seq<Option<SimulationState>>)
    requires |states| == StateCacheSize && |inputs| == StateCacheSize
    ensures |r| == StateCacheSize
    decreases cspTick - rewindTick
  {
    if rewindTick >= cspTick then states
    else
      var k := CacheIndex(rewindTick);
      var next := if inputs[k].None? || states[k].None? then states
                  else states[k := Some(CurrentSimulationState(position, cspTick).(currentTick := rewindTick))];
      RewindAsWritten(next, inputs, position, rewindTick + 1, cspTick)
  }

  /** `Reconciliate`: discard a report not newer than `lastCorrectedFrame`;
      otherwise compare it with the cached state at its tick, snap and replay
      on divergence, and record its tick as corrected in any case. */
  function Reconcile(p: Predictor): (r: Predictor)
    requires CanReconcile(p)
    ensures WellFormed(r)
  {
    if p.serverState.currentTick <= p.lastCorrectedFrame then p
    else
      var cached := p.stateCache[CacheIndex(p.serverState.currentTick)].value;
      if Diverges(cached.position, p.serverState.position) then
        p.(position := p.serverState.position,
           stateCache := RewindAsWritten(p.stateCache, p.inputCache, p.serverState.position,
                                         p.serverState.currentTick, p.cspTick),
           lastCorrectedFrame := p.serverState.currentTick)
      else
        p.(lastCorrectedFrame := p.serverState.currentTick)
  }

  /** Slot by slot, the as-written replay over ticks `lo .. hi-1` leaves slot
      `k` alone unless a tick in that range uses it and both its input and its
      state are present; then the slot holds the replay position stamped with
      the last such tick. */
  lemma {:induction false} RewindAsWrittenSlot(states: seq<Option<SimulationState>>, inputs: seq<Option<ClientInputState>>,
                                               position: Vec3, lo: Tick, hi: Tick, k: nat)
    requires |states| == StateCacheSize && |inputs| == StateCacheSize && k < StateCacheSize
    ensures RewindAsWritten(states, inputs, position, lo, hi)[k] ==
            if lo <= LastTickAt(k, hi) && inputs[k].Some? && states[k].Some?
            then Some(SimulationState(position, LastTickAt(k, hi)))
            else states[k]
    decreases hi - lo
  {
    LastTickAtFacts(k, hi, lo);
    if lo < hi {
      var j := CacheIndex(lo);
      var next := if inputs[j].None? || states[j].None? then states
                  else states[j := Some(CurrentSimulationState(position, hi).(currentTick := lo))];
      assert next[k].Some? == states[k].Some?;
      RewindAsWrittenSlot(next, inputs, position, lo + 1, hi, k);
      if LastTickAt(k, hi) == lo {
        assert j == k;
      }
    }
  }

  /** A report at or before `lastCorrectedFrame` changes nothing, so applying
      a report a second time is the same as applying it once. */
  lemma ReconcileIdempotent(p: Predictor)
    requires CanReconcile(p)
    ensures p.serverState.currentTick <= p.lastCorrectedFrame ==> Reconcile(p) == p
    ensures CanReconcile(Reconcile(p)) && Reconcile(Reconcile(p)) == Reconcile(p)
  {
  }

  /** A report that passes the guard always ends with `lastCorrectedFrame` at
      its tick; the input cache, the tick counter and the stored report never
      change; without divergence the state cache and the position stay too. */
  lemma ReconcileAccepted(p: Predictor)
    requires CanReconcile(p)
    requires p.serverState.currentTick > p.lastCorrectedFrame
    ensures Reconcile(p).lastCorrectedFrame == p.serverState.currentTick
    ensures Reconcile(p).inputCache == p.inputCache && Reconcile(p).cspTick == p.cspTick
    ensures Reconcile(p).serverState == p.serverState
    ensures !Diverges(p.stateCache[CacheIndex(p.serverState.currentTick)].value.position, p.serverState.position) ==>
              Reconcile(p) == p.(lastCorrectedFrame := p.serverState.currentTick)
  {
  }

  /** On divergence the position snaps to the server's and the replay rewrites
      exactly the state slots of ticks from the server tick up to
      `cspTick - 1` whose input and state slots are present, each with the
      server position and the last such tick as stamp. */
  lemma ReconcileCorrection(p: Predictor, k: nat)
    requires CanReconcile(p) && k < StateCacheSize
    requires p.serverState.currentTick > p.lastCorrectedFrame
    requires Diverges(p.stateCache[CacheIndex(p.serverState.currentTick)].value.position, p.serverState.position)
    ensures Reconcile(p).position == p.serverState.position
    ensures Reconcile(p).stateCache[k] ==
            if p.serverState.currentTick <= LastTickAt(k, p.cspTick) && p.inputCache[k].Some? && p.stateCache[k].Some?
            then Some(SimulationState(p.serverState.position, LastTickAt(k, p.cspTick)))
            else p.stateCache[k]
  {
    RewindAsWrittenSlot(p.stateCache, p.inputCache, p.serverState.position, p.serverState.currentTick, p.cspTick, k);
  }

  /** Reconciliation keeps the history invariant. */
  lemma ReconcileRecorded(p: Predictor, ticksRun: nat)
    requires CanReconcile(p) && Recorded(p, ticksRun)
    ensures Recorded(Reconcile(p), ticksRun)
  {
    var r := Reconcile(p);
    if p.serverState.currentTick > p.lastCorrectedFrame &&
       Diverges(p.stateCache[CacheIndex(p.serverState.currentTick)].value.position, p.serverState.position) {
      forall k | 0 <= k < StateCacheSize
        ensures (r.stateCache[k].Some? <==> k < ticksRun)
        ensures r.stateCache[k].Some? ==> CacheIndex(r.stateCache[k].value.currentTick) == k
      {
        ReconcileCorrection(p, k);
        LastTickAtFacts(k, p.cspTick, 0);
      }
    }
  }

  /** With the window of at most 1024 ticks that the redundant batches keep,
      every tick from the server tick to `cspTick - 1` is replayed, and all of
      them end up at the server position: the as-written replay flattens the
      predicted trajectory. */
  lemma ReconcileCorrectionFlattens(p: Predictor, ticksRun: nat, t: int)
    requires CanReconcile(p) && Recorded(p, ticksRun)
    requires p.serverState.currentTick > p.lastCorrectedFrame
    requires Diverges(p.stateCache[CacheIndex(p.serverState.currentTick)].value.position, p.serverState.position)
    requires p.serverState.currentTick <= t < p.cspTick <= p.serverState.currentTick + StateCacheSize
    ensures Reconcile(p).stateCache[CacheIndex(t)] == Some(SimulationState(p.serverState.position, t))
  {
    var k := CacheIndex(t);
    ReconcileCorrection(p, k);
    LastTickAtFacts(k, p.cspTick, t);
    var last := LastTickAt(k, p.cspTick);
    if last != t {
      CacheIndexInjectiveOnWindow(t, last);
    }
  }

  // ---------------------------------------------------------------------------
  // Reconciliation as the comments intend it (NOT what the source runs)

  /** The position the physics step reaches from `start` at tick `lo` by
      applying the cached inputs of ticks `lo .. t-1`. */
  function Trajectory(simulate: Simulator, inputs: seq<Option<ClientInputState>>, start: Vec3, lo: int, t: int): Vec3
    requires |inputs| == StateCacheSize && 0 <= lo
    requires forall i :: lo <= i < t ==> inputs[CacheIndex(i)].Some?
    decreases t - lo
  {
    if t <= lo then start else Apply(simulate, Trajectory(simulate, inputs, start, lo, t - 1), inputs[CacheIndex(t - 1)].value)
  }

  /** Starting one tick later from the position after the first input gives
      the same trajectory. */
  lemma {:induction false} TrajectoryShift(simulate: Simulator, inputs: seq<Option<ClientInputState>>, start: Vec3, lo: nat, t: int)
    requires |inputs| == StateCacheSize && lo < t
    requires forall i :: lo <= i < t ==> inputs[CacheIndex(i)].Some?
    ensures Trajectory(simulate, inputs, start, lo, t) ==
            Trajectory(simulate, inputs, Apply(simulate, start, inputs[CacheIndex(lo)].value), lo + 1, t)
    decreases t - lo
  {
    if t > lo + 1 {
      TrajectoryShift(simulate, inputs, start, lo, t - 1);
    }
  }

  /** The intended replay: every cached input from `rewindTick` on is run
      through the physics step again, each slot receiving the position before
      its input, as the tick loop records it; slots with a missing input or
      state are skipped. Returns the new state cache and the final position. */
  function ResimulateIntended(states: seq<Option<SimulationState>>, inputs: seq<Option<ClientInputState>>,
                              simulate: Simulator, running: Vec3, rewindTick: Tick, cspTick: Tick)
    : (r: (seq<Option<SimulationState>>, Vec3))
    requires |states| == StateCacheSize && |inputs| == StateCacheSize
    ensures |r.0| == StateCacheSize
    decreases cspTick - rewindTick
  {
    if rewindTick >= cspTick then (states, running)
    else
      var k := CacheIndex(rewindTick);
      if inputs[k].None? || states[k].None? then
        ResimulateIntended(states, inputs, simulate, running, rewindTick + 1, cspTick)
      else
        ResimulateIntended(states[k := Some(SimulationState(running, rewindTick))], inputs, simulate,
                           Apply(simulate, running, inputs[k].value), rewindTick + 1, cspTick)
  }

  /** With every slot of the replayed ticks present, the intended replay
      leaves each slot that a replayed tick uses holding the trajectory from
      the corrected start at the last such tick, and ends at the trajectory's
      end. */
  lemma {:induction false} ResimulateIntendedSlot(states: seq<Option<SimulationState>>, inputs: seq<Option<ClientInputState>>,
                                                  simulate: Simulator, running: Vec3, lo: Tick, hi: Tick, k: nat)
    requires |states| == StateCacheSize && |inputs| == StateCacheSize && k < StateCacheSize
    requires forall i :: lo <= i < hi ==> inputs[CacheIndex(i)].Some? && states[CacheIndex(i)].Some?
    ensures ResimulateIntended(states, inputs, simulate, running, lo, hi).1 == Trajectory(simulate, inputs, running, lo, hi)
    ensures ResimulateIntended(states, inputs, simulate, running, lo, hi).0[k] ==
            if lo <= LastTickAt(k, hi)
            then Some(SimulationState(Trajectory(simulate, inputs, running, lo, LastTickAt(k, hi)), LastTickAt(k, hi)))
            else states[k]
    decreases hi - lo
  {
    LastTickAtFacts(k, hi, lo);
    if lo < hi {
      var j := CacheIndex(lo);
      var next := states[j := Some(SimulationState(running, lo))];
      var after := Apply(simulate, running, inputs[j].value);
      assert forall i :: lo + 1 <= i < hi ==> next[CacheIndex(i)].Some?;
      ResimulateIntendedSlot(next, inputs, simulate, after, lo + 1, hi, k);
      TrajectoryShift(simulate, inputs, running, lo, hi);
      if LastTickAt(k, hi) > lo {
        TrajectoryShift(simulate, inputs, running, lo, LastTickAt(k, hi));
      } else if LastTickAt(k, hi) == lo {
        assert j == k;
      }
    }
  }

  /** `Reconciliate` as its comments intend it. */
  function ReconcileIntended(p: Predictor, simulate: Simulator): (r: Predictor)
    requires CanReconcile(p)
    ensures WellFormed(r)
  {
    if p.serverState.currentTick <= p.lastCorrectedFrame then p
    else
      var cached := p.stateCache[CacheIndex(p.serverState.currentTick)].value;
      if Diverges(cached.position, p.serverState.position) then
        var replay := ResimulateIntended(p.stateCache, p.inputCache, simulate, p.serverState.position,
                                         p.serverState.currentTick, p.cspTick);
        p.(position := replay.1, stateCache := replay.0, lastCorrectedFrame := p.serverState.currentTick)
      else
        p.(lastCorrectedFrame := p.serverState.currentTick)
  }

  /** Correction convergence for the intended replay: after a correction at
      server tick `s`, the state at `s` is the server position and each later
      state up to `cspTick - 1` is the physics step iterated from it over the
      originally cached inputs; the live position is the iterate at `cspTick`. */
  lemma ReconcileIntendedConverges(p: Predictor, ticksRun: nat, simulate: Simulator, t: int)
    requires CanReconcile(p) && Recorded(p, ticksRun)
    requires p.serverState.currentTick > p.lastCorrectedFrame
    requires Diverges(p.stateCache[CacheIndex(p.serverState.currentTick)].value.position, p.serverState.position)
    requires p.serverState.currentTick <= t < p.cspTick <= p.serverState.currentTick + StateCacheSize
    ensures forall i :: p.serverState.currentTick <= i < p.cspTick ==> p.inputCache[CacheIndex(i)].Some?
    ensures ReconcileIntended(p, simulate).stateCache[CacheIndex(t)] ==
            Some(SimulationState(Trajectory(simulate, p.inputCache, p.serverState.position, p.serverState.currentTick, t), t))
    ensures ReconcileIntended(p, simulate).position ==
            Trajectory(simulate, p.inputCache, p.serverState.position, p.serverState.currentTick, p.cspTick)
    ensures Trajectory(simulate, p.inputCache, p.serverState.position, p.serverState.currentTick, p.serverState.currentTick)
            == p.serverState.position
  {
    var s, c := p.serverState.currentTick, p.cspTick;
    forall i | s <= i < c
      ensures p.inputCache[CacheIndex(i)].Some? && p.stateCache[CacheIndex(i)].Some?
    {
    }
    var k := CacheIndex(t);
    ResimulateIntendedSlot(p.stateCache, p.inputCache, simulate, p.serverState.position, s, c, k);
    LastTickAtFacts(k, c, t);
    var last := LastTickAt(k, c);
    if last != t {
      CacheIndexInjectiveOnWindow(t, last);
    }
  }

  // ---------------------------------------------------------------------------
  // The redundant input batch

  /** `(byte)(cspTick - serverTick)`: the span truncated to its low 8 bits
      (negative when the server tick is ahead after a wrap). */
  function CountByte(cspTick: Tick, serverTick: Tick): (b: Byte)
    ensures 0 <= cspTick - serverTick < 256 ==> b == cspTick - serverTick
    ensures (cspTick - serverTick - b) % 256 == 0
  {
    (cspTick - serverTick) % 256
  }

  /** The inputs `SendInput` reads, slot `i % 1024` for `i` from `lo` up to
      `hi - 1`. */
  function BatchRecords(inputs: seq<Option<ClientInputState>>, lo: Tick, hi: Tick): (r: seq<ClientInputState>)
    requires |inputs| == StateCacheSize
    requires forall i :: lo <= i < hi ==> inputs[CacheIndex(i)].Some?
    ensures |r| == if hi <= lo then 0 else hi - lo
    decreases hi - lo
  {
    if hi <= lo then [] else BatchRecords(inputs, lo, hi - 1) + [inputs[CacheIndex(hi - 1)].value]
  }

  /** The batch holds one record per tick from `lo` to `hi - 1`, in ascending
      order, each read from that tick's slot. */
  lemma {:induction false} BatchRecordsAt(inputs: seq<Option<ClientInputState>>, lo: Tick, hi: Tick, j: int)
    requires |inputs| == StateCacheSize
    requires forall i :: lo <= i < hi ==> inputs[CacheIndex(i)].Some?
    ensures 0 <= j < hi - lo ==> BatchRecords(inputs, lo, hi)[j] == inputs[CacheIndex(lo + j)].value
    decreases hi - lo
  {
    if lo < hi {
      BatchRecordsAt(inputs, lo, hi - 1, j);
    }
  }

  /** The slots `SendInput` needs are present. */
  predicate CanSendInput(p: Predictor)
  {
    WellFormed(p) &&
    forall i :: p.serverState.currentTick <= i < p.cspTick ==> p.inputCache[CacheIndex(i)].Some?
  }

  /** The whole message `SendInput` builds. */
  function InputBatch(p: Predictor): (m: seq<Value>)
    requires CanSendInput(p)
    ensures |m| == 1 + 4 * (if p.cspTick <= p.serverState.currentTick then 0 else p.cspTick - p.serverState.currentTick)
    ensures |m| > 0 && m[0] == ByteValue(CountByte(p.cspTick, p.serverState.currentTick))
  {
    EncodeBatch(CountByte(p.cspTick, p.serverState.currentTick),
                BatchRecords(p.inputCache, p.serverState.currentTick, p.cspTick))
  }

  /** The history invariant gives `SendInput` all the slots it reads. */
  lemma RecordedCanSendInput(p: Predictor, ticksRun: nat)
    requires Recorded(p, ticksRun)
    ensures CanSendInput(p)
  {
  }

  /** In a recorded history with a span of at most 1024, the batch carries
      the inputs stamped with the ticks from the server tick to `cspTick - 1`,
      in that order. */
  lemma InputBatchTicks(p: Predictor, ticksRun: nat, j: int)
    requires Recorded(p, ticksRun)
    requires p.serverState.currentTick <= p.cspTick <= p.serverState.currentTick + StateCacheSize
    requires 0 <= j < p.cspTick - p.serverState.currentTick
    ensures |BatchRecords(p.inputCache, p.serverState.currentTick, p.cspTick)| == p.cspTick - p.serverState.currentTick
    ensures BatchRecords(p.inputCache, p.serverState.currentTick, p.cspTick)[j].currentTick == p.serverState.currentTick + j
  {
    BatchRecordsAt(p.inputCache, p.serverState.currentTick, p.cspTick, j);
    RecordedInputTick(p, ticksRun, p.serverState.currentTick + j);
  }

  /** What the server decodes from `SendInput`'s message: all records when the
      span is at most 255; only the first `span % 256` records when it is
      longer (the count byte is truncated); nothing usable when the server
      tick is ahead, unless the truncated count happens to be 0. */
  lemma InputBatchDecodes(p: Predictor)
    requires CanSendInput(p)
    ensures var records := BatchRecords(p.inputCache, p.serverState.currentTick, p.cspTick);
            var span := p.cspTick - p.serverState.currentTick;
            (0 <= span < 256 ==> DecodeBatch(InputBatch(p)) == Some(records)) &&
            (span >= 256 ==> DecodeBatch(InputBatch(p)) == Some(records[..span % 256])) &&
            (span < 0 ==> DecodeBatch(InputBatch(p)) == if span % 256 == 0 then Some([]) else None)
  {
    var records := BatchRecords(p.inputCache, p.serverState.currentTick, p.cspTick);
    BatchRecordsAt(p.inputCache, p.serverState.currentTick, p.cspTick, 0);
    BatchRoundTrip(CountByte(p.cspTick, p.serverState.currentTick), records);
    assert records[..|records|] == records;
  }

  // ---------------------------------------------------------------------------
  // The movement report handler

  /** `Movement`: the stored server state takes a report only when its tick is
      strictly greater. The stored tick never decreases, and a report is
      either taken whole or not at all. */
  function AcceptReport(stored: SimulationState, report: SimulationState): (r: SimulationState)
    ensures r.currentTick >= stored.currentTick
    ensures r == report || r == stored
    ensures r.currentTick > stored.currentTick <==> report.currentTick > stored.currentTick
    ensures report.currentTick > stored.currentTick ==> r == report
    ensures report.currentTick <= stored.currentTick ==> r == stored
  {
    if report.currentTick > stored.currentTick then report else stored
  }

  /** The handler applied to a sequence of reports in arrival order. */
  function AcceptReports(stored: SimulationState, reports: seq<SimulationState>): SimulationState
    decreases |reports|
  {
    if reports == [] then stored else AcceptReports(AcceptReport(stored, reports[0]), reports[1..])
  }

  /** Whatever order the reports arrive in, the stored tick ends at the
      largest tick seen, the stored state is one of them or the original, and
      a duplicate of the stored report is ignored. */
  lemma {:induction false} AcceptReportsKeepsNewest(stored: SimulationState, reports: seq<SimulationState>)
    ensures AcceptReports(stored, reports).currentTick >= stored.currentTick
    ensures forall i :: 0 <= i < |reports| ==> AcceptReports(stored, reports).currentTick >= reports[i].currentTick
    ensures AcceptReports(stored, reports) == stored || AcceptReports(stored, reports) in reports
    decreases |reports|
  {
    if reports != [] {
      var next := AcceptReport(stored, reports[0]);
      AcceptReportsKeepsNewest(next, reports[1..]);
      assert forall i :: 1 <= i < |reports| ==> reports[i] == reports[1..][i - 1];
    }
  }

  /** Because the guard compares ticks as plain numbers, a stored tick of
      65535 (reached after about 18 minutes at 60 ticks per second) is never
      replaced again: every later report, including the wrapped-around ones,
      is discarded. */
  lemma ReportsRejectedAfterWrap(stored: SimulationState, reports: seq<SimulationState>)
    requires stored.currentTick == TickModulus - 1
    ensures AcceptReports(stored, reports) == stored
  {
    AcceptReportsKeepsNewest(stored, reports);
  }
}
