/** `SimplePlayerMovement` on the server: the input batch handler, its
    watermark `lastReceivedInputs`, the start offset that skips inputs already
    seen, the loop that applies the rest, and the report it sends back. */
module Server {
  import opened Common
  import opened Wire

  /** The offset at which `HandleClientInput` starts: the distance from the
      batch's first tick to the watermark, or 0 when the watermark is not
      past the first tick. */
  function StartOffset(lastTick: Tick, firstTick: Tick): (start: nat)
    ensures lastTick > firstTick ==> firstTick + start == lastTick
    ensures lastTick <= firstTick ==> start == 0
  {
    if lastTick > firstTick then lastTick - firstTick else 0
  }

  /** The guard of `HandleClientInput`: a non-empty batch whose last (newest)
      input is not older than the watermark. */
  predicate Accepts(lastReceived: ClientInputState, inputs: seq<ClientInputState>)
  {
    |inputs| > 0 && inputs[|inputs| - 1].currentTick >= lastReceived.currentTick
  }

  /** The inputs the loop of `HandleClientInput` passes to `SetInput`:
      indices from the start offset up to the one before the last. A batch
      that is ignored applies nothing; otherwise the applied inputs are a
      contiguous run of the batch ending just before its last input, and they
      skip exactly the inputs the offset says were seen. */
  function AppliedInputs(serverPlayer: bool, lastReceived: ClientInputState, inputs: seq<ClientInputState>)
    : (applied: seq<ClientInputState>)
    ensures !(serverPlayer && Accepts(lastReceived, inputs)) ==> applied == []
    ensures |applied| > 0 ==> |applied| < |inputs| && applied == inputs[|inputs| - 1 - |applied| .. |inputs| - 1]
    ensures serverPlayer && Accepts(lastReceived, inputs) &&
            StartOffset(lastReceived.currentTick, inputs[0].currentTick) < |inputs| - 1 ==>
              |applied| == |inputs| - 1 - StartOffset(lastReceived.currentTick, inputs[0].currentTick)
    ensures serverPlayer && Accepts(lastReceived, inputs) &&
            StartOffset(lastReceived.currentTick, inputs[0].currentTick) >= |inputs| - 1 ==>
              applied == []
  {
    if serverPlayer && Accepts(lastReceived, inputs) then
      var start := StartOffset(lastReceived.currentTick, inputs[0].currentTick);
      if start < |inputs| - 1 then inputs[start .. |inputs| - 1] else []
    else
      []
  }

  /** The watermark after a batch: the batch's last input when it is
      accepted, the old watermark otherwise. It never moves back. */
  function NextWatermark(serverPlayer: bool, lastReceived: ClientInputState, inputs: seq<ClientInputState>)
    : (r: ClientInputState)
    ensures r.currentTick >= lastReceived.currentTick
    ensures r == lastReceived || (serverPlayer && |inputs| > 0 && r == inputs[|inputs| - 1])
    ensures serverPlayer && Accepts(lastReceived, inputs) ==> r == inputs[|inputs| - 1]
  {
    if serverPlayer && Accepts(lastReceived, inputs) then inputs[|inputs| - 1] else lastReceived
  }

  /** The arguments `(vertical, horizontal, jump)` of the `SetInput` calls for
      a sequence of inputs. */
  function Controls(inputs: seq<ClientInputState>): seq<(int, int, bool)>
  {
    seq(|inputs|, j requires 0 <= j < |inputs| => (inputs[j].vertical, inputs[j].horizontal, inputs[j].jump))
  }

  /** The position after applying the inputs in order. */
  function Simulated(simulate: Simulator, start: Vec3, inputs: seq<ClientInputState>): Vec3
    decreases |inputs|
  {
    if inputs == [] then start
    else Apply(simulate, Simulated(simulate, start, inputs[..|inputs| - 1]), inputs[|inputs| - 1])
  }

  /** The batch carries one input per tick, consecutive from its first. */
  predicate Consecutive(inputs: seq<ClientInputState>)
  {
    forall j :: 0 <= j < |inputs| ==> inputs[j].currentTick == inputs[0].currentTick + j
  }

  /** A batch with consecutive ticks that overlaps the watermark (its first
      tick is not after it) applies exactly the ticks from the watermark up to
      the one before its newest, each once and in order. */
  lemma ConsecutiveBatchApplied(lastReceived: ClientInputState, inputs: seq<ClientInputState>)
    requires Consecutive(inputs) && |inputs| > 0
    requires inputs[0].currentTick <= lastReceived.currentTick <= inputs[|inputs| - 1].currentTick
    ensures var applied := AppliedInputs(true, lastReceived, inputs);
            |applied| == inputs[|inputs| - 1].currentTick - lastReceived.currentTick &&
            forall j :: 0 <= j < |applied| ==> applied[j].currentTick == lastReceived.currentTick + j
  {
    var start := StartOffset(lastReceived.currentTick, inputs[0].currentTick);
    assert start == lastReceived.currentTick - inputs[0].currentTick;
    assert inputs[|inputs| - 1].currentTick == inputs[0].currentTick + |inputs| - 1;
  }

  /** In the same situation, the applied inputs are the batch's records from
      the one at the watermark's tick on. */
  lemma ConsecutiveBatchAppliedFrom(lastReceived: ClientInputState, inputs: seq<ClientInputState>, j: int)
    requires Consecutive(inputs) && |inputs| > 0
    requires inputs[0].currentTick <= lastReceived.currentTick <= inputs[|inputs| - 1].currentTick
    requires 0 <= j < |AppliedInputs(true, lastReceived, inputs)|
    ensures AppliedInputs(true, lastReceived, inputs)[j] == inputs[lastReceived.currentTick - inputs[0].currentTick + j]
  {
    assert inputs[|inputs| - 1].currentTick == inputs[0].currentTick + |inputs| - 1;
  }

  /** A batch that starts after the watermark (earlier batches were lost)
      applies its inputs from its first tick: the ticks between the watermark
      and that first tick are never applied. */
  lemma BatchAfterGapApplied(lastReceived: ClientInputState, inputs: seq<ClientInputState>)
    requires Consecutive(inputs) && |inputs| > 0
    requires lastReceived.currentTick < inputs[0].currentTick
    ensures AppliedInputs(true, lastReceived, inputs) == inputs[..|inputs| - 1]
  {
  }

  /** A run of batches, each either ignored (older than the running
      watermark, or empty) or consecutive and overlapping the running
      watermark. Reordered and duplicated deliveries of the redundant batches
      are of this shape. */
  predicate Chained(watermark: Tick, batches: seq<seq<ClientInputState>>)
    decreases |batches|
  {
    batches == [] ||
    (var b := batches[0];
     if |b| == 0 || b[|b| - 1].currentTick < watermark then Chained(watermark, batches[1..])
     else Consecutive(b) && b[0].currentTick <= watermark && Chained(b[|b| - 1].currentTick, batches[1..]))
  }

  /** The watermark and all applied inputs after a run of batches. */
  function Process(lastReceived: ClientInputState, batches: seq<seq<ClientInputState>>)
    : (ClientInputState, seq<ClientInputState>)
    decreases |batches|
  {
    if batches == [] then (lastReceived, [])
    else
      var applied := AppliedInputs(true, lastReceived, batches[0]);
      var rest := Process(NextWatermark(true, lastReceived, batches[0]), batches[1..]);
      (rest.0, applied + rest.1)
  }

  /** Over a chained run of batches the server applies every tick from the
      initial watermark up to the one before the final watermark exactly
      once and in ascending order. */
  lemma {:induction false} ChainedBatchesApplyEachTickOnce(lastReceived: ClientInputState, batches: seq<seq<ClientInputState>>)
    requires Chained(lastReceived.currentTick, batches)
    ensures var r := Process(lastReceived, batches);
            r.0.currentTick >= lastReceived.currentTick &&
            |r.1| == r.0.currentTick - lastReceived.currentTick &&
            forall j :: 0 <= j < |r.1| ==> r.1[j].currentTick == lastReceived.currentTick + j
    decreases |batches|
  {
    if batches != [] {
      var b := batches[0];
      var next := NextWatermark(true, lastReceived, b);
      var applied := AppliedInputs(true, lastReceived, b);
      if |b| == 0 || b[|b| - 1].currentTick < lastReceived.currentTick {
        assert applied == [] && next == lastReceived;
      } else {
        ConsecutiveBatchApplied(lastReceived, b);
        assert next == b[|b| - 1];
      }
      ChainedBatchesApplyEachTickOnce(next, batches[1..]);
      var rest := Process(next, batches[1..]);
      var all := applied + rest.1;
      forall j | 0 <= j < |all|
        ensures all[j].currentTick == lastReceived.currentTick + j
      {
        if j >= |applied| {
          assert all[j] == rest.1[j - |applied|];
        }
      }
    }
  }

  /** `SimplePlayerMovement` as the server runs it. */
  class SimplePlayerMovement {
    const serverPlayer: bool
    /** The physics step `HandleTick`. */
    const simulate: Simulator
    /** The player's `transform.position`. */
    var position: Vec3
    var lastReceivedInputs: ClientInputState
    /** Movement messages handed to `Server.SendToAll`, oldest first. */
    var sent: seq<seq<Value>>
    /** The arguments of every `SetInput` call so far, in order. */
    ghost var setInputCalls: seq<(int, int, bool)>

    /** The field initialisers: the watermark is a default input at tick 0. */
    constructor (serverPlayer: bool, position: Vec3, simulate: Simulator)
      ensures this.serverPlayer == serverPlayer && this.position == position && this.simulate == simulate
      ensures lastReceivedInputs == ClientInputState(0, 0, false, 0)
      ensures sent == [] && setInputCalls == []
    {
      this.serverPlayer := serverPlayer;
      this.position := position;
      this.simulate := simulate;
      lastReceivedInputs := ClientInputState(0, 0, false, 0);
      sent := [];
      setInputCalls := [];
    }

    /** `SetInput`: one physics step with the given input. */
    method SetInput(ver: int, hor: int, jmp: bool)
      modifies this`position, this`setInputCalls
      ensures position == simulate(old(position), ver, hor, jmp)
      ensures setInputCalls == old(setInputCalls) + [(ver, hor, jmp)]
    {
      position := simulate(position, ver, hor, jmp);
      setInputCalls := setInputCalls + [(ver, hor, jmp)];
    }

    /** `SendMovement`: on the server player, send the watermark's tick and
        the current position. */
    method SendMovement()
      modifies this`sent
      ensures sent == if serverPlayer then old(sent) + [EncodeReport(lastReceivedInputs.currentTick, position)] else old(sent)
    {
      if !serverPlayer {
        return;
      }
      sent := sent + [EncodeReport(lastReceivedInputs.currentTick, position)];
    }

    /** What handling a batch does: the applied inputs go through `SetInput`
        in order, the watermark moves to the batch's newest input, and a report
        with that tick and the resulting position is sent — or, for an ignored
        batch, nothing happens at all. */
    twostate predicate Handled(inputs: seq<ClientInputState>)
      reads this
    {
      var applied := AppliedInputs(serverPlayer, old(lastReceivedInputs), inputs);
      setInputCalls == old(setInputCalls) + Controls(applied) &&
      position == Simulated(simulate, old(position), applied) &&
      lastReceivedInputs == NextWatermark(serverPlayer, old(lastReceivedInputs), inputs) &&
      sent == (if serverPlayer && Accepts(old(lastReceivedInputs), inputs)
               then old(sent) + [EncodeReport(lastReceivedInputs.currentTick, position)]
               else old(sent))
    }

    /** `HandleClientInput`. */
    method HandleClientInput(inputs: seq<ClientInputState>)
      modifies this`position, this`lastReceivedInputs, this`sent, this`setInputCalls
      ensures Handled(inputs)
      ensures !(serverPlayer && Accepts(old(lastReceivedInputs), inputs)) ==>
                position == old(position) && lastReceivedInputs == old(lastReceivedInputs) &&
                sent == old(sent) && setInputCalls == old(setInputCalls)
    {
      if !serverPlayer || |inputs| == 0 {
        return;
      }
      if inputs[|inputs| - 1].currentTick >= lastReceivedInputs.currentTick {
        var start := StartOffset(lastReceivedInputs.currentTick, inputs[0].currentTick);
        ghost var applied := AppliedInputs(serverPlayer, lastReceivedInputs, inputs);
        var i := start;
        while i < |inputs| - 1
          invariant 0 <= i - start <= |applied|
          invariant lastReceivedInputs == old(lastReceivedInputs) && sent == old(sent)
          invariant position == Simulated(simulate, old(position), applied[..i - start])
          invariant setInputCalls == old(setInputCalls) + Controls(applied[..i - start])
        {
          assert applied[i - start] == inputs[i];
          assert applied[..i - start + 1][..i - start] == applied[..i - start];
          assert Controls(applied[..i - start + 1]) == Controls(applied[..i - start]) + [(inputs[i].vertical, inputs[i].horizontal, inputs[i].jump)];
          SetInput(inputs[i].vertical, inputs[i].horizontal, inputs[i].jump);
          i := i + 1;
        }
        assert applied[..i - start] == applied;
        lastReceivedInputs := inputs[|inputs| - 1];
        SendMovement();
      }
    }

    /** The reads of the `Input` handler: the count byte, then that many
        records into a fresh array. A message too short for its count, or with
        a value of the wrong kind, yields `None`. Reads only. */
    method ReadInputBatch(message: seq<Value>) returns (inputs: Option<seq<ClientInputState>>)
      ensures inputs == DecodeBatch(message)
      ensures inputs.Some? ==> |inputs.value| == message[0].b && |message| >= 1 + 4 * |inputs.value|
    {
      if |message| < 1 || !message[0].ByteValue? {
        return None;
      }
      var inputsQuantity := message[0].b;
      var body := message[1..];
      var buffer := new ClientInputState[inputsQuantity](_ => ClientInputState(0, 0, false, 0));
      for i := 0 to inputsQuantity
        invariant 4 * i <= |body|
        invariant DecodeInputs(body, i) == Some(buffer[..i])
      {
        DecodeInputsExtend(body, i);
        var record := if 4 * i <= |body| then DecodeInput(body[4 * i..]) else None;
        if record.None? {
          DecodeInputsFailed(body, i + 1, inputsQuantity);
          return None;
        }
        buffer[i] := record.value;
        assert buffer[..i + 1] == buffer[..i] + [record.value];
      }
      assert buffer[..] == buffer[..inputsQuantity];
      return Some(buffer[..]);
    }

    /** The `Input` handler: decode the batch, then handle it; an undecodable
        message changes nothing. */
    method Input(message: seq<Value>)
      modifies this`position, this`lastReceivedInputs, this`sent, this`setInputCalls
      ensures DecodeBatch(message).None? ==>
                position == old(position) && lastReceivedInputs == old(lastReceivedInputs) &&
                sent == old(sent) && setInputCalls == old(setInputCalls)
      ensures DecodeBatch(message).Some? ==> Handled(DecodeBatch(message).value)
    {
      var inputs := ReadInputBatch(message);
      if inputs.Some? {
        HandleClientInput(inputs.value);
      }
    }
  }
}
