/** The two messages exchanged by client and server, as sequences of tagged
    values (one per Riptide `Add...` call), and their decoders.
    - the input batch (client to server): a count byte, then `count` records
      horizontal, vertical, jump, tick (`SendInput` / `Input`);
    - the movement report (server to client): a tick, then a position as three
      floats (`SendMovement` / `Movement`). */
module Wire {
  import opened Common

  datatype Value = ByteValue(b: Byte) | FloatValue(f: int) | BoolValue(v: bool) | UShortValue(u: Tick)

  /** The four values `SendInput` adds for one input, in the order it adds them. */
  function EncodeInput(input: ClientInputState): (m: seq<Value>)
    ensures |m| == 4
  {
    [FloatValue(input.horizontal), FloatValue(input.vertical), BoolValue(input.jump), UShortValue(input.currentTick)]
  }

  function EncodeInputs(inputs: seq<ClientInputState>): (m: seq<Value>)
    ensures |m| == 4 * |inputs|
  {
    if inputs == [] then [] else EncodeInput(inputs[0]) + EncodeInputs(inputs[1..])
  }

  lemma {:induction false} EncodeInputsAppend(inputs: seq<ClientInputState>, input: ClientInputState)
    ensures EncodeInputs(inputs + [input]) == EncodeInputs(inputs) + EncodeInput(input)
  {
    if inputs != [] {
      assert (inputs + [input])[1..] == inputs[1..] + [input];
      EncodeInputsAppend(inputs[1..], input);
    }
  }

  /** The input batch: the count byte, then the records. */
  function EncodeBatch(count: Byte, inputs: seq<ClientInputState>): (m: seq<Value>)
    ensures |m| == 1 + 4 * |inputs|
  {
    [ByteValue(count)] + EncodeInputs(inputs)
  }

  /** One record read with `GetFloat`, `GetFloat`, `GetBool`, `GetUShort`;
      `None` when the message runs out or holds a value of another kind. */
  function DecodeInput(m: seq<Value>): (r: Option<ClientInputState>)
    ensures r.Some? ==> |m| >= 4 && EncodeInput(r.value) == m[..4]
  {
    if |m| >= 4 && m[0].FloatValue? && m[1].FloatValue? && m[2].BoolValue? && m[3].UShortValue? then
      Some(ClientInputState(m[0].f, m[1].f, m[2].v, m[3].u))
    else
      None
  }

  /** Exactly `count` records read from the front of `m`; anything after them
      is not read. */
  function DecodeInputs(m: seq<Value>, count: nat): (r: Option<seq<ClientInputState>>)
    ensures r.Some? ==> |r.value| == count && 4 * count <= |m|
  {
    if count == 0 then Some([])
    else match DecodeInput(m)
      case None => None
      case Some(input) =>
        match DecodeInputs(m[4..], count - 1)
        case None => None
        case Some(rest) => Some([input] + rest)
  }

  /** Reading one more record extends the records read so far by the record
      at the next position, or fails. */
  lemma {:induction false} DecodeInputsExtend(m: seq<Value>, n: nat)
    ensures DecodeInputs(m, n + 1) ==
            if DecodeInputs(m, n).Some? && 4 * n <= |m| && DecodeInput(m[4 * n..]).Some?
            then Some(DecodeInputs(m, n).value + [DecodeInput(m[4 * n..]).value])
            else None
  {
    if n == 0 {
      assert m[4 * n..] == m;
      assert DecodeInputs(m, 0) == Some([]);
      if DecodeInput(m).Some? {
        var x := DecodeInput(m).value;
        assert DecodeInputs(m[4..], 0) == Some([]);
        assert [x] + [] == [x];
        assert DecodeInputs(m, 1) == Some([x]);
        assert [] + [x] == [x];
      } else {
        assert DecodeInputs(m, 1) == None;
      }
    } else if DecodeInput(m).Some? {
      DecodeInputsExtend(m[4..], n - 1);
      if 4 * n <= |m| {
        assert m[4..][4 * (n - 1)..] == m[4 * n..];
      }
      var x := DecodeInput(m).value;
      var before := DecodeInputs(m[4..], n - 1);
      if before.Some? && 4 * n <= |m| && DecodeInput(m[4 * n..]).Some? {
        var y := DecodeInput(m[4 * n..]).value;
        assert ([x] + before.value) + [y] == [x] + (before.value + [y]);
      }
    }
  }

  /** Once reading fails, reading more records fails too. */
  lemma {:induction false} DecodeInputsFailed(m: seq<Value>, n: nat, total: nat)
    requires n <= total && DecodeInputs(m, n) == None
    ensures DecodeInputs(m, total) == None
  {
    if DecodeInput(m).Some? {
      DecodeInputsFailed(m[4..], n - 1, total - 1);
    }
  }

  /** The `Input` handler's reads: one count byte, then `count` records. */
  function DecodeBatch(m: seq<Value>): (r: Option<seq<ClientInputState>>)
    ensures r.Some? ==> |m| >= 1 && m[0].ByteValue? && |r.value| == m[0].b && 1 + 4 * |r.value| <= |m|
  {
    if |m| >= 1 && m[0].ByteValue? then DecodeInputs(m[1..], m[0].b) else None
  }

  /** Decoding `n` records from an encoding of at least `n` inputs recovers
      the first `n` of them, in order. */
  lemma {:induction false} DecodeEncodeInputs(inputs: seq<ClientInputState>, n: nat)
    requires n <= |inputs|
    ensures DecodeInputs(EncodeInputs(inputs), n) == Some(inputs[..n])
  {
    if n > 0 {
      var m := EncodeInputs(inputs);
      assert m == EncodeInput(inputs[0]) + EncodeInputs(inputs[1..]);
      assert m[..4] == EncodeInput(inputs[0]);
      assert m[4..] == EncodeInputs(inputs[1..]);
      DecodeEncodeInputs(inputs[1..], n - 1);
      assert [inputs[0]] + inputs[1..][..n - 1] == inputs[..n];
    }
  }

  /** Asking for more records than were encoded fails. */
  lemma {:induction false} DecodeEncodeInputsTooMany(inputs: seq<ClientInputState>, n: nat)
    requires n > |inputs|
    ensures DecodeInputs(EncodeInputs(inputs), n) == None
  {
    var m := EncodeInputs(inputs);
    if inputs != [] {
      assert m == EncodeInput(inputs[0]) + EncodeInputs(inputs[1..]);
      assert m[..4] == EncodeInput(inputs[0]);
      assert m[4..] == EncodeInputs(inputs[1..]);
      DecodeEncodeInputsTooMany(inputs[1..], n - 1);
    }
  }

  /** Round trip of the input batch: the decoder returns the first `count`
      records when at least that many were encoded, and rejects the batch
      otherwise. */
  lemma BatchRoundTrip(count: Byte, inputs: seq<ClientInputState>)
    ensures count <= |inputs| ==> DecodeBatch(EncodeBatch(count, inputs)) == Some(inputs[..count])
    ensures count > |inputs| ==> DecodeBatch(EncodeBatch(count, inputs)) == None
  {
    var m := EncodeBatch(count, inputs);
    assert m[1..] == EncodeInputs(inputs);
    if count <= |inputs| {
      DecodeEncodeInputs(inputs, count);
    } else {
      DecodeEncodeInputsTooMany(inputs, count);
    }
  }

  /** `SendMovement`: `AddUShort(tick)`, then `AddVector3(position)`. */
  function EncodeReport(tick: Tick, position: Vec3): (m: seq<Value>)
    ensures |m| == 4
  {
    [UShortValue(tick), FloatValue(position.x), FloatValue(position.y), FloatValue(position.z)]
  }

  /** `Movement`: `GetUShort()`, then `GetVector3()`. */
  function DecodeReport(m: seq<Value>): (r: Option<SimulationState>)
    ensures r.Some? ==> |m| >= 4 && m[..4] == EncodeReport(r.value.currentTick, r.value.position)
  {
    if |m| >= 4 && m[0].UShortValue? && m[1].FloatValue? && m[2].FloatValue? && m[3].FloatValue? then
      Some(SimulationState(Vec3(m[1].f, m[2].f, m[3].f), m[0].u))
    else
      None
  }

  lemma ReportRoundTrip(tick: Tick, position: Vec3)
    ensures DecodeReport(EncodeReport(tick, position)) == Some(SimulationState(position, tick))
  {
  }
}
