/** Client and server together: what the server does with a batch that the
    client's `SendInput` builds. */
module Protocol {
  import opened Common
  import opened Wire
  import opened Prediction
  import opened Server

  /** In a recorded client history whose span is between 1 and 255, the
      server decodes the client's whole batch: one record per tick from the
      server tick up to `cspTick - 1`, each the input cached for that tick. */
  lemma ClientBatchDecoded(p: Predictor, ticksRun: nat)
    requires Recorded(p, ticksRun)
    requires 0 < p.cspTick - p.serverState.currentTick < 256
    ensures CanSendInput(p)
    ensures var s := p.serverState.currentTick;
            var records := BatchRecords(p.inputCache, s, p.cspTick);
            DecodeBatch(InputBatch(p)) == Some(records) &&
            |records| == p.cspTick - s &&
            forall j :: 0 <= j < |records| ==>
              p.inputCache[CacheIndex(s + j)] == Some(records[j]) && records[j].currentTick == s + j
  {
    RecordedCanSendInput(p, ticksRun);
    InputBatchDecodes(p);
    var s := p.serverState.currentTick;
    var records := BatchRecords(p.inputCache, s, p.cspTick);
    forall j | 0 <= j < |records|
      ensures p.inputCache[CacheIndex(s + j)] == Some(records[j]) && records[j].currentTick == s + j
    {
      BatchRecordsAt(p.inputCache, s, p.cspTick, j);
      InputBatchTicks(p, ticksRun, j);
    }
  }

  /** A batch holding, for each tick from `s` on, the input cached for that
      tick, and overlapping the watermark, has the server apply the cached
      inputs from the watermark's tick up to the one before the batch's
      newest. */
  lemma CachedBatchApplied(cache: seq<Option<ClientInputState>>, s: int, inputs: seq<ClientInputState>,
                           lastReceived: ClientInputState)
    requires |cache| == StateCacheSize && 0 <= s && |inputs| > 0
    requires forall j :: 0 <= j < |inputs| ==>
               cache[CacheIndex(s + j)] == Some(inputs[j]) && inputs[j].currentTick == s + j
    requires s <= lastReceived.currentTick < s + |inputs|
    ensures var applied := AppliedInputs(true, lastReceived, inputs);
            NextWatermark(true, lastReceived, inputs).currentTick == s + |inputs| - 1 &&
            |applied| == s + |inputs| - 1 - lastReceived.currentTick &&
            forall j :: 0 <= j < |applied| ==>
              cache[CacheIndex(lastReceived.currentTick + j)] == Some(applied[j]) &&
              applied[j].currentTick == lastReceived.currentTick + j
  {
    assert Consecutive(inputs);
    ConsecutiveBatchApplied(lastReceived, inputs);
    var applied := AppliedInputs(true, lastReceived, inputs);
    forall j | 0 <= j < |applied|
      ensures cache[CacheIndex(lastReceived.currentTick + j)] == Some(applied[j])
    {
      ConsecutiveBatchAppliedFrom(lastReceived, inputs, j);
    }
  }

  /** In a recorded client history whose span from the server tick to
      `cspTick` is between 1 and 255, the server decodes the client's batch
      and, given a watermark inside that span, applies exactly the client's
      cached inputs for the ticks from its watermark up to `cspTick - 2`, in
      order, and moves its watermark to `cspTick - 1`. */
  lemma ClientBatchAppliedByServer(p: Predictor, ticksRun: nat, lastReceived: ClientInputState)
    requires Recorded(p, ticksRun)
    requires 0 < p.cspTick - p.serverState.currentTick < 256
    requires p.serverState.currentTick <= lastReceived.currentTick < p.cspTick
    ensures CanSendInput(p)
    ensures DecodeBatch(InputBatch(p)) == Some(BatchRecords(p.inputCache, p.serverState.currentTick, p.cspTick))
    ensures var inputs := BatchRecords(p.inputCache, p.serverState.currentTick, p.cspTick);
            var applied := AppliedInputs(true, lastReceived, inputs);
            NextWatermark(true, lastReceived, inputs).currentTick == p.cspTick - 1 &&
            |applied| == p.cspTick - 1 - lastReceived.currentTick &&
            forall j :: 0 <= j < |applied| ==>
              p.inputCache[CacheIndex(lastReceived.currentTick + j)] == Some(applied[j]) &&
              applied[j].currentTick == lastReceived.currentTick + j
  {
    ClientBatchDecoded(p, ticksRun);
    CachedBatchApplied(p.inputCache, p.serverState.currentTick,
                       BatchRecords(p.inputCache, p.serverState.currentTick, p.cspTick), lastReceived);
  }
}
