# Client-side prediction and server reconciliation

A Dafny model of the movement core of a Unity/Riptide client-side
prediction sample. The model has two sides.

The client is `MovementController`. It runs a fixed-timestep loop. Each tick
it records the polled input and the player's position in two 1024-slot
circular caches keyed by `tick % 1024`, then moves the player through the
physics step and advances a 16-bit tick counter. Each frame it reconciles
against the last authoritative report from the server: a report newer than
`lastCorrectedFrame` is compared with the cached state at its tick, and on
divergence the player snaps to the server position and the cached states
from that tick on are rewritten. `SendInput` sends a redundant batch with
every input from the server's last reported tick to the current one. The
`Movement` handler keeps a report only when its tick is strictly newer.

The server is `SimplePlayerMovement`. It decodes the batch and skips the
inputs it has already seen, using its watermark `lastReceivedInputs`. It
applies the remaining inputs except the newest. It then stores the newest
input as the new watermark and reports that tick with the resulting
position.

Modules:

- `Common`: 16-bit ticks, the two record types, the cache index, the
  physics step as a parameter, and the divergence test.
- `Wire`: the two messages as sequences of tagged values, with their
  encoders and decoders and the round-trip lemmas.
- `Prediction`: the client's state as a value (`Predictor`). It has one
  function per step the client takes, the history invariant `Recorded`, and
  the lemmas about reconciliation and the input batch.
- `Client`: the class `MovementController`. Its caches are arrays. The
  methods that run the tick loop and reconciliation (`Tick`, `Update`,
  `Reconciliate`) are proved against the matching `Prediction` function
  (`Snapshot() == F(old(Snapshot()))`) and keep `Recorded`. `SendInput`
  changes nothing and returns `InputBatch(Snapshot())`; it needs only the
  slots it reads to be present. `Movement` is stated with `AcceptReport` on
  the stored server state and keeps `Valid`.
- `Server`: the class `SimplePlayerMovement` and the functions that specify
  batch acceptance. It includes the lemma that chained batches apply every
  tick exactly once.
- `Protocol`: the two sides together. A batch built by the client is
  decoded, and the server applies exactly the client's cached inputs.

Where the code departs from a correct prediction scheme, the model follows
the code:

- The replay loop of `Reconciliate` does not call the physics step. The call
  is commented out in the source. It writes the corrected position, stamped
  with each replayed tick, into every visited slot.
  - `Prediction.Reconcile` models this as written.
    `Prediction.ReconcileCorrectionFlattens` proves the consequence: every
    replayed tick ends at the server position.
  - A corrected replay is modelled separately as
    `Prediction.ReconcileIntended`, labelled as not what the source runs. It
    runs each cached input through the physics step and stores in each slot
    the position before that tick's input, the convention the tick loop in
    `Update` uses. Uncommenting the `SetInput` call where it sits, before
    the slot is rewritten, would instead store the position after the
    input. This variant is proved to rebuild the trajectory from the
    corrected state (`Prediction.ReconcileIntendedConverges`).
- The source has no hard-snap fallback when the cached state of the report's
  tick is missing; it dereferences `null`. It also never compares a slot's
  stamp with the tick it looks up. After tick 1025 is recorded, a lookup of
  tick 1 returns tick 1025's record (`Prediction.RecordedSlotOverwritten`).
- The count byte is `(byte)(cspTick - serverTick)`, a truncation rather than
  a clip to 255. A span of 256 or more sends only `span % 256` usable records
  (`Prediction.InputBatchDecodes`).
- Ticks are compared as plain numbers on both sides, with no wrap-aware
  comparison. Once the stored report tick reaches 65535, no report is
  accepted again (`Prediction.ReportsRejectedAfterWrap`).

Conventions:

- Positions are integers on a grid of 0.001 distance units. The threshold
  `posDif > 0.001f` becomes "squared distance greater than 1".
- Time is an integer count of units, and the tick interval is a positive
  number of the same units.
- The cached state at tick `t` is the position before input `t` is applied,
  as the loop at `Assets/MovementController.cs:58-64` records it. The
  server's report tick is its newest input, which it has not applied. So a
  report at tick `t` and the client's cached state at `t` describe the same
  moment.

## Model

| member | source | states |
|---|---|---|
| Common.NextTick | Assets/MovementController.cs:73 | `cspTick++` on a `ushort`: the successor, or 0 after 65535 |
| Common.CacheIndex | Assets/MovementController.cs:52-55 | the slot is below 1024, congruent to the tick, and equal to it below 1024 |
| Common.CacheIndexOfNextTick | Assets/MovementController.cs:52-55 | the next tick's slot is the next slot, also across the 16-bit wrap, because 1024 divides 65536 |
| Common.CacheIndexInjectiveOnWindow | Assets/MovementController.cs:26-32 | two distinct ticks less than 1024 apart never share a slot |
| Common.LastTickAtFacts | Assets/MovementController.cs:52-61 | the last tick below a bound that uses a slot uses that slot, is within 1024 of the bound, and dominates every other tick that uses it |
| Common.Diverges | Assets/MovementController.cs:110-114 | the `Vector3.Distance(cached, server) > 0.001f` test on the grid: diverging positions differ; `DivergesProperties` adds that no position diverges from itself and that the test is symmetric |
| Common.Apply | Assets/MovementController.cs:63 | one `SetInput(vertical, horizontal, jump)` call on a recorded input, vertical before horizontal; `Prediction.TickStep` applies it to each tick's input, `Client.MovementController.Tick`'s position clause states the same order, and `Server.Simulated` folds it over the inputs the server applies (`Assets/SimplePlayerMovement.cs:49`) |
| Common.DivergesProperties | Assets/MovementController.cs:110-114 | no position diverges from itself; divergence is symmetric and implies different positions |
| Wire.DecodeInput | Assets/SimplePlayerMovement.cs:107-113 | a decoded record re-encodes to the four values it was read from |
| Wire.DecodeInputs | Assets/SimplePlayerMovement.cs:105-114 | a successful read of `count` records yields exactly `count` records and consumed at most the message |
| Wire.EncodeInput | Assets/MovementController.cs:174-177 | the four values of one record, four in all; `DecodeInput` inverts it and `EncodeInputsAppend` places it after the earlier records |
| Wire.EncodeInputsAppend | Assets/MovementController.cs:172-178 | encoding one more input appends its four values |
| Wire.EncodeInputs | Assets/MovementController.cs:172-178 | the records of the loop in order, four values per input (`|m| == 4 * |inputs|`); inverted by `DecodeInputs` in `DecodeEncodeInputs` |
| Wire.EncodeBatch | Assets/MovementController.cs:167-178 | the count byte followed by the records, of length `1 + 4 * |inputs|`; inverted by `DecodeBatch` in `BatchRoundTrip` |
| Wire.DecodeBatch | Assets/SimplePlayerMovement.cs:101-114 | a decoded batch starts with a count byte, holds exactly that many records and fits in the message; `BatchRoundTrip` proves it inverts `EncodeBatch` |
| Wire.DecodeInputsExtend | Assets/SimplePlayerMovement.cs:105-114 | reading one more record extends the records read so far by the record at offset `4n`, or fails |
| Wire.DecodeInputsFailed | Assets/SimplePlayerMovement.cs:105-114 | once a read fails, reading more records fails too |
| Wire.DecodeEncodeInputs | Assets/SimplePlayerMovement.cs:101-114 | decoding `n` records from an encoding of at least `n` inputs returns the first `n` inputs in order |
| Wire.DecodeEncodeInputsTooMany | Assets/SimplePlayerMovement.cs:101-114 | decoding more records than were encoded fails |
| Wire.BatchRoundTrip | Assets/MovementController.cs:167-178 | the server's decoder inverts the client's batch encoder: the first `count` inputs, or failure when fewer were sent |
| Wire.DecodeReport | Assets/MovementController.cs:187-188 | a decoded report re-encodes to the values it was read from |
| Wire.EncodeReport | Assets/SimplePlayerMovement.cs:91-93 | the tick then the position's three coordinates, four values in all; inverted by `DecodeReport` in `ReportRoundTrip` |
| Wire.ReportRoundTrip | Assets/SimplePlayerMovement.cs:91-93 | the client's report decoder inverts the server's report encoder |
| Prediction.Initial | Assets/MovementController.cs:31-34 | the start state has two 1024-slot caches |
| Prediction.GetInput | Assets/MovementController.cs:80-89 | the polled sample stamped with `cspTick`; `Client.MovementController.Tick` states the input slot it fills |
| Prediction.CurrentSimulationState | Assets/MovementController.cs:91-98 | the current position stamped with `cspTick`; `Client.MovementController.Tick` states the state slot it fills, and `RewindAsWrittenSlot` the slots the replay fills |
| Prediction.TickStep | Assets/MovementController.cs:55-73 | a tick keeps the cache sizes, the stored report and `lastCorrectedFrame`, and never empties an input slot or a state slot |
| Prediction.TickSteps | Assets/MovementController.cs:48-74 | the same for any number of ticks, and the slot `Reconciliate` reads stays present |
| Prediction.InitialRecorded | Assets/MovementController.cs:31-34 | the start state satisfies the history invariant with no ticks run |
| Prediction.TickStepRecorded | Assets/MovementController.cs:55-73 | one tick keeps the history invariant, counting one more tick |
| Prediction.TickStepsRecorded | Assets/MovementController.cs:48-74 | `n` ticks keep the history invariant, counting `n` more ticks |
| Prediction.RecordedInputTick | Assets/MovementController.cs:55-58 | for the ticks numerically from `cspTick - 1024` to `cspTick - 1`, the input slot of tick `i` holds the input stamped `i` |
| Prediction.RecordedWindowInputTick | Assets/MovementController.cs:55-58 | for each of the last 1024 ticks run, also across the 16-bit wrap, the 16-bit tick's slot holds the input stamped with that tick |
| Prediction.RecordedSlotOverwritten | Assets/MovementController.cs:55-58 | when two recorded ticks share a slot and the later one is among the last 1024, the slot holds the later tick's input, whose stamp differs from the earlier tick's unless they are a multiple of 2^16 apart (`(j - i) % 65536 != 0`) |
| Prediction.RewindAsWritten | Assets/MovementController.cs:121-153 | the replay loop as written keeps the cache at 1024 slots; its per-slot result is `RewindAsWrittenSlot` |
| Prediction.Reconcile | Assets/MovementController.cs:100-158 | `Reconciliate` as written keeps the caches at 1024 slots; its behaviour is stated by `ReconcileIdempotent`, `ReconcileAccepted`, `ReconcileCorrection`, `ReconcileRecorded` and `ReconcileCorrectionFlattens` |
| Prediction.RewindAsWrittenSlot | Assets/MovementController.cs:125-153 | slot by slot, the replay as written sets the slot to the corrected position stamped with the last replayed tick using it, if its input and state are present; otherwise it leaves the slot |
| Prediction.ReconcileIdempotent | Assets/MovementController.cs:102-103 | a report not newer than `lastCorrectedFrame` changes nothing, so reconciling twice equals reconciling once |
| Prediction.ReconcileAccepted | Assets/MovementController.cs:103-157 | an accepted report sets `lastCorrectedFrame` to its tick and changes neither inputs, tick nor report; without divergence nothing else changes |
| Prediction.ReconcileCorrection | Assets/MovementController.cs:114-153 | on divergence the position snaps to the server position and exactly the replayed slots are rewritten |
| Prediction.ReconcileRecorded | Assets/MovementController.cs:100-158 | reconciliation keeps the history invariant |
| Prediction.ReconcileCorrectionFlattens | Assets/MovementController.cs:125-153 | with a window of at most 1024 ticks, every tick from the server tick to `cspTick - 1` ends holding the server position: the as-written replay flattens the trajectory |
| Prediction.TrajectoryShift | Assets/MovementController.cs:142-145 | iterating the physics step from one tick later, after the first input, gives the same trajectory |
| Prediction.ResimulateIntendedSlot | Assets/MovementController.cs:142-149 | the intended replay (inputs through the physics step) leaves each slot at the trajectory from the corrected start, and ends at the trajectory's end |
| Prediction.ResimulateIntended | Assets/MovementController.cs:125-153 | the corrected replay (not what the source runs) keeps the cache at 1024 slots; its per-slot result and final position are `ResimulateIntendedSlot` |
| Prediction.ReconcileIntended | Assets/MovementController.cs:100-158 | the corrected `Reconciliate` (not what the source runs) keeps the caches at 1024 slots; `ReconcileIntendedConverges` states what it computes |
| Prediction.ReconcileIntendedConverges | Assets/MovementController.cs:120-153 | after an intended correction, every state from the server tick on is the physics step iterated from the server state over the cached inputs, and so is the live position |
| Prediction.CountByte | Assets/MovementController.cs:167 | the count byte is the span when it is in [0, 256) and congruent to it modulo 256 otherwise |
| Prediction.BatchRecords | Assets/MovementController.cs:172-178 | the batch has one record per tick from the server tick to `cspTick - 1` |
| Prediction.InputBatch | Assets/MovementController.cs:160-178 | the message `SendInput` builds: the count byte first, length `1 + 4 * span`; `InputBatchDecodes` states what the server reads from it |
| Prediction.BatchRecordsAt | Assets/MovementController.cs:172-178 | record `j` of the batch is the cached input of tick `serverTick + j` |
| Prediction.RecordedCanSendInput | Assets/MovementController.cs:172-177 | under the history invariant every slot `SendInput` reads is present |
| Prediction.InputBatchTicks | Assets/MovementController.cs:172-177 | within a 1024-tick window, record `j` carries tick `serverTick + j` |
| Prediction.InputBatchDecodes | Assets/MovementController.cs:167-178 | the server decodes every record for a span below 256, only `span % 256` records for a longer span, and nothing usable when the server tick is ahead |
| Prediction.AcceptReport | Assets/MovementController.cs:189-193 | a report with a strictly greater tick replaces the stored one; a report with an equal or smaller tick leaves it unchanged; the stored tick never decreases |
| Prediction.AcceptReportsKeepsNewest | Assets/MovementController.cs:186-193 | in any arrival order, the stored tick ends at least at every tick seen, and the stored report is one of them or the original |
| Prediction.AcceptReports | Assets/MovementController.cs:183-196 | the `Movement` handler over a sequence of reports in arrival order; `AcceptReportsKeepsNewest` and `ReportsRejectedAfterWrap` state its result |
| Prediction.ReportsRejectedAfterWrap | Assets/MovementController.cs:189 | a stored tick of 65535 rejects every later report |
| Client.MovementController.constructor | Assets/MovementController.cs:31-42 | empty caches, tick 0, the default server state, the timer at 0, and the history invariant |
| Client.MovementController.Tick | Assets/MovementController.cs:50-73 | both slots of the tick are written with its stamp, the position moves by the physics step, the tick advances modulo 2^16, no other slot changes, and the history invariant holds |
| Client.MovementController.Update | Assets/MovementController.cs:44-78 | runs `(timer + deltaTime) / interval` ticks, keeps the remainder as the timer, then reconciles: the new state is `Reconcile` of that many `TickStep`s |
| Client.MovementController.Reconciliate | Assets/MovementController.cs:100-158 | the new state is `Reconcile` of the old; a stale report changes nothing, and otherwise `lastCorrectedFrame` becomes its tick |
| Client.MovementController.SendInput | Assets/MovementController.cs:160-180 | the message is the count byte followed by the cached inputs from the server tick to `cspTick - 1`, and its length is `1 + 4 * span` |
| Client.MovementController.Movement | Assets/MovementController.cs:183-196 | a well-formed report replaces the stored one only when its tick is strictly newer; the stored tick never decreases |
| Server.StartOffset | Assets/SimplePlayerMovement.cs:44 | the offset brings the first tick to the watermark when the watermark is ahead, and is 0 otherwise |
| Server.Accepts | Assets/SimplePlayerMovement.cs:36-39 | the batch is non-empty and its newest tick is not older than the watermark; `AppliedInputs` and `NextWatermark` state what follows from it |
| Server.AppliedInputs | Assets/SimplePlayerMovement.cs:36-50 | an ignored batch applies nothing; otherwise a contiguous run ending just before the newest input that skips exactly the offset, and nothing at all when the offset reaches the newest input (a duplicate batch) |
| Server.NextWatermark | Assets/SimplePlayerMovement.cs:39-53 | the watermark never moves back, and becomes the newest input exactly when the batch is accepted |
| Server.ConsecutiveBatchApplied | Assets/SimplePlayerMovement.cs:39-53 | a consecutive batch that overlaps the watermark applies the ticks from the watermark to one before its newest, once each and in order |
| Server.ConsecutiveBatchAppliedFrom | Assets/SimplePlayerMovement.cs:44-50 | the applied inputs are the batch's records from the watermark's tick on |
| Server.BatchAfterGapApplied | Assets/SimplePlayerMovement.cs:44-50 | a batch that starts after the watermark applies all but its newest input, so the ticks in the gap are never applied |
| Server.ChainedBatchesApplyEachTickOnce | Assets/SimplePlayerMovement.cs:34-58 | over a run of batches that are ignored or overlap the running watermark, every tick from the first watermark to one before the last is applied once, in ascending order |
| Server.SimplePlayerMovement.constructor | Assets/SimplePlayerMovement.cs:16-18 | the watermark starts as a default input at tick 0, with nothing sent |
| Server.SimplePlayerMovement.SetInput | Assets/SimplePlayerMovement.cs:25-32 | one physics step with the given input, recorded as one more call |
| Server.SimplePlayerMovement.SendMovement | Assets/SimplePlayerMovement.cs:88-95 | on the server player, one report with the watermark's tick and the current position is sent; otherwise nothing |
| Server.SimplePlayerMovement.HandleClientInput | Assets/SimplePlayerMovement.cs:34-58 | the applied inputs go through the physics step in order, the watermark advances, and one report is sent; an ignored batch changes nothing |
| Server.SimplePlayerMovement.ReadInputBatch | Assets/SimplePlayerMovement.cs:98-114 | the array filled record by record equals the batch decoder's result; a short or mistyped message yields none |
| Server.SimplePlayerMovement.Input | Assets/SimplePlayerMovement.cs:98-118 | a decodable batch is handled and an undecodable one changes nothing |
| Protocol.ClientBatchDecoded | Assets/MovementController.cs:167-178 | with a client span between 1 and 255, the server decodes one record per tick from the server tick, each the client's cached input for that tick |
| Protocol.CachedBatchApplied | Assets/SimplePlayerMovement.cs:39-53 | such a batch, overlapping the watermark, has the server apply the cached inputs from the watermark's tick to one before the newest |
| Protocol.ClientBatchAppliedByServer | Assets/SimplePlayerMovement.cs:34-58 | end to end: the server applies exactly the client's cached inputs from its watermark to `cspTick - 2`, in order, and moves its watermark to `cspTick - 1` |

## Left out

- `HandleTick` (the `CharacterController` physics, gravity, grounding and facing) is the `Simulator` parameter. The physics step depends only on the position and the input.
- Server.SimplePlayerMovement.SetInput: the source's `playerVelocity` and `groundedPlayer` persist from one `SetInput` call to the next, so the vertical motion of one step depends on earlier steps. The model does not capture this carried state, on the server or in a replay on the client.
- Floating point: positions and axis values are integers, and `Vector3.Distance(a, b) > 0.001f` is a squared-distance comparison on a 0.001 grid.
- `Time.deltaTime` and `1f / ServerTickRate` are integer time units, so the timer has no rounding drift.
- `Input.GetAxisRaw` and `Input.GetKey` are the `Sample` parameter of `Update`, polled once per frame.
- Client.MovementController.Update: the per-tick send, gated by a random packet-loss test and delayed by `Invoke`, is left out because it depends on randomness and timing. `SendInput` is a separate method the caller may run after any tick.
- Client.MovementController.Reconciliate: requires the state slot at the report's tick to be present when the report passes the stale guard. The source dereferences `null` there and throws.
- Client.MovementController.Update: requires the same of the state after this frame's ticks, the point where the source reconciles. A frame whose report slot is still empty after its ticks would throw in the source and is not modelled.
- Client.MovementController.Movement and Server.SimplePlayerMovement.ReadInputBatch: a short message decodes to nothing and is dropped. Riptide instead logs an error and returns default values, so a half-read message would be processed with zeros. The value tags belong to the model: Riptide messages carry no tags and read a value of another kind as raw bits, so the model's rejection of a mistyped value has no counterpart in the source.
- The Riptide transport, `MessageSendMode`, `NetworkManager`, `PlayerManager` singleton dispatch and `UIManager` are not part of this model. The two static message handlers are methods on the instance they dispatch to, and `SendToAll` appends the message to the `sent` field.
- `OnDrawGizmos` and `Debug.LogError` are left out because they only draw or log.
