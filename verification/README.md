# Verified model of the proxy's core

The repository is a reverse proxy in front of an LLM service. Its handlers are plumbing, but
they stand on a few dense components: a rewriter of JSON schemas, an incremental parser of
event streams, a concurrency gate, a pool of API keys with a retry loop, a debounced saver,
rewriting of payloads by path, two LRU structures and bucketed statistics. This project models
those components in Dafny, branch by branch, and proves what they are for.

    dafny verify dfyconfig.toml

| file | component |
|---|---|
| `Common.dfy`, `Json.dfy` | shared vocabulary; `serde_json::Value` and its accessors |
| `SchemaNormalizer.dfy` | `src/schema_norm.rs`: the passes and the recursion |
| `SchemaMeaning.dfy` | a meaning for JSON Schema, and what each pass over one node does to it |
| `SchemaRecursion.dfy`, `SchemaWeakening.dfy` | what the recursion preserves, loses and newly forbids |
| `SchemaShape.dfy`, `SchemaTools.dfy` | the form and depth of the result; when tools are normalized |
| `SchemaWitnesses.dfy` | schemas that show which hypotheses are needed |
| `UsageParse.dfy`, `SseWrapping.dfy` | `src/usage_parse.rs`, and `wrap_json_as_sse` of `src/routes/chat.rs` |
| `UsageShapes.dfy` | the shapes of usage blocks and event lines on the wire, and what is read from each |
| `Gate.dfy` | `src/gate.rs` as interleaved atomic steps |
| `KeyPool.dfy`, `Retry.dfy` | `src/keypool.rs`, and the retry loop of `src/routes/chat.rs` that drives it |
| `Persist.dfy` | `src/persist.rs` with the snapshots of `src/config.rs` |
| `JsonPointer.dfy`, `ImageParts.dfy` | printed paths into a JSON tree; the walk over image parts and their replacement |
| `ImageShapes.dfy` | the shapes of image parts on the wire, where they can stand and in which order |
| `Vision.dfy`, `Payload.dfy` | the handoff of `src/vision.rs` and the image cap of `src/payload.rs` |
| `Lru.dfy`, `Sessions.dfy`, `HandoffCache.dfy` | the LRU sequence; `src/sessions.rs`; `src/handoff_cache.rs` |
| `Sorting.dfy` | the specification of the standard library's sorts |
| `Percentiles.dfy`, `StatsTally.dfy`, `Stats.dfy` | `src/stats.rs`, in memory |
| `StatsFigures.dfy` | what each reported figure counts or sums up, record by record |

Methods carry the source's loops and updates and are proved equal to specification functions
(or, for the gate and the saver, to steps of a transition system); the lemmas are about those.

## What the proofs found

- What schema normalization does to the accepted instances is known exactly, in the fragment and for instances
  that put no null before a visited node. Accepted before and not newly forbidden is the same as accepted
  after and not newly allowed (`SchemaRecursion.NormalizationIff`).
- It accepts more exactly where a keyword is emptied or an inlined alternative overwrites a keyword that the
  instance does not meet (`SchemaWeakening.NormalizationExactIff`; `SchemaWitnesses.CollisionAcceptsMore` is a family
  of such inputs). Null itself is no longer accepted (`SchemaWitnesses.NullIsNoLongerAccepted`).
- It can also reject what the original accepts: inlining an alternative that brings a `properties` table over
  a parent with `additionalProperties` changes the names that keyword reads (`SchemaWitnesses.ClosingForbids`).
  Of what was accepted, exactly the instances that fail such a changed `additionalProperties` are rejected
  (`SchemaWeakening.ForbiddenIff`); there are none if each such table lists the names of the one it replaces
  (`SchemaWeakening.NormalizationWeakens`), so none for a schema without `additionalProperties`.
- `$ref` nodes are never inlined: the map of definitions starts empty and is never filled, and a node
  whose only key is `$ref` has no definitions of its own. The repository's design document says they are;
  the model follows the code. It also says that a `type` array becomes its first remaining entry, while the
  code keeps an array of two or more (`src/schema_norm.rs:217`).
- Shrinking the gate by more than the idle permits leaves a shortfall that is never made up: a gate of n
  permits all in use, shrunk to m, has n active under a limit of m (`ConcurrencyGate.ShrinkOvershoots`), and
  the limit can be exceeded by exactly the shortfall from then on (`ConcurrencyGate.ShortfallIsUsable`).
- `queued` is exact if and only if dropped waits and full-queue admissions cancel out
  (`ConcurrencyGate.QueuedIsExactIff`). A dropped wait is never taken off: 256 of them make every later request
  find the queue full (`ConcurrencyGate.DroppedWaitsStayCounted`). The full-queue branch decrements without
  having incremented: with any limit, growing it by 257 while 256 tasks wait can be enough to leave `queued` at
  2^64 - 1 with an empty queue (`ConcurrencyGate.QueuedWrapsAround`).
- The health report cuts the remaining cooldown down to whole milliseconds, so in its last millisecond an entry
  is reported with no time left although it is not usable (`KeyPool.LastMillisecond`).
- Anthropic usage is sound (cached tokens at most the input tokens) except where the 64-bit sum wraps;
  OpenAI usage if and only if the sample itself says so (`UsageParse.SampleSoundness`).
- A JSON body wrapped as an event stream is read back exactly, unless its ends carry blanks that Rust trims and
  JSON does not allow, and it is JSON with some usage without them (`SseWrapping.WrappingRoundTrip`); then the
  client reads usage where the body has none (`SseWrapping.BlankInFront`).
- Overwriting a digest in a full handoff cache evicts another entry, because room is made before the
  digest is looked for (`HandoffCache.OverwritingEvicts`). The design document
  speaks of eviction on capacity only.
- Buckets can count fewer records than the summary of the same window: exactly those later than the last
  bucket or than the clock are missed (`Stats.SummaryAgreesIff`), among them a record of the current
  millisecond where the bucket length divides the window (`Stats.LatestIsMissed`).
- The image cap does not look into tool results, the vision handoff does, one level deep.

## Model

| member | source | states |
|---|---|---|
| SchemaNormalizer.NormalizeSchema | src/schema_norm.rs:59-138 | the recursion, depth bound and post-passes together compute the specified normal form of every node |
| SchemaNormalizer.NormalizeObject | src/schema_norm.rs:64-138 | one visited object: reference, recursion, then the passes in order |
| SchemaNormalizer.RecurseIntoValues | src/schema_norm.rs:107-116 | every value is normalized one level down, definitions and `nullable` excepted; no key is lost |
| SchemaNormalizer.RunPostPasses | src/schema_norm.rs:118-137 | `anyOf`, `oneOf`, `type`, `enum`, `const`, in this order |
| SchemaNormalizer.SimplifyNullableCombinator | src/schema_norm.rs:160-180 | the in-place pass gives the combinator without null alternatives, removed if empty, inlined over the parent if single |
| SchemaNormalizer.RetainAlternatives | src/schema_norm.rs:162-162 | just the alternatives that are not null schemas stay, in order |
| SchemaNormalizer.NormalizeTypeField | src/schema_norm.rs:198-220 | nulls, `"null"` and empty names go; none left removes `type`, one left replaces the array |
| SchemaNormalizer.NormalizeEnumField | src/schema_norm.rs:223-241 | nulls and repeats go, first occurrences stay in order, an emptied `enum` is removed |
| SchemaNormalizer.RetainFirstOccurrences | src/schema_norm.rs:226-236 | the loop over `seen` keeps each value once and loses none |
| SchemaNormalizer.Distinct | src/schema_norm.rs:226-236 | no value occurs twice, and the values are those given |
| SchemaNormalizer.NormalizeToolSchemas | src/schema_norm.rs:39-54 | every tool's parameters are normalized, if any mentions a reference or definitions; otherwise nothing changes |
| SchemaRecursion.NormalizationIff | src/schema_norm.rs:59-138 | for every schema of the fragment, every depth and every instance that puts no null before a visited node: accepted before and meeting what the passes make new, if and only if accepted after and meeting what they lose |
| SchemaRecursion.NormalizationEquivalent | src/schema_norm.rs:59-138 | the same by one induction over the recursion |
| SchemaRecursion.NormalizationExact | src/schema_norm.rs:59-138 | if no pass changes or empties a keyword at a visited node, the same instances are accepted before and after, `oneOf` counts included |
| SchemaWeakening.NormalizationExactIff | src/schema_norm.rs:59-138 | with the names kept: accepted before if and only if accepted after, no keyword emptied and every overwritten one met at each visited node |
| SchemaWeakening.NormalizationWeakens | src/schema_norm.rs:59-138 | with the names kept, accepted before implies accepted after |
| SchemaWeakening.NothingIsGained | src/schema_norm.rs:160-180 | names are kept if no inlined `properties` table drops a name listed next to its parent's `additionalProperties`: then nothing new is demanded |
| SchemaWeakening.ForbiddenIff | src/schema_norm.rs:59-138 | whatever the names: what was accepted is accepted after if and only if it meets every `additionalProperties` that the passes changed |
| SchemaWeakening.NodeTakenOrMet | src/schema_norm.rs:118-137 | where the assertions of a node are met, its passes leave only keywords it had or ones that are met, `additionalProperties` excepted |
| SchemaWitnesses.ClosingForbids | src/schema_norm.rs:167-175 | a closed table of one name above a nullable alternative with a table of another: the one-member object of the first is accepted before and rejected after, at every depth |
| SchemaWitnesses.ClosingNormalized | src/schema_norm.rs:167-175 | what such a schema normalizes to |
| SchemaMeaning.CombinatorIff | src/schema_norm.rs:160-180 | a combinator's pass: what it loses and what it makes new is all the difference |
| SchemaMeaning.InliningIff | src/schema_norm.rs:167-175 | an alternative's keys moved over its parent's: the same for the pair of them |
| SchemaMeaning.MatchingIgnoresNullSchemas | src/schema_norm.rs:160-195 | dropping null schemas changes for no non-null instance the number of matching alternatives |
| SchemaMeaning.NullSchemaRejects | src/schema_norm.rs:182-195 | what counts as a null schema accepts nothing but null |
| SchemaMeaning.NullSchemaForms | src/schema_norm.rs:182-195 | the null schemas are `{"type": "null"}`, `{"const": null}`, `{"enum": [null]}` and no others |
| SchemaMeaning.NullSchemaIff | src/schema_norm.rs:182-195 | of the schemas of one type name, one constant or one enumerated value, exactly those that accept null and nothing else are dropped |
| SchemaMeaning.AlternativesLeft | src/schema_norm.rs:162-162 | each alternative of those forms goes, each other stays, in order |
| SchemaMeaning.TypeIff | src/schema_norm.rs:198-220 | the type pass changes what is accepted only if no type is left, or only one that is itself an array; then nothing was accepted |
| SchemaMeaning.EnumIff | src/schema_norm.rs:223-241 | the enum pass changes what is accepted only if no value is left; then nothing was accepted |
| SchemaMeaning.ConstIff | src/schema_norm.rs:132-137 | removing a null `const` changes what is accepted; with it nothing was |
| SchemaMeaning.EnumeratesTheSame | src/schema_norm.rs:225-236 | dropping nulls and repeats enumerates the same non-null instances |
| SchemaMeaning.PostPassesIff | src/schema_norm.rs:118-137 | the losses and gains of the five passes of one node are all the difference |
| SchemaRecursion.ReferencesNeverResolve | src/schema_norm.rs:93-105 | with no outer definitions no node's reference resolves |
| SchemaRecursion.TableNormalized | src/schema_norm.rs:107-137 | a `properties` table is rewritten entry by entry, whatever its property names |
| SchemaWeakening.ToolsAcceptMore | src/schema_norm.rs:39-54 | with the names kept, every tool accepts at least the arguments it did; nothing but its parameters changes |
| SchemaShape.VisitedNodeForm | src/schema_norm.rs:118-241 | a visited node ends with no null in `enum`, no repeats and no null `const`; with a normal `type` unless an array of types holds an array itself; and, unless an inlined alternative brought it, with no combinator that is empty, holds a null schema, or holds a single object |
| SchemaShape.DepthReached | src/schema_norm.rs:50-116 | every node that the recursion enters, less deep than the bound, is normalized in its place with the levels that remain; those below the bound stay as they are |
| SchemaShape.EnteredStays | src/schema_norm.rs:107-137 | a value that the recursion enters stays under its key unless an inlined alternative brings that key |
| SchemaShape.DefinitionsStay | src/schema_norm.rs:107-116 | what stands under `definitions`, `$defs` or `nullable` is left as it is |
| SchemaShape.InlinedForm | src/schema_norm.rs:167-175 | key by key: the alternative's members over the parent's others |
| SchemaShape.TypesLeft | src/schema_norm.rs:200-208 | of the types null, `"null"` and `""` go, all others stay, in order |
| SchemaShape.ValuesLeft | src/schema_norm.rs:225-225 | of the enumerated values null goes, all others stay, in order |
| SchemaShape.FirstOccurrencesInOrder | src/schema_norm.rs:226-236 | values stand in the order of their first occurrences |
| SchemaShape.ReferenceResolves | src/schema_norm.rs:93-105 | with definitions handed down, under either root, a reference would become the normal form of its target |
| SchemaTools.HasRefOrDefsIff | src/schema_norm.rs:19-36 | the scan is true if and only if some path leads to a member `$ref`, `$defs` or `definitions` |
| SchemaTools.ToolsUntouched | src/schema_norm.rs:39-42 | if no tool's parameters mention any, nothing changes |
| SchemaTools.EveryToolNormalized | src/schema_norm.rs:43-53 | if one does, the parameters of every tool are normalized, twelve levels deep |
| SchemaWitnesses.NullableBecomesPlain | src/schema_norm.rs:160-180 | a plain type next to a null schema of any form, in either combinator, becomes the plain type |
| SchemaWitnesses.CollisionAcceptsMore | src/schema_norm.rs:167-175 | a type above a nullable alternative of another type: instances of the second are rejected before and accepted after |
| SchemaWitnesses.CollisionNormalized | src/schema_norm.rs:167-175 | what such a schema normalizes to |
| SchemaWitnesses.NullIsNoLongerAccepted | src/schema_norm.rs:198-220 | a nullable type accepts null before normalization and not after |
| UsageParse.SseUsageAccumulator.Ingest | src/usage_parse.rs:131-137 | after any chunk the buffer is the part after the last newline and the usage merges all complete lines fed so far |
| UsageParse.SseUsageAccumulator.DrainLines | src/usage_parse.rs:133-136 | the drain loop consumes exactly the complete lines, in order |
| UsageParse.SseUsageAccumulator.ProcessLine | src/usage_parse.rs:139-154 | a line merges what its data payload reports, or nothing |
| UsageParse.SseUsageAccumulator.Finish | src/usage_parse.rs:157-163 | the total is that of parsing the whole stream at once |
| UsageParse.AccumulateChunks | src/usage_parse.rs:131-163 | for every cutting of a stream into chunks the total is that of the whole stream |
| UsageParse.LinesOfConcatenation | src/usage_parse.rs:131-137 | lines of a concatenation: those of the front, then those of its unfinished line with the back |
| UsageParse.PiecesMakeUpStream | src/usage_parse.rs:131-137 | lines and rest put together are the stream |
| UsageParse.PiecesAreLines | src/usage_parse.rs:131-137 | each line ends with its only newline; the rest has none |
| UsageParse.MergedConcatenation | src/usage_parse.rs:50-55 | merging lines in two parts is merging them all |
| UsageParse.MergedIsLeastBound | src/usage_parse.rs:50-55 | the merged usage is the least that is at least every sample |
| UsageParse.EventOrderIrrelevant | src/usage_parse.rs:45-55 | the same lines in any order and multiplicity give the same usage |
| UsageParse.SampleSoundness | src/usage_parse.rs:62-104 | a sample has cached at most input tokens if and only if its block is OpenAI's and says so, or Anthropic's and the sum does not wrap below it |
| UsageParse.SoundStream | src/usage_parse.rs:50-85 | sound lines merge to a sound usage, in any order |
| UsageShapes.OpenAiUsage | src/usage_parse.rs:62-73 | a top-level block with prompt or completion tokens, whatever else is in it, is read as these two and the two details, absent ones as zero |
| UsageShapes.AnthropicUsage | src/usage_parse.rs:75-104 | a block in a message, or one at the top without those names: input plus cache reads and writes modulo 2^64, output, reads, writes |
| UsageShapes.NoUsage | src/usage_parse.rs:95-97 | without a block all is zero |
| UsageShapes.DataEvent | src/usage_parse.rs:139-154 | a data line, with white space wherever it is trimmed, contributes the usage of its JSON; the end marker and what is no JSON nothing |
| UsageShapes.OtherLine | src/usage_parse.rs:140-147 | a line that is no text or no data line contributes nothing |
| UsageShapes.TrimSurrounded | src/usage_parse.rs:140-145 | trimming leaves what is between the white space at the ends |
| UsageShapes.WhitespaceTable | src/usage_parse.rs:141-145 | white space is that of Unicode, character by character |
| UsageShapes.StreamIsLeastBound | src/usage_parse.rs:131-163 | a stream's usage is the least at least that of each line, an unfinished last one included |
| SseWrapping.WrapJsonAsSse | src/routes/chat.rs:399-404 | the bytes appended to the buffer |
| SseWrapping.WrappingRoundTrip | src/routes/chat.rs:399-404 | a newline-free UTF-8 body, wrapped, yields what extracting from it does, if and only if its ends carry only blanks that JSON allows, or it is no JSON with usage when trimmed |
| SseWrapping.ReadWrapped | src/usage_parse.rs:131-163 | the same for a client that sees the wrapped body in chunks, cut anywhere |
| SseWrapping.BlankInFront | src/usage_parse.rs:140-153 | a JSON text with usage behind a blank that Rust trims and JSON does not allow: the client reads usage where the body has none |
| SseWrapping.RoundTripCanFail | src/routes/chat.rs:399-404 | there is a decoder that obeys the laws, and a body that is misread |
| SseWrapping.LawsCanBeMet | src/usage_parse.rs:140-151 | some decoder obeys the laws assumed of UTF-8 and JSON |
| SseWrapping.WrappedUsage | src/routes/chat.rs:399-404 | only the data line of a wrapped body counts |
| SseWrapping.WrappedTwoLines | src/routes/chat.rs:399-404 | a body with a newline is cut at it: what follows is not seen |
| SseWrapping.TrimAbsorbs | src/usage_parse.rs:140-147 | trimming the line and then the payload leaves the trimmed body |
| UsageShapes.WrappedText | src/routes/chat.rs:399-404 | the text that a streaming client receives |
| ConcurrencyGate.NoOvershoot | src/gate.rs:30-121 | at every point of every run: active at most permits held at most total; total is granted plus shortfall between reconciles; active is at most granted plus shortfall, or, between adding permits and storing the limit, the new limit plus shortfall |
| ConcurrencyGate.RunKeepsInv | src/gate.rs:30-121 | every interleaving keeps the permit and queue accounts, and the shortfall never decreases |
| ConcurrencyGate.StepKeepsPermits | src/gate.rs:30-121 | each atomic step keeps the permit account |
| ConcurrencyGate.StepKeepsQueue | src/gate.rs:53-80 | each atomic step keeps `queued` equal, modulo 2^64, to tasks in the queue plus dropped waits minus full-queue admissions |
| ConcurrencyGate.ShortfallIsUsable | src/gate.rs:111-119 | from a settled state granted plus the whole shortfall can become active |
| ConcurrencyGate.ShrinkOvershoots | src/gate.rs:105-121 | for all m < n: a run from a new gate of n permits ends settled, with limit m, n active and shortfall n - m |
| ConcurrencyGate.QueueBound | src/gate.rs:53-80 | without full-queue admissions, `queued` and the tasks about to increment it never exceed 255 plus the most of the latter |
| ConcurrencyGate.QueuedIsExactIff | src/gate.rs:53-80 | at every point of every run `queued` counts the queue if and only if dropped waits and full-queue admissions cancel out |
| ConcurrencyGate.DroppedWaitsStayCounted | src/gate.rs:72-79 | for every limit and k up to 256: a run in which k waits are dropped leaves `queued` at k with nobody in the queue |
| ConcurrencyGate.RoomIsUsed | src/gate.rs:10-80 | for every limit, four if there is none, a run with as many active and 256 more waiting |
| ConcurrencyGate.FullQueueIsPassed | src/gate.rs:53-64 | for every limit, a run in which one full-queue admission leaves `queued` one short of the tasks in the queue |
| ConcurrencyGate.QueuedWrapsAround | src/gate.rs:53-79 | that run continued, for every limit: an empty queue, and `queued` at the largest number there is |
| ConcurrencyGate.Gate.Acquire | src/gate.rs:52-85 | an acquire up to its first wait: admitted if a permit is free that no waiter was handed, else rejected or waiting; and what becomes of every counter |
| ConcurrencyGate.Gate.AcquireIfFree | src/gate.rs:54-69 | the full-queue branch, with its decrement: no newcomer takes a waiter's permit |
| ConcurrencyGate.Gate.AcquireThroughQueue | src/gate.rs:72-80 | the queueing branch: with an available permit it leaves `queued` as it was, without one it waits behind the waiters |
| ConcurrencyGate.Gate.PollSemaphore | src/gate.rs:73-78 | the first poll of a wait takes an available permit or joins the semaphore's queue |
| ConcurrencyGate.Gate.DropWait | src/gate.rs:73-79 | a wait dropped mid-await leaves `queued` as it is, and its permit to the next |
| ConcurrencyGate.Gate.LeaveWait | src/gate.rs:73-80 | a waiter that was handed a permit takes it, lowers `queued` and raises `active` |
| ConcurrencyGate.Gate.BumpThrottledCount | src/gate.rs:99-101 | only the throttle counter changes |
| ConcurrencyGate.Gate.ReconcileLimit | src/gate.rs:105-121 | growing adds the difference; shrinking takes what no task holds or was handed and records the rest as shortfall; the limit is stored either way |
| ConcurrencyGate.Gate.ForgetPermits | src/gate.rs:113-118 | the forget loop takes as many permits as are free, at most the difference |
| ConcurrencyGate.Gate.DropGuard | src/gate.rs:30-34 | active is decremented, then the permit is released |
| ConcurrencyGate.Gate.RespectsLimit | src/gate.rs:12-34 | the object's fields obey the account that every run keeps |
| KeyPool.SharedPool.Acquire | src/keypool.rs:76-119 | the preferred entry if usable, else the first usable from the cursor, healed, with the cursor after it |
| KeyPool.AcquireContract | src/keypool.rs:76-119 | nothing only if no entry is usable; else a usable entry, none nearer to the cursor, all others unchanged |
| KeyPool.SharedPool.MarkUnhealthy | src/keypool.rs:121-129 | the entry fails now with the cooldown of the status; others and cursor stay |
| KeyPool.SharedPool.MarkHealthy | src/keypool.rs:131-138 | the entry heals; others and cursor stay |
| KeyPool.FailureCoolsDown | src/keypool.rs:121-202 | an entry that failed is usable again after exactly 60, 30 or 10 s, by its status; no other changes |
| KeyPool.SuccessHeals | src/keypool.rs:131-137 | an entry that succeeded is usable at once, unless it has no key; no other changes |
| KeyPool.StaleMark | src/keypool.rs:121-138 | marking an entry that is not there changes nothing |
| KeyPool.SharedPool.Rebuild | src/keypool.rs:151-155 | new entries, cursor at the first |
| KeyPool.SharedPool.HealthyCount | src/keypool.rs:140-143 | the number of usable entries |
| KeyPool.RoundRobinComesCloser | src/keypool.rs:101-118 | each round-robin acquire serves a usable entry or brings the cursor strictly closer to it |
| KeyPool.BoundedWaiting | src/keypool.rs:76-138 | an entry that stays usable is returned within n round-robin acquires, whatever else happens |
| KeyPool.FairShares | src/keypool.rs:101-118 | if all n entries stay usable, k round-robin acquires serve each k/n times, rounded down or up |
| KeyPool.ServiceCount | src/keypool.rs:101-118 | how often exactly, from the distance to the cursor |
| KeyPool.StatusIsExact | src/keypool.rs:164-181 | "active" is reported exactly for usable entries |
| KeyPool.ReportIsFaithful | src/keypool.rs:158-190 | each entry is reported by its name and flag, as active, cooling down or without a key |
| KeyPool.ReportTruncates | src/keypool.rs:169-178 | the reported time is the true one cut down to whole milliseconds |
| KeyPool.WaitIsExact | src/keypool.rs:29-39 | the true time is the least after which the entry is usable |
| KeyPool.ReportIsExactIff | src/keypool.rs:169-178 | the entry is usable exactly when the reported time has passed, if and only if the true time is a whole number of milliseconds |
| KeyPool.LastMillisecond | src/keypool.rs:169-180 | in the last millisecond of its cooldown an entry is reported with no time left and is not usable |
| KeyPool.LaterMarkShortens | src/keypool.rs:121-129 | a second failure with a shorter cooldown makes an entry usable before the first one's cooldown has passed |
| KeyPool.CountIsReported | src/keypool.rs:140-191 | the healthy count is the number of entries reported active |
| Retry.RetryLoop | src/routes/chat.rs:153-341 | the loop computes the specified run, with others using or rebuilding the pool wherever it does not hold the lock: pool, outcome, sleep, throttle counter and stats |
| Retry.Attempt | src/routes/chat.rs:158-332 | one pass: rotate, call, handle |
| Retry.Pass | src/routes/chat.rs:158-332 | one pass leaves the rest of the run leading to the same end |
| Retry.HandleReply | src/routes/chat.rs:179-332 | each class of outcome marks the key used and ends, or sleeps |
| Retry.RotateKey | src/routes/chat.rs:158-163 | a new key from the second attempt on, if there were several and one is usable; the pool may change between the two questions |
| Retry.EveryRunFinishes | src/routes/chat.rs:153-341 | for all outcomes and whatever others do: the code after the loop is not reached, at most 10 calls, 1500 f (f + 1) ms slept for f retried failures (at most 135,000), one throttle bump at most, one stat unless the answer streams |
| Retry.EveryCallMarksItsKey | src/routes/chat.rs:153-332 | whatever others do: the calls get the replies in order, the first with the slot given, the b-th retry 3 b s after the end of the call before and its lag; each marks its own entry as its outcome asks (healed, failed for 10, 30 or 60 s, or as it was) and no other |
| Retry.RunLeavesItsKey | src/routes/chat.rs:185-332 | a run that ends with a success leaves its key healthy, one that ends with another answer the pool as it is, one that gives up the key failed |
| Retry.RetriesRotate | src/routes/chat.rs:158-162 | whatever others do to the pool: every later call uses a usable key whenever there is one and there were several, and else the key before |
| Retry.RetriesRespectCooldowns | src/routes/chat.rs:158-332 | with the pool to itself, a failed key is not chosen again before its cooldown unless none is usable |
| Retry.AttemptKeepsKeys | src/routes/chat.rs:158-332 | the marks of earlier failures stay until their key is used again |
| Retry.MarksExtend | src/keypool.rs:121-129 | a new call leaves the marks of the others |
| Persist.NoLostSave | src/persist.rs:16-50 | in every interleaving of writers and saver: when all is quiet and the latest write did not fail, the disk holds the latest snapshot |
| Persist.WritesNeverGoBack | src/persist.rs:35-40 | successive writes never go back to an older snapshot |
| Persist.UpdatesReachDisk | src/persist.rs:16-50 | left alone, the saver has put the latest snapshot on disk within 9 steps |
| Persist.StuckIffWaiting | src/persist.rs:17-33 | the saver can always move except at its first wait without a permit |
| Persist.SaverStops | src/persist.rs:16-42 | left alone it stops, within a bound its state gives |
| Persist.RunKeepsInv | src/persist.rs:16-50 | every interleaving keeps that a newer snapshot than the loaded one is announced |
| Persist.DebouncedSaver.Round | src/persist.rs:17-41 | updates in the drain window are coalesced into one write of the last |
| Persist.DebouncedSaver.DrainLate | src/persist.rs:26-33 | the drain loop consumes each ping and writes nothing |
| Persist.DebouncedSaver.Update | src/config.rs:272-281 | storing a snapshot is one step, before its ping |
| JsonPointer.PathReadsBack | src/vision.rs:252-263 | a printed path of keys and indices parses back to itself |
| JsonPointer.ParseDecimal | src/vision.rs:256-257 | a printed index parses to itself, also behind a plus sign, if and only if it fits into 64 bits |
| JsonPointer.DecimalDigits | src/vision.rs:28-56 | how indices are written: digit by digit, in base ten |
| JsonPointer.PutChangesOnlyThere | src/vision.rs:252-263 | writing through a path changes what is there and nothing outside it |
| JsonPointer.Navigate | src/vision.rs:252-263 | following the parts one by one reaches the node the path denotes, or nothing |
| ImageParts.WalkMembers | src/vision.rs:19-67 | the walk visits exactly the system parts, content parts and, for tool results, nested parts |
| ImageParts.WalkOrder | src/vision.rs:19-67 | no position twice, in message order |
| ImageParts.PathsApart | src/vision.rs:28-56 | one collected path is a prefix of another only for a part and what is nested in it |
| ImageParts.PositionPrints | src/vision.rs:28-56 | every walked position's printed path reads back |
| ImageShapes.ReadsIff | src/vision.rs:70-100 | a URI is read from a part if and only if the part shows it in one of the three shapes, `image/png` standing in for a missing media type |
| ImageShapes.TypeDecides | src/payload.rs:97-103 | for the cap, the two types alone make an image part |
| ImageShapes.WalkedIff | src/vision.rs:19-67 | a position is walked if and only if a part stands there: under `system`, in a message's content, or in that of a tool result |
| ImageShapes.PositionIsPrinted | src/vision.rs:28-56 | the text of each kind of path |
| ImageShapes.WalkIsInOrder | src/vision.rs:19-67 | from front to back: system, then message by message, each part before what is nested in it |
| ImageShapes.ImagesAreInOrder | src/vision.rs:19-67 | so are the image parts among them, by which they are numbered and capped |
| ImageParts.SelectedImagesAreApart | src/vision.rs:19-67 | image parts are never nested in each other, as an image part is no tool result |
| ImageParts.ReplacedAt | src/vision.rs:128-151 | replacements do not interfere: each position ends with its own text, and everything outside is unchanged |
| ImageParts.LastReplacement | src/vision.rs:145-150 | when its turn comes, a path still leads to its part, unmodified |
| ImageParts.ReplacedKeepsWalk | src/vision.rs:128-151 | replacing images by text leaves every array length and the walk as they were |
| ImageParts.ReplaceAt | src/vision.rs:145-150 | navigate and overwrite, or leave the payload alone |
| Vision.CollectImageParts | src/vision.rs:19-67 | the nested loops collect the path and URI of every image part, in walk order |
| Vision.CollectNested | src/vision.rs:43-60 | the innermost loop, over the content of a tool result |
| Vision.RefsOfImages | src/vision.rs:70-100 | each reference is the path and URI of its image part |
| Vision.PerformVisionHandoff | src/vision.rs:104-153 | the payload with every image replaced by its numbered description, and how many there were |
| Vision.ReplaceImages | src/vision.rs:128-151 | the replacement loop over printed paths |
| Vision.HandoffLeavesNoImage | src/vision.rs:104-153 | afterwards nothing is collected any more, and the walk is the same |
| Vision.HandoffReplacesEachImage | src/vision.rs:104-153 | each image part holds its own text; every other node keeps its shape, or its content |
| Vision.CollectedIff | src/vision.rs:19-100 | a path and URI are collected if and only if a part that shows this URI stands at the position printed so |
| Vision.NothingShowsAfterwards | src/vision.rs:104-153 | after the handoff no part, wherever it stands, shows an image in any of the three shapes |
| Vision.EachImageIsCaptioned | src/vision.rs:126-150 | where the i-th image stood is a text part with the caption, its number if there are several, and the description of its own URI |
| Payload.LimitImagesInMessages | src/payload.rs:34-95 | the note stands in for all but the last `max_images` images: those are the images left, and a second application changes nothing; zero means no cap |
| Payload.LimitImages | src/payload.rs:34-95 | the same for any note |
| Payload.CollectPositions | src/payload.rs:45-75 | the loops collect path and message index of every image part, in walk order |
| Payload.ReplaceOldest | src/payload.rs:85-94 | the first positions, followed by their printed paths, are overwritten |
| Sorting.SortIsStable | src/payload.rs:82-83 | equal keys keep their order |
| Payload.SortChangesNothing | src/payload.rs:82-83 | the positions as collected are already sorted |
| Payload.CapIsExact | src/payload.rs:34-95 | the images left are the last `max_images` in walk order, or all; array lengths stay |
| Payload.CapChangesOnlyTheOldest | src/payload.rs:85-94 | the oldest hold the note; every other node keeps its shape, or its content |
| Payload.CapTwice | src/payload.rs:34-95 | a second application changes nothing |
| Payload.ImageIff | src/payload.rs:45-75 | the images counted are the parts of an image type under `system` and in messages, none in tool results |
| Payload.OldestAreNotes | src/payload.rs:85-94 | each of the oldest is a text part with the note's text |
| Lru.FindSuffix | src/sessions.rs:65-69 | dropping the oldest keeps a key if and only if fewer than the kept number were used since |
| Lru.SinceUsed | src/sessions.rs:42-44 | using another key adds at most that key to those used since |
| Sessions.ConvMap.Track | src/sessions.rs:54-84 | the new map, counter and reply, for a known and for a new fingerprint |
| Sessions.ConvMap.Touch | src/sessions.rs:41-51 | a found fingerprint becomes the most recent; nothing else changes |
| Sessions.ConvMap.Evict | src/sessions.rs:66-68 | the eviction loop keeps exactly the most recent 8,000 |
| Sessions.RunKeepsInv | src/sessions.rs:39-85 | never more than 10,000 entries, never a fingerprint twice |
| Sessions.EvictionIsExact | src/sessions.rs:64-69 | of a full map a new fingerprint leaves exactly those with fewer than 8,000 used since |
| Sessions.RoomKeepsAll | src/sessions.rs:64-79 | with fewer than 10,000 tracked, a new fingerprint is added and nobody evicted |
| Sessions.NumbersAreConsecutive | src/sessions.rs:70-83 | new sessions are numbered 1, 2, and so on up to the counter |
| Sessions.NumbersAreNotShared | src/sessions.rs:70-83 | two replies with one session number are for one fingerprint |
| Sessions.RepliesAreFaithful | src/sessions.rs:41-84 | a reply names the session its fingerprint started, its number of tracked requests and the last token index |
| Sessions.WorkingSet | src/sessions.rs:39-85 | a fingerprint with fewer than 8,000 distinct others used since is found, in its session, with its last token index |
| HandoffCache.Cache.Get | src/handoff_cache.rs:35-50 | an undisturbed lookup: a fresh entry is returned and promoted, an expired one removed; hits or misses counted |
| HandoffCache.Cache.GetLocked | src/handoff_cache.rs:38-50 | the same with a lifetime read earlier, which a resize may have changed since |
| HandoffCache.Cache.Lookup | src/handoff_cache.rs:39-49 | what happens under the lock |
| HandoffCache.Cache.Set | src/handoff_cache.rs:52-59 | room is made at capacity, the eviction counted, the entry written |
| HandoffCache.Cache.Resize | src/handoff_cache.rs:73-80 | the most recent that fit stay; new capacity and lifetime |
| HandoffCache.Cache.Report | src/handoff_cache.rs:61-71 | size at most capacity, and hits plus misses are the lookups |
| HandoffCache.RunKeepsInv | src/handoff_cache.rs:35-80 | any mix of operations keeps the size within the capacity |
| HandoffCache.LookupsAreCounted | src/handoff_cache.rs:35-50 | every lookup is one hit or one miss |
| HandoffCache.CountersAreExact | src/handoff_cache.rs:40-57 | hits are the lookups that were answered, evictions the writes that found no room |
| HandoffCache.ZeroMeansFifty | src/handoff_cache.rs:22-79 | a size of zero, at the start or in a resize, gives room for fifty |
| HandoffCache.WrittenLives | src/handoff_cache.rs:36-59 | what was written is answered for exactly the whole milliseconds of the lifetime |
| HandoffCache.ExpiredIsRemoved | src/handoff_cache.rs:43-46 | an expired entry is removed by the lookup that finds it, and no other is |
| HandoffCache.ResizeKeepsTheRecent | src/handoff_cache.rs:73-80 | a resize keeps an entry if and only if fewer were used since than there is room for |
| HandoffCache.LookupsRefineIdeal | src/handoff_cache.rs:35-80 | a lookup finds nothing or the last write of the digest, younger than the lifetime it read |
| HandoffCache.LifetimeInForce | src/handoff_cache.rs:36-79 | the lifetime that can be read is that of the last resize |
| HandoffCache.WorkingSet | src/handoff_cache.rs:35-59 | with at most capacity - 2 distinct others used since, a lookup answers as a map without bounds would |
| HandoffCache.WriteEvictsExactly | src/handoff_cache.rs:52-59 | a write at capacity evicts the least recent entry and no other |
| HandoffCache.OverwritingEvicts | src/handoff_cache.rs:52-59 | the bound is tight for every capacity of at least two: with capacity - 1 others set, overwriting one of them loses the digest |
| Percentiles.TimingIsOrdered | src/stats.rs:374-380 | median at most 95th percentile, and no figure above the maximum |
| Percentiles.TimingIsExact | src/stats.rs:177-198 | each percentile is the sorted sample at the nearest rank, 50 and 95 percent of the way, halves rounded up; the average times the number is the sum; no samples, zeros |
| Percentiles.RankIsNearest | src/stats.rs:374-380 | the rank computed over the reals is the only nearest whole one |
| Sorting.SortedSorts | src/stats.rs:185-186 | what is sorted is what was given, ascending |
| Percentiles.PercentilesAscend | src/stats.rs:374-380 | a higher percentile is not smaller |
| StatsTally.TallyAppend | src/stats.rs:144-168 | counting one record updates every figure to that of the records with it |
| StatsTally.ByModelAppend | src/stats.rs:161-168 | the entry of the record's model, created if missing, and no other |
| StatsTally.TotalSplit | src/stats.rs:130-174 | totals over a selection split in two add up |
| Stats.StatsCollector.Record | src/stats.rs:72-82 | exactly the newest records are kept |
| Stats.StatsCollector.Buckets | src/stats.rs:97-207 | every bucket holds the figures of exactly the matching records of its time |
| Stats.StatsCollector.Summary | src/stats.rs:297-364 | the folds over the records give the figures of exactly the matching ones since the start of the window |
| Stats.FoldRecords | src/stats.rs:301-347 | one pass over the records: each relevant one goes into every fold, no other into any |
| Stats.FoldsAppend | src/stats.rs:307-347 | folding in one more record gives the counts, sums, maximum and samples of the records with it |
| Stats.FinishSummary | src/stats.rs:319-335 | rates and averages of the folds, zero where there is nothing to divide by |
| Stats.CountRecord | src/stats.rs:130-174 | a record counts in the one bucket of its time, if it matches and there is one |
| Stats.FinishBuckets | src/stats.rs:176-204 | averages, percentiles and rate of each bucket's own samples |
| Stats.ExactlyOneBucket | src/stats.rs:132-143 | a record is in the window if and only if it is in a bucket, and in one only |
| Stats.BucketsPartition | src/stats.rs:130-174 | any sum over records: the buckets' sums add up to the window's |
| Stats.BucketsConserve | src/stats.rs:97-207 | counts, errors and tokens of the buckets are those of the window |
| Stats.ByModelConserves | src/stats.rs:161-168 | in each bucket the entries by model sum to its count, latency and tokens |
| Stats.SummaryIsConsistent | src/stats.rs:307-347 | throttled at most errors at most count; the measured generation is part of all tokens and time; the largest context is one of the contexts |
| Stats.SummarySplits | src/stats.rs:132-143 | the summary counts what the buckets count and what they miss |
| Stats.SummaryAgreesIff | src/stats.rs:297-317 | summary and buckets count the same if and only if no matching record is past the last bucket or the clock |
| Stats.LatestIsMissed | src/stats.rs:98-143 | where the bucket length divides the window, a record of this millisecond is in no bucket |
| Stats.ResponsesAreSound | src/routes/chat.rs:240-273 | a response in whose events or body every usage block is sound is recorded soundly, streamed or not |
| Stats.HitRateAtMostOne | src/stats.rs:200-203 | over sound records every bucket's and summary's hit rate is at most one |
| Stats.ReportedRatesAtMostOne | src/stats.rs:200-203 | from events to rates: if all records are of sound responses, every bucket and summary has a hit rate between zero and one |
| Stats.LatenciesAreOrdered | src/stats.rs:177-198 | each bucket's percentiles are ordered, and nothing exceeds its maximum |
| StatsFigures.BucketsAreExact | src/stats.rs:97-207 | the i-th bucket reported starts i lengths after the window, is that of the matching records of its span up to the clock, and has the exact average, percentiles and rate of their durations, first bytes and tokens |
| StatsFigures.BucketCounts | src/stats.rs:144-159 | count, errors (status at least 400), throttled (429 or 503) and cached are numbers of such records |
| StatsFigures.BucketSums | src/stats.rs:151-155 | each token figure is the sum of that field, the maximum the largest duration |
| StatsFigures.BucketByModel | src/stats.rs:161-168 | an entry for every model that occurs, with the count and sums of its own records |
| StatsFigures.DurationsAreSampled | src/stats.rs:170-170 | every record is a sample of its duration |
| StatsFigures.FirstBytesAreSampled | src/stats.rs:171-173 | every record that reports a first byte is a sample of the time to it, and no other |
| StatsFigures.WindowIsExact | src/stats.rs:98-100 | where the window starts and how many whole buckets it holds, at least one |
| StatsFigures.SummaryRecords | src/stats.rs:301-305 | the summary is over the matching records since the start of the window |
| StatsFigures.SummaryCounts | src/stats.rs:307-313 | count, errors, throttled and cached are numbers of such records |
| StatsFigures.SummarySums | src/stats.rs:314-318 | each token figure is the sum of that field, the largest context the largest prompt |
| StatsFigures.SummaryGeneration | src/stats.rs:340-347 | tokens and time of generation, from the first byte to the end, over the records that report one before it |
| StatsFigures.SummaryAverages | src/stats.rs:319-335 | averages times samples are sums, the rate times the prompt tokens is the cached ones; zero where there are none |
| StatsFigures.NewestIsExact | src/stats.rs:72-82 | the records kept are the last ones, as many as fit and at least one |

## Left out

- Vision.PerformVisionHandoff: works on values instead of updating one `&mut Value` in place; aliasing cannot arise there. The same holds for `Payload.LimitImagesInMessages` and the schema passes.
- Sessions.ConvMap.Track: the session counter does not wrap at 2^64, and lock and counter are one step.
- Stats.StatsCollector.Buckets: sums are unbounded, a zero bucket length (a panic) is excluded, and `f64` rounding is not modelled: averages, percentiles and rates are over the reals.
- Retry.RetriesRespectCooldowns: for a request that has the pool to itself; another request's mark replaces the one of the failure, and with it the cooldown, which that can shorten (`KeyPool.LaterMarkShortens`).
- SchemaNormalizer.NormalizeEnumField: canonical JSON texts are compared as the values they print.
- Keywords other than `additionalProperties` that read their siblings (`SchemaRecursion.ReadsSiblings` names them), and object values under other keywords than `items`, `properties` and `additionalProperties` (`not`, `contains`, `propertyNames`), are outside the fragment.
- An interpretation stands for every other keyword, `$ref` among them, as a predicate of its value and the instance.
- UTF-8 decoding and JSON parsing are parameters with the few laws the round trip names; hashing is not part of this model.
- `tokio::Semaphore` is a count of permits and of waiters, who come before newcomers: the order among the waiters is not modelled, nor its maximum number of permits.
- Memory ordering: each atomic operation is one sequentially consistent step. Reconciles do not overlap one another.
- `ConfigStore::update` stores one snapshot; two concurrent updates that lose one another's change are not modelled. Serialization of the configuration and the file system are a write that succeeds or fails.
- Clocks are parameters of the calls that read them.
- `lru::LruCache` and `sort_by_key` are modelled by their documented behaviour, not by their code.
- The SQLite path of the statistics, the token summary and the list of recent records.
- HTTP handlers, authentication, upstream calls, logging, dashboard and frontend: input and output with no deep property.
- `strip_reasoning_content`, `normalize_thinking_payload`, fingerprinting, key and configuration editing: they would only add easy members.
