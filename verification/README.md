# A model of the Mehoy runtime

Mehoy runs local models. A runtime keeps a ledger of what is loaded, every loaded model is
an instance with a worker process behind it, requests run against an instance until they end
or are told to stop, and a generation's output travels from the backend's HTTP response to a
consumer through an event-stream decoder and a bounded buffer. Before any of that, a model
file's header is parsed. This project models those parts and proves what they promise.

| files | what they hold |
|---|---|
| `Wrappers`, `Sequences`, `Sets`, `Bytes` | options and results, joining sequences, counting finite sets, little-endian numbers and UTF-8 (section 4 of RFC 3629) |
| `Gguf`, `GgufProofs`, `GgufValues`, `GgufReader` | the header format and its encoder, round trips both ways over what the bytes hold and over the values they stand for, and the budgeted parser as it runs |
| `Sse`, `SseProofs`, `SseDecoder` | event framing (a subset of sections 9.2.5 and 9.2.6 of the WHATWG HTML Standard), its declarative reading, and the decoder as it runs |
| `Requests`, `Handles` | one request's state and cancellation token under any interleaving, and the shared handle |
| `Workers` | the worker process and what stopping it establishes |
| `Resources` | limits, exact and saturated totals, the ledger |
| `Instances`, `InstanceProofs`, `LoadedModels` | one instance from serving to torn down, as a state machine over all interleavings and as the object whose methods are its lock-held sections |
| `Runtimes`, `RuntimeProofs` | the whole runtime: ledger, instances, overlapping loads and unloads |
| `Streams`, `StreamProofs`, `StreamHalves` | sink, buffer and consumer of one generation, as a state machine and as the two objects |
| `Bodies`, `BodySplits`, `Generating` | what a response body says, exactly when its split into frames does not matter, and the producer that reads it |
| `Embeddings`, `Calls` | when a batch of embeddings can be trusted, and the calls that wait for one whole answer |

## How the concurrent parts are modelled

A state machine's step is one lock-held section, one write to a token, one look at a request,
one operation on the buffer, or one report from a process; any steps may interleave. The
classes are the same sections as methods. Where a method runs outside a lock, it calls, between
any two of its own steps, a method that stands for whatever others may do meanwhile
(`Handles.Interfere`, `LoadedModels.LoadedModel.Meanwhile`, `Generating.Others`,
`Calls.Elsewhere`), and relies on nothing but that method's contract. `Requests.LaterIsReachable`
shows that the first allows exactly what callers can do; the third allows any steps of the
stream's machine that are not the producer's. A method that waits on others also takes a ghost
input `quiet`, which says that they put nothing in its way: they record no reason to stop and
the consumer keeps reading, or, for an instance and its handles, they do nothing at all. It
chooses among what others may do and can decide nothing else, and under it the result is
fixed outright. `outlasted`, an input of an unload, says during which of its polls, if any,
the requests it waits for end. The methods of `StreamHalves.GenerationSink` that
end a stream take their steps together; the machine takes them one at a time. Fields that only
record history (`takers`, `stops`, `claimants`, `builders`, `emitted`, `outcome`, `drawn`) exist
to state properties of whole runs.

Where the code and its documentation disagree, the model follows the code:

- A worker stopped by a shutdown line whose deadline passes is reported as a timeout only
  when the kill then worked; when the kill is refused the report is an I/O error and the
  handle keeps its process (`crates/mehoy-core/src/worker/process.rs:535-538`).
- A push that fails discards the events it had already found, and whether the size check
  trips depends on how the bytes were split (`crates/mehoy-backend-llama/src/sse.rs:46-63`).
- An expired idle budget writes the token without moving the request to its stopping state
  (`crates/mehoy-backend-llama/src/generate.rs:579`), so a recorded cause does not imply that
  state; only the converse is claimed.
- A sink reports the cause it was given even when the request had recorded another
  (`crates/mehoy-core/src/inference.rs:758-773`); the two agree exactly when nothing else had
  been recorded first.
- An answer with no embeddings to a request with no inputs is refused, as having no common
  dimension (`crates/mehoy-core/src/inference.rs:264-266`).

## Model

| member | source | states |
|---|---|---|
| `GgufProofs.DocumentBack` | crates/mehoy-registry/src/gguf.rs:400-447 | Any header within the limits, encoded and followed by anything at all, is read back entry for entry, leaving exactly what followed and a budget reduced by exactly the bytes of the encoding |
| `GgufProofs.DocumentSound` | crates/mehoy-registry/src/gguf.rs:400-447 | Whatever is accepted is the encoding of a header within the limits, and bytes consumed plus budget left is the whole budget |
| `GgufProofs.AcceptsExactlyEncodings` | crates/mehoy-registry/src/gguf.rs:400-447 | An input is accepted if and only if it begins with the encoding of some header within the limits |
| `GgufProofs.DocumentCut` | crates/mehoy-registry/src/gguf.rs:265-277 | Every strict prefix of an encoding is refused as truncated, and as nothing else, when the source simply ends |
| `GgufProofs.BytesReadDecide` | crates/mehoy-registry/src/gguf.rs:400-447 | Inputs that share the bytes an accepted parse consumed give the same header, and any shorter share of them is refused as truncated |
| `GgufProofs.EncodingsAreDistinct` | crates/mehoy-registry/src/gguf.rs:455-498 | No encoding of one header is a prefix of the encoding of another |
| `GgufProofs.MetadataKeys` | crates/mehoy-registry/src/gguf.rs:433-439 | The keys of the resulting map are exactly the keys of the entries |
| `GgufProofs.LastEntryWins` | crates/mehoy-registry/src/gguf.rs:433-439 | A key that is repeated keeps the value of its last entry |
| `GgufProofs.EachFits` | crates/mehoy-registry/src/gguf.rs:433-439 | Each entry of metadata within the limits is within them itself and has a value with a meaning |
| `GgufProofs.ElementsFit` | crates/mehoy-registry/src/gguf.rs:355-390 | An array's elements fit if and only if each of them has the declared type and fits one level deeper |
| `GgufProofs.ValuesCostBytes` | crates/mehoy-registry/src/gguf.rs:332-390 | A value takes at least one byte for every value read to read it, so the budget bounds the reads whatever lengths are declared |
| `GgufReader.Budgeted.Take` | crates/mehoy-registry/src/gguf.rs:253-263 | Charges the budget, or refuses naming what was asked for and what is left, and then charges nothing |
| `GgufReader.Budgeted.ReadExactOrTruncated` | crates/mehoy-registry/src/gguf.rs:265-277 | Reads exactly what was asked for, or reports that the source ended, naming what was being read, or that it broke |
| `GgufReader.Budgeted.Text` | crates/mehoy-registry/src/gguf.rs:311-329 | A string read in place, with its limits checked in order, is the one the format defines |
| `GgufReader.Budgeted.ReadValue` | crates/mehoy-registry/src/gguf.rs:332-353 | A value read in place is the summary of the value the bytes spell, at the same position, or fails as the full reading does |
| `GgufReader.Budgeted.ReadArray` | crates/mehoy-registry/src/gguf.rs:355-390 | An array of any declared length is read to its end whether or not its elements are kept, with the same result for what follows |
| `GgufReader.Budgeted.Entries` | crates/mehoy-registry/src/gguf.rs:433-439 | The loop over entries fills the map a full reading of them defines |
| `GgufReader.Parse` | crates/mehoy-registry/src/gguf.rs:400-447 | The running parser succeeds exactly where a parser keeping every array does, consumes the same bytes, fails with the same error, and returns that parser's header with long arrays replaced by their shape; the number of values it reads is bounded by the bytes it consumed |
| `GgufValues.ValueBack` | crates/mehoy-registry/src/gguf.rs:332-390 | Every value in the range of its type, written by its own rule (a truth value as one byte, a negative number by adding the modulus, text and arrays by length), is read back as itself, an array of more than 64 elements as its type and length, leaving exactly what followed |
| `GgufValues.AnyOtherByteIsTrue` | crates/mehoy-registry/src/gguf.rs:345 | A truth value is false when its byte is zero and true for any other byte |
| `GgufValues.WrittenHeaderReadBack` | crates/mehoy-registry/src/gguf.rs:400-447 | The bytes of a header written from a version, a tensor count and keys with values give back that version, both counts, and for each key the last value written under it |
| `GgufValues.ParseWritten` | crates/mehoy-registry/src/gguf.rs:400-447 | The running parser does so too, on every such header and whatever follows it |
| `GgufValues.NotAHeader` | crates/mehoy-registry/src/gguf.rs:400-407 | Four bytes other than the magic are refused, quoting them |
| `GgufValues.HeaderRefused` | crates/mehoy-registry/src/gguf.rs:409-431 | Another version, or a count beyond its limit, is refused for that, in that order and with the numbers and the limit |
| `GgufValues.TextRefused` | crates/mehoy-registry/src/gguf.rs:311-329 | A string is refused for its length, for what the budget has left, or for not being text, in that order |
| `GgufValues.ValueRefused` | crates/mehoy-registry/src/gguf.rs:332-390 | A type beyond 12 is unknown; an array four deep is refused for its depth and one beyond the limit for its length |
| `GgufValues.NumbersCutShort` | crates/mehoy-registry/src/gguf.rs:332-353 | A source that ends before a value says which kind was being read |
| `SseProofs.DrainAppend` | crates/mehoy-backend-llama/src/sse.rs:56-60 | Draining, feeding more and draining again is draining once with everything, also across a CR LF pair cut in half |
| `SseProofs.FeedIsOneDrain` | crates/mehoy-backend-llama/src/sse.rs:46-63 | A list of pushes succeeds if and only if there is room at every push and the bytes as a whole hold no invalid data line, and then yields what one drain of all the bytes yields |
| `SseProofs.SplitsAgree` | crates/mehoy-backend-llama/src/sse.rs:46-133 | Two splits of the same bytes in which no push fails yield the same events and leave the same decoder |
| `SseProofs.SmallInputFailsAlike` | crates/mehoy-backend-llama/src/sse.rs:46-63 | For input of at most 8 MiB as a whole, one split fails exactly when every split does |
| `SseProofs.SizeCheckDependsOnTheSplit` | crates/mehoy-backend-llama/src/sse.rs:50-54 | Beyond that limit it does not hold: the same bytes are refused in one chunk and accepted in two |
| `SseProofs.DrainConserves` | crates/mehoy-backend-llama/src/sse.rs:56-60 | Consuming lines never increases what is held |
| `SseProofs.HeldAfterPush` | crates/mehoy-backend-llama/src/sse.rs:46-63 | After a push that succeeds at most twice the limit is held, and the buffer holds no complete line |
| `SseProofs.NothingToTake` | crates/mehoy-backend-llama/src/sse.rs:78-96 | A buffer holds no complete line exactly when its only line break, if any, is a last carriage return |
| `SseProofs.OneDivision` | crates/mehoy-backend-llama/src/sse.rs:78-96 | Every stream divides into lines in exactly one way, the way the decoder takes them |
| `SseProofs.StreamRead` | crates/mehoy-backend-llama/src/sse.rs:46-133 | A fresh decoder reads a stream, however split, as its lines say: it fails exactly when a push finds no room or a data value is not text, and otherwise yields for each block the data values joined with line feeds, and holds something exactly when the stream ends inside a line or inside a block with data |
| `SseProofs.WrittenPayloadsReadBack` | crates/mehoy-backend-llama/src/sse.rs:98-133 | Payloads without carriage returns, written as data lines with either ending and split at will, are read back exactly when there is room at every push, and otherwise refused |
| `SseProofs.EventsAreText` | crates/mehoy-backend-llama/src/sse.rs:125-131 | Wherever characters were cut between chunks, every event is valid UTF-8, and so is what is held |
| `SseProofs.FieldCarries` | crates/mehoy-backend-llama/src/sse.rs:99-123 | A line that is a name without a colon, a colon and a rest carries the rest less one leading space if the name is `data`, and nothing otherwise, a comment being the case of no name |
| `SseProofs.BareNameCarries` | crates/mehoy-backend-llama/src/sse.rs:99-123 | A line without a colon carries an empty value if it is `data`, and nothing otherwise |
| `SseProofs.SpokenPayloadsReadBack` | crates/mehoy-backend-llama/src/sse.rs:98-133 | Payloads written with or without the space, with any comments, other fields and blank lines between, each line ending in LF, CR or CR LF, however split, are read back exactly when there is room at every push, and otherwise refused |
| `Bytes.ValidExactlyWhenEncoded` | crates/mehoy-backend-llama/src/sse.rs:125-126 | What counts as text is exactly what some list of Unicode scalar values encodes to |
| `SseDecoding.SseDecoder.Push` | crates/mehoy-backend-llama/src/sse.rs:46-63 | The loop over the buffer leaves the decoder, and yields the events, the specification says, also when it fails, refuses a chunk exactly when it makes the buffer longer than 8 MiB or the data held is, and never keeps data of an event already dispatched |
| `SseDecoding.SseDecoder.TakeLine` | crates/mehoy-backend-llama/src/sse.rs:78-96 | Removes the first complete line with its ending, and nothing when there is none |
| `SseDecoding.SseDecoder.Consume` | crates/mehoy-backend-llama/src/sse.rs:99-133 | Applies one line to the event being assembled, changing nothing when its value is not text; what each line carries is told apart by `FieldCarries` and `BareNameCarries` |
| `SseDecoding.SseDecoder.HasPartialEvent` | crates/mehoy-backend-llama/src/sse.rs:69-71 | False exactly when the decoder is as good as new, so that nothing fed to it so far can show in what follows |
| `Requests.RunIsLater` | crates/mehoy-core/src/cancel.rs:331-368 | Over any interleaving the state never moves back, an outcome and a cause never change once set, and a request in its stopping state has a recorded cause |
| `Requests.LaterIsReachable` | crates/mehoy-core/src/cancel.rs:331-368 | That is all: one state of a request can follow another exactly when those rules allow it |
| `Requests.DecidedOnce` | crates/mehoy-core/src/cancel.rs:228-240 | In any run one finish decides the outcome of a request that ends, and one cancellation is the recorded one |
| `Handles.RequestHandle.CancelToken` | crates/mehoy-core/src/cancel.rs:228-240 | The first cause wins and the call says whether it was the one |
| `Handles.RequestHandle.MarkRunning` | crates/mehoy-core/src/cancel.rs:331-336 | Moves a starting request to running and no other |
| `Handles.RequestHandle.RequestCancellation` | crates/mehoy-core/src/cancel.rs:344-354 | Refuses an ended request, and otherwise records the cause and the stopping state together |
| `Handles.RequestHandle.Finish` | crates/mehoy-core/src/cancel.rs:360-368 | The first outcome wins and the call says whether it was the one |
| `Handles.AskToStop` | crates/mehoy-runtime/src/loader.rs:607-625 | While others act between any two looks: the caller is told its request stopped it exactly when the request had not ended and had no recorded cause where this call met it; otherwise the cause reported is the one recorded then, or the state the one the request ended in, and the fallback cause is never used |
| `Handles.Scan` | crates/mehoy-runtime/src/loader.rs:209-212 | Handles counted one at a time while they change: the count is never below how many are still live at the end nor above how many were at the start |
| `Handles.Drain` | crates/mehoy-runtime/src/loader.rs:206-221 | What the wait returns is at least what is still live, so zero means every handle had settled; it is zero when they settle during its polls, and is the number of live ones when nothing happens |
| `Handles.TellAll` | crates/mehoy-runtime/src/loader.rs:736-740 | Afterwards every outstanding request has ended or has a recorded cause; left alone, one without a cause is then stopping because its instance is going, and one with a cause is as before |
| `Workers.StopByTermination` | crates/mehoy-core/src/worker/process.rs:493-503 | Stopping by termination succeeds if and only if the handle then holds no process; of one it held it lets go exactly when the process was seen to have exited, took the kill, or ended in time |
| `Workers.TransitionsLead` | crates/mehoy-core/src/worker/state.rs:64-89 | A worker comes up through every state in order and goes down through every state in order; it can fail from any but absent, and nothing leads out of failure |
| `Workers.WorkerHandle.Mark` | crates/mehoy-core/src/worker/state.rs:64-89 | A transition is made exactly when the table allows it, and refused naming both states otherwise |
| `Workers.WorkerHandle.Kills` | crates/mehoy-core/src/worker/process.rs:574-635 | Succeeds exactly when the handle holds no process afterwards, and lets go of one exactly when it was seen to have exited, took the kill, or ended in time |
| `Workers.WorkerHandle.Shutdown` | crates/mehoy-core/src/worker/process.rs:479-540 | Under either protocol success means the handle holds no process, a timeout means it held one that had to be killed and holds it no longer, any other error means it still holds one; a process is let go of exactly when it ended, was seen to have exited or took the kill; the state reached follows, and no transition it makes is ever refused |
| `Workers.WorkerHandle.WaitForExit` | crates/mehoy-core/src/worker/process.rs:547-566 | An exit nobody asked for fails the worker wherever the table allows it |
| `Workers.WorkerHandle.WaitReady` | crates/mehoy-core/src/worker/process.rs:413-471 | The first round that settles anything decides a startup, and a worker not reported ready is failed, and killed when it never answered |
| `Resources.SaturatingFold` | crates/mehoy-runtime/src/runtime.rs:204-213 | In whatever order a map yields its footprints, the saturating fold is the exact sum or the largest value, whichever is less |
| `Resources.SaturationDecidesRightly` | crates/mehoy-runtime/src/resources.rs:151-168 | Deciding on the saturated total is deciding on the exact one, if and only if it is not a request for nothing under the largest budget with more than that committed |
| `Resources.RefusalsSayWhy` | crates/mehoy-runtime/src/resources.rs:140-172 | A refusal changes nothing and names the limit in the way, the count before the bytes, with the capacity, or with what was asked for, what is committed and the budget |
| `Resources.ReserveWithin` | crates/mehoy-runtime/src/runtime.rs:645-657 | A reservation keeps the exact totals within the limits, is granted exactly when they allow it, and commits exactly what was asked for |
| `Resources.ReleaseGivesBack` | crates/mehoy-runtime/src/runtime.rs:283-289 | Dropping a claim gives back exactly what it claimed, and nothing when it is gone already |
| `Resources.FulfilMoves` | crates/mehoy-runtime/src/runtime.rs:249-280 | Settling a claim moves it to a resident entry holding the model at the footprint claimed, without changing what is committed, or gives it back when the instance is resident already |
| `Resources.EvictGivesBack` | crates/mehoy-runtime/src/runtime.rs:613-613 | Removing an entry gives back exactly its footprint |
| `Resources.Books.Claim` | crates/mehoy-runtime/src/runtime.rs:645-657 | Decision and record are one section of the ledger |
| `Resources.Books.CommittedUsage` | crates/mehoy-runtime/src/runtime.rs:203-219 | The usage reported counts entries and loads in flight, with the exact total, or the largest value when it is beyond that |
| `Resources.Books.Settle` | crates/mehoy-runtime/src/runtime.rs:252-279 | Takes the claim and enters the model in one section, under the footprint that was claimed |
| `Resources.Reserved.Fulfil` | crates/mehoy-runtime/src/runtime.rs:249-280 | Settles the claim; its going away afterwards gives nothing back a second time |
| `Resources.Reserved.Drop` | crates/mehoy-runtime/src/runtime.rs:283-289 | A claim that was never settled is given back, and a settled one is left alone |
| `InstanceProofs.StepKeeps` | crates/mehoy-runtime/src/loader.rs:382-400 | Every step any caller can take keeps the instance's invariant, whatever the other callers are doing |
| `InstanceProofs.TeardownIsSafe` | crates/mehoy-runtime/src/loader.rs:693-770 | In every state of every run: requests that have not ended are tracked until teardown clears them, one unload at most takes the worker, while its stop is under way every request ever admitted has ended or has a recorded cause; unloaded, the one stop of the worker the instance was built with let go of a process only as one that exited or took the kill, and after a failed teardown it still holds one that did neither; the branch for a missing worker is never taken |
| `InstanceProofs.ClosedForGood` | crates/mehoy-runtime/src/loader.rs:698-710 | Once admission closed nothing is added, a final phase is never left, and an unload begun after a failed one is told so and changes nothing |
| `InstanceProofs.WhileStopping` | crates/mehoy-runtime/src/loader.rs:741-762 | From whenever a stop is under way, its result goes by what was outstanding and what was seen unsettled when it began |
| `InstanceProofs.OutcomesAreTrue` | crates/mehoy-runtime/src/loader.rs:735-762 | An unload reported as drained or escalated had its worker stopped, and in every state of that stop, from the first on: for a drained one no request was live; for an escalated one the number given is positive, at most what it cancelled and at least what was still live |
| `InstanceProofs.LeftAloneToldWhy` | crates/mehoy-runtime/src/loader.rs:736-740 | Requests that nobody else acts on are told by an unload that their instance is going, and nothing else happens to them |
| `LoadedModels.LoadedModel.Admit` | crates/mehoy-runtime/src/loader.rs:382-400 | Admits exactly when the phase is serving and the instance usable, and registers the new request in the same section |
| `LoadedModels.LoadedModel.ActiveRequests` | crates/mehoy-runtime/src/loader.rs:633-637 | Lets go of requests that have ended and counts the rest |
| `LoadedModels.LoadedModel.Cancel` | crates/mehoy-runtime/src/loader.rs:596-626 | Unknown exactly when the request is not tracked or has ended; otherwise the caller is told its request stopped it exactly when no cause was recorded where this call met it, and any other answer is the cause recorded then or the state the request ended in |
| `LoadedModels.LoadedModel.UnloadWithin` | crates/mehoy-runtime/src/loader.rs:693-763 | A call that does not find the instance serving is told why and changes nothing; the one that does ends with every request ended or told to, nothing tracked and the phase unloaded exactly when the worker held no process or it was seen to exit or took the kill; when the stop began, every request had ended or been told to, none was live for a drained result, and no more than it reports were live for an escalated one; it is drained when the requests end during its polls, and left alone it tells exactly the live ones, that their instance is going, and counts them |
| `LoadedModels.LoadedModel.Release` | crates/mehoy-runtime/src/loader.rs:696-741 | Phases one and two up to the stop: afterwards every request has ended or has a recorded cause, and no more are live than the wait reports; left alone, exactly the live ones are told, and why |
| `LoadedModels.LoadedModel.Stop` | crates/mehoy-runtime/src/loader.rs:743-744 | Is reached only once every request has ended or been told to and no more are live than were counted, and changes no request itself |
| `LoadedModels.LoadedModel.Close` | crates/mehoy-runtime/src/loader.rs:696-718 | Phase one takes the worker and every request that has not ended, each once |
| `LoadedModels.LoadedModel.Finish` | crates/mehoy-runtime/src/loader.rs:765-770 | Records the final phase and lets go of every request |
| `RuntimeProofs.MoveKeeps` | crates/mehoy-runtime/src/runtime.rs:364-403 | Every ledger section, instance step and look at a phase keeps the runtime's invariant under any overlap of loads and unloads |
| `RuntimeProofs.LimitsHold` | crates/mehoy-runtime/src/runtime.rs:645-657 | In every reachable state entries never outnumber the instance limit, the exact sum of all footprints never exceeds a byte budget, and every entry is one load's and no other's: a pending one the claim of the load that holds it, a resident one the settled claim of the load that brought it, at the footprint claimed |
| `RuntimeProofs.ClaimsSettleOnce` | crates/mehoy-runtime/src/runtime.rs:241-289 | Over every run a reservation is pending exactly from when it is made until the one move that settles it, into an entry or by removal; no second move ever settles it and it never comes back |
| `RuntimeProofs.SettlingMovesOneClaim` | crates/mehoy-runtime/src/runtime.rs:249-289 | A settling load turns its own claim into one entry and leaves the total as it was; a failing one removes its own claim and nothing else |
| `RuntimeProofs.ReleasedOnlyAfterStop` | crates/mehoy-runtime/src/runtime.rs:593-624 | A resident entry never changes while it stays, and goes only when its instance is unloaded after one successful stop, with the handle holding no process and any it held having exited or taken the kill |
| `RuntimeProofs.FailedTeardownStaysAccounted` | crates/mehoy-runtime/src/runtime.rs:609-621 | An instance whose teardown failed keeps its entry at its footprint for the rest of the run, whatever unloads follow |
| `RuntimeProofs.InstanceAfter` | crates/mehoy-runtime/src/loader.rs:250-255 | Over any stretch of a run an instance's outcomes, final phase and record of stops are never undone |
| `StreamProofs.StepKeeps` | crates/mehoy-core/src/inference.rs:659-881 | Every step of sink, consumer or anyone acting on the request keeps the stream's invariant |
| `StreamProofs.StreamIsTruthful` | crates/mehoy-core/src/inference.rs:659-881 | In every run the buffer stays within 32, what is drawn is a start, then the non-empty texts in order, then one end, the one decided on, that agrees with the request's own state and, for a cancellation, with its first recorded cause; nothing is skipped, and a request whose producer is gone has ended |
| `StreamProofs.NothingFollowsTheEnd` | crates/mehoy-core/src/inference.rs:849-881 | After an end nothing more is drawn or emitted and every further call reports none |
| `StreamProofs.TheEndIsHeard` | crates/mehoy-core/src/inference.rs:659-881 | Once a producer has decided how a stream ends, a consumer that draws to the end has drawn the start, everything emitted and that very end, whatever was interleaved before and after |
| `StreamProofs.DemonstratedMeansCompletedWithText` | crates/mehoy-core/src/inference.rs:900-902 | Generation counts as demonstrated exactly when the consumer drew some text and then a completion |
| `StreamProofs.CancellationIsTruthfulExactlyWhen` | crates/mehoy-core/src/inference.rs:758-773 | The cause a stopped sink reports is the request's own exactly when no other had been recorded |
| `StreamProofs.AbandonedIsTruthfulExactlyWhen` | crates/mehoy-core/src/inference.rs:788-801 | A producer that goes while its end waits for room, however full the buffer, leaves a consumer that draws everything emitted and is then told of an unexpected end, which agrees with the request exactly when the end never sent was a failure |
| `StreamProofs.OthersElapse` | crates/mehoy-core/src/inference.rs:849-881 | Whatever the consumer and those acting on the request do while the producer is at work, in however many steps, is within what it allows for while it waits |
| `StreamHalves.Channel.Offer` | crates/mehoy-core/src/inference.rs:724-736 | Refuses when nobody reads, waits when full, and otherwise appends |
| `StreamHalves.GenerationSink.Delta` | crates/mehoy-core/src/inference.rs:724-736 | One emitting step of the machine; empty text is dropped |
| `StreamHalves.GenerationSink.Complete` | crates/mehoy-core/src/inference.rs:739-750 | The request's outcome is recorded before the end is sent |
| `StreamHalves.GenerationSink.Cancel` | crates/mehoy-core/src/inference.rs:758-773 | The reason is recorded before the outcome, and the outcome before the end is sent |
| `StreamHalves.GenerationSink.Fail` | crates/mehoy-core/src/inference.rs:778-785 | The failure is recorded before it is sent |
| `StreamHalves.GenerationSink.Drop` | crates/mehoy-core/src/inference.rs:788-801 | A producer that vanishes fails its request before its end of the buffer closes; one whose end still waited for room never sends it and leaves its request as it was |
| `StreamHalves.GenerationStream.Next` | crates/mehoy-core/src/inference.rs:849-881 | One drawing step of the machine: an item, none for ever after an end, or an error for a producer that went without a word |
| `StreamHalves.Open` | crates/mehoy-core/src/inference.rs:659-680 | A new stream starts in the machine's initial state, its start already in the buffer |
| `Bodies.DigestMeans` | crates/mehoy-backend-llama/src/generate.rs:608-647 | Taking payloads one by one comes to every text before the first payload that is the marker or unusable, in order, and the last report among those |
| `Bodies.FinishReasonsAreKept` | crates/mehoy-backend-llama/src/generate.rs:169-176 | The two known reasons are named, any other is carried as reported, and no two are confused |
| `Bodies.DeliversTheText` | crates/mehoy-backend-llama/src/generate.rs:608-648 | The pieces delivered are never empty and put together are the text of the first choices, in order |
| `Bodies.SummaryIsTheLast` | crates/mehoy-backend-llama/src/generate.rs:624-639 | The summary is the reason and usage of the last payload that reports one, and there is none exactly when none does |
| `Bodies.ToldOutright` | crates/mehoy-backend-llama/src/generate.rs:552-678 | Payloads and the marker, written among any comments and fields and split at will where there is room, deliver the text of the first choices and end completed with the last reported reason, or unexpectedly when none was reported, whatever follows the marker |
| `Bodies.ReadBodyIsDigest` | crates/mehoy-backend-llama/src/generate.rs:562-648 | Reading frame by frame comes to digesting everything the frames decode to |
| `Bodies.EverySplitReadsAlike` | crates/mehoy-backend-llama/src/generate.rs:552-678 | However a body that decodes is split into frames, the same texts are delivered and the stream ends alike: completed with the last reported reason, else unexpectedly, both as the lines of the body say |
| `Bodies.PastTheMarkerSplitsDiffer` | crates/mehoy-backend-llama/src/generate.rs:608-611 | That both splits decode is needed: bytes past the marker are met only when they share a frame with it |
| `BodySplits.StopsShort` | crates/mehoy-backend-llama/src/sse.rs:56-60 | Bytes that do not decode can be cut so that every event before the bad line is found and nothing fails |
| `BodySplits.SplitsReadAlikeExactlyWhen` | crates/mehoy-backend-llama/src/generate.rs:552-678 | For bodies within the decoder's limit: every two splits deliver the same texts and the same end if and only if the body decodes, or nothing before the line that does not carries text or the marker |
| `BodySplits.AlikeWhenNothingShows` | crates/mehoy-backend-llama/src/generate.rs:552-678 | Of bodies of any length: two splits that find room at every push deliver the same, when the body decodes or nothing before the line that does not carries text or the marker |
| `Generating.Within` | crates/mehoy-backend-llama/src/generate.rs:396-426 | With others acting before every look: a request told to stop comes before the backend, then a consumer that left; silence ends in a recorded reason, and any reason returned is the recorded one or that nobody reads; when others give no reason, what the backend finished is handed over and only its silence stops the wait |
| `Generating.GoSilent` | crates/mehoy-backend-llama/src/generate.rs:416-423 | With others acting before and after the idle budget's own write, the reason given is the recorded one, whoever recorded it |
| `Generating.Deliver` | crates/mehoy-core/src/inference.rs:724-736 | Text is emitted once there is room, unless nobody reads any more |
| `Generating.TakePayloads` | crates/mehoy-backend-llama/src/generate.rs:608-647 | One frame's payloads emit exactly the texts they carry and update the report, or stop part way when the consumer is gone |
| `Generating.ReadFrames` | crates/mehoy-backend-llama/src/generate.rs:562-648 | The loop over frames emits what the body carries up to where it stops, and stops where the body says, unless interrupted; then it emitted the first of those texts, for a recorded reason or because nobody reads; when others give no reason, only silence interrupts it, and after everything that arrived |
| `Generating.Read` | crates/mehoy-backend-llama/src/generate.rs:552-678 | The sink is ended once; unless stopped, what was emitted and how it ended are what the whole body says, and what happened is a path of the stream's machine; when others give no reason, only silence stops it |
| `Generating.Prepare` | crates/mehoy-backend-llama/src/generate.rs:429-519 | Before the backend has answered, an exchange ends only as stopped or as a failed transport; when others give no reason, it is stopped only by silence |
| `Generating.Execute` | crates/mehoy-backend-llama/src/generate.rs:429-545 | Every path ends the sink once with the outcome the exchange calls for, as a path of the stream's machine, and a request already told to stop is stopped before anything is attempted; when others give no reason, it ends as the exchange calls for, having emitted all it carries, or for the idle budget when the backend falls silent |
| `Generating.StartGeneration` | crates/mehoy-backend-llama/src/generate.rs:353-381 | One generation from its start to whatever the consumer does later: a consumer that draws to the end has drawn the start, the texts and the one end decided on, and unless the request was stopped these are what the exchange as a whole carries; when others give no reason to stop it is stopped only by the backend's silence |
| `Generating.ExpectedBeforeTheBody` | crates/mehoy-backend-llama/src/generate.rs:429-519 | A step that fails before the answer is a failed transport, a rejected request is one that was refused, and silence at any step leaves only the silence to report |
| `Generating.ExpectedOfTheBody` | crates/mehoy-backend-llama/src/generate.rs:562-607 | A body that ends, with trailers or without, ends the stream as it says; one cut off by the connection is a failed transport and one that falls silent is stopped, unless it had ended the stream before |
| `Generating.WholeGeneration` | crates/mehoy-backend-llama/src/generate.rs:353-381 | From payloads to what the consumer draws: a backend that accepts and answers with payloads and its marker, written and framed as it likes, whose caller nobody stops, gives a start, the text of the first choices in non-empty pieces and a completion with the last reported reason and its usage, and the request ends completed |
| `Embeddings.Pigeonholes` | crates/mehoy-core/src/inference.rs:238-250 | With as many places as values, every value occurs exactly when none is foreign and none repeated |
| `Embeddings.Validate` | crates/mehoy-core/src/inference.rs:230-269 | Accepts if and only if there is an input and every input has one non-empty vector of usable numbers, all of one length; otherwise reports the first defect met, one the answer shows |
| `Embeddings.FindsTheFirst` | crates/mehoy-core/src/inference.rs:162-166 | The embedding found for an input is the first with its index, and none is found exactly when none has it |
| `Embeddings.FoundForEveryInput` | crates/mehoy-core/src/inference.rs:162-166 | In an accepted answer the embedding found for an input exists and is the only one with its index |
| `Calls.Await` | crates/mehoy-runtime/src/loader.rs:416-436 | A request told to stop before the answer ends cancelled with the recorded cause; a refused one ends failed; only an answer leaves the outcome open, of a request no longer starting; others act on the instance and the request up to each record; left alone, the answer is handed over, or the refusal |
| `Calls.Embed` | crates/mehoy-runtime/src/loader.rs:415-447 | Unless turned away, for the reason it is told, the call leaves its request ended the way the caller is told, whatever others do to the instance meanwhile, and returns only an answer that can be trusted for its inputs, or a defect the answer shows; left alone, it returns every such answer |
| `Calls.GenerateText` | crates/mehoy-runtime/src/loader.rs:483-526 | The same for generated text, which must have content and cannot have come of no token |

## Left out

- Sockets, HTTP and JSON: a response is a script of frames, and how a payload is parsed and which one is the marker are parameters of `Bodies.Backend`.
- Real time: the drain budget is a number of polls, and a deadline or idle budget is a report that it passed.
- Liveness: a call dropped before it records an outcome, or an unload dropped part way, is a step after which nothing more is claimed to happen.
- A producer dropped while its last item waits for room: `StreamHalves.GenerationSink.Drop` does it and `StreamProofs.AbandonedIsTruthfulExactlyWhen` says what it leads to, but no run of the stream's machine contains it.
- A load whose rollback fails, or a rejected model that cannot be stopped: its claim is given back although its worker may survive; what is claimed of stopping is about resident entries.
- Instance identifiers are taken never to repeat, and reservations to be fewer than 2^64, so the wrapping counter never meets a pending claim (`crates/mehoy-runtime/src/runtime.rs:221-224`).
- The kinds of I/O error: a source either ends or breaks, and a broken one gives one error.
- The overflow branch for string lengths (`crates/mehoy-registry/src/gguf.rs:321-323`), which a length within the limit never reaches where pointers have 32 bits or more.
- The text of error messages, so the three descriptions of an unexpected end are one error.
- Capacities reserved for vectors, and when memory is freed.
- LoadedModels.LoadedModel.Admit: whether the instance is usable is fixed when it is built, because its health is recorded elsewhere.
- LoadedModels.LoadedModel.Retain: lets go of ended requests in one step, because what it sees of each is one look under the same lock.
- LoadedModels.LoadedModel.UnloadWithin: the worker's stop protocol is termination, the only one the backend uses; and what it does is stated of the object itself, not as a path of the instance's machine.
- What becomes of a process after its handle lets go of it: an error while waiting for a killed one is discarded (`crates/mehoy-core/src/worker/process.rs:624`).
- Calls.GenerateText: parameters are taken to be valid, because refusing others happens before admission and touches nothing.
- BodySplits.SplitsReadAlikeExactlyWhen: bodies longer than the decoder's limit can also be refused for want of room, which depends on the split; for those only the sufficient half is stated.
- Generating.Execute: the engine's status text is not classified, so every refused response is one error.
- Lookups in a parsed header, collecting a whole stream into one outcome, capability records, launch modes, argument parsing, the registry's store, digests, secrets, log buffers, endpoints, the daemon and the command line: easy members or foreign calls.
- Whether a number is finite, and any floating-point arithmetic: a parameter of `Embeddings.Validate`; GGUF floats are bit patterns.
- What the operating system guarantees of orphaned processes.
