# FuzzyVM: model and proofs

FuzzyVM builds EVM bytecode from a byte stream, minimises it by running prefixes of it
again, and stores it in a content-addressed database that many worker processes share.
This project models these parts in Dafny and proves what they promise.

| files | what they model |
|---|---|
| `Bytes`, `Sums` | bytes, big-endian numbers, options, Go's division; sums over sequences |
| `Evm`, `Assembler`, `Straight` | a small EVM (Ethereum Yellow Paper, sections 9.4.2, 9.4.3, 9.5 and Appendix H.2), emitted instructions and their bytes, straight-line code |
| `Prefix`, `HashTracer`, `Minimizer` | the traces of prefixes, the rolling hash, `MinimizeProgram` |
| `CodeReader` | a program that reads its own code, which minimisation changes |
| `Protocol`, `Client`, `Server`, `Campaign` | the wire format, the client's calls, the server's handling of a frame and a worker's whole run, as procedures |
| `Shutdown` | accept loop, handlers and shutdown, in all interleavings |
| `Service`, `ServiceSafety`, `KeySet`, `Runs` | any number of workers and the server, in all interleavings, with crashes and errors; its invariants; the key set it refines; what a run comes to |
| `Fill`, `Selection`, `Table` | the cyclic byte cursor, the weighted choice, the table of strategies |
| `Emission`, `Draws`, `Strategies`, `BoundedLoop`, `Jumps`, `CreateCall`, `InitCode` | the strategies whose code must behave, what they make of the draws, and that code on the machine |
| `Programs`, `Rounds`, `Cost`, `Generator`, `Deployed` | the recursive generator on one shared budget: what a generated program is turn by turn, and what it deploys |
| `Pairing`, `Kzg` | pairing inputs in exponent form; packing of data into blobs |

The machine interprets the stack, arithmetic on words, jumps and gas itself. All other
instructions are served by two functions, one for those that cannot see the running code
and one for those that can. The theorems hold for every choice of the two, with what each
needs of them as a hypothesis.

Where the code and its comments disagree, the model follows the code, and the exact
condition is proved:

- `fuzzer/fuzzer.go:201-209` takes for granted that longer prefixes keep a trace which a
  shorter one has. They do as long as no instruction of the run can tell the prefix from the
  whole (`Prefix.TraceBetween`), and that is sure if and only if the reference run never looks
  at code (`Prefix.BetweenExactly`, `Minimizer.PaddingIsSafeExactly`); a program that reads
  its own code can come out of minimisation with another trace
  (`CodeReader.MinimizingChangesTrace`).
- `fuzzer/fuzzer.go:201` discards the overflow flag of the reference run. This is harmless,
  as the trace has fitted the 32 MB buffer before (`Minimizer.FillBoundsSteps`).
- `generator/strategy.go:50-54` says that jumps always target a valid JUMPDEST. They do
  if the code before the label ends on an instruction boundary, and only then
  (`Assembler.LabelValidExactly`); a raw PUSH byte breaks it (`Assembler.RawPushSpoilsLabel`).
- `generator/coverage_strategies.go:203-206` says that a jump into push data is always
  rejected. It is unless a raw PUSH swallows the snippet's own PUSH1
  (`Jumps.InvalidTargetExactly`, `Jumps.RawPushMakesItValid`).
- `generator/coverage_strategies.go:258-262` says that the frame has aborted behind the
  duplications of the overflow mode. Whether it has depends on the stack found and on the
  budget (`Jumps.FillOverflowsExactly`, `Jumps.OverflowNeedsBudget`).
- `cmd/fuzzyvm-db/server.go:107-112` acknowledges a PUT even if it failed
  (`Server.AckIsTrueExactly`, `ServiceSafety.AckedCanBeLost`).
- `cmd/fuzzyvm-db/server.go:39-43` counts a connection only after it has been tracked, so
  shutdown can return before a handler is born (`Shutdown.HandlerBornAfterShutdown`);
  it is safe all the same (`Shutdown.ShutdownIsSafe`).
- `fuzzer/hashtracer.go:40` and `:44` name FNV-1a; the offset basis is not the standard one
  and words are folded, not bytes. No conformance is claimed.

## Model

| member | source | states |
|---|---|---|
| `Prefix.TraceBetween` | fuzzer/fuzzer.go:201-205 | For all code and n <= k <= length: if the n-byte prefix has the trace of the whole code, and every instruction of that run that can see code comes to the same with the k-byte prefix, the k-byte prefix has that trace too. What such instructions make of the n-byte prefix does not matter. This is what makes the predicate of the binary search monotone. |
| `Prefix.NothingSeen` | fuzzer/fuzzer.go:201-205 | A run that never looks at code, that is, in which no such instruction finds its operands, meets the condition for every prefix. |
| `Prefix.BetweenExactly` | fuzzer/fuzzer.go:201-209 | The exact condition: a longer prefix is sure to keep the trace which a shorter one has, on every machine that differs in nothing but what it makes of that longer prefix, if and only if the original run never looks at code. |
| `Prefix.LookingIsNoticed` | fuzzer/fuzzer.go:201-205 | On a machine that stops where the prefix is looked at, any run that looks loses its trace. |
| `Prefix.StepBetween` | fuzzer/fuzzer.go:182-200 | One step in three codes at once (short prefix, longer prefix, whole code), the short one in a world of its own: where the traces of the outer two agree, the middle one takes the step of the whole code, a PUSH cut off by the end of a prefix and the jump destinations of a prefix included. |
| `Prefix.DestBetween` | fuzzer/fuzzer.go:184-186 | A jump destination valid in a prefix is valid in every longer prefix and in the whole code. |
| `Prefix.PushedBetween` | fuzzer/fuzzer.go:184-186 | If a cut-off PUSH pushes the same word in the short prefix as in the whole code, it does so in every prefix between. |
| `Minimizer.FaithfulUpwards` | fuzzer/fuzzer.go:182-205 | Monotonicity for the state test with the cut account installed, whichever account is cut: calls and copies can see the codes of all accounts. |
| `Minimizer.SearchIsExact` | fuzzer/fuzzer.go:201-210 | What any binary search answers is here the least length whose prefix has the original trace; and the padded prefix, which is never run, has it too. |
| `Minimizer.UninspectedIsUnread` | fuzzer/fuzzer.go:201-205 | A run that never looks at code meets the condition of both. |
| `Minimizer.FaithfulExactly` | fuzzer/fuzzer.go:182-205 | The exact condition for the state test, whichever account is cut: over all harnesses that differ only in what is seen of the codes with the prefix in place. |
| `Minimizer.PaddingIsSafeExactly` | fuzzer/fuzzer.go:206-211 | The result with its padding, which is never run, is sure to have the original trace if and only if the reference run never looks at code; that run is made in any case. |
| `CodeReader.MinimizingChangesTrace` | fuzzer/fuzzer.go:201-211 | Run on a concrete program that reads its own code, and unless one of the two prefixes the search turns down has the sum of the whole by a collision, the procedure comes to length 20 and returns 120 bytes that have another trace than the original. |
| `CodeReader.PaddingCanFail` | fuzzer/fuzzer.go:206-209 | For that program 20 is the least faithful length, the padded length is not faithful, and the condition of the other results fails. |
| `CodeReader.AcceptedExactly` | fuzzer/fuzzer.go:201-205 | For every prefix of that program that holds the call: the precompile accepts its input if and only if the prefix is at most 111 or more than 143 bytes long, so having the original trace is not monotone. |
| `Minimizer.GstMaker.SearchPrefix` | fuzzer/fuzzer.go:202-205 | The search over the prefix lengths, while each probe leaves its prefix installed: where it ends, that this length is accepted, and that the one below is not. |
| `Minimizer.FillBoundsSteps` | fuzzer/fuzzer.go:201-201 | The discarded overflow flag of the reference run is never set: a trace the 32 MB buffer could take has fewer steps than the cap. |
| `Minimizer.GstMaker.MinimizeProgram` | fuzzer/fuzzer.go:159-212 | The whole procedure: exactly when it fails and with which error, which account it cuts, that a program below 256 bytes is returned as it is, that an error changes nothing, and that otherwise the result is the found length and 100 bytes more if so many and one are left, and else the found length alone; that it still has the original trace, that `found` is the least faithful length, and that a result without padding is itself the least faithful prefix. |
| `Minimizer.LongProbeRejected` | fuzzer/fuzzer.go:202-205 | A probe over the step cap is turned down whatever its sum. |
| `Minimizer.TraceStarts` | fuzzer/fuzzer.go:194-199 | The trace of a test starts with the first byte of the called code, the whole gas and an empty stack. |
| `Minimizer.RenderedJoin` | fuzzer/fuzzer.go:160-166 | Trace lines are written one after the other. |
| `Minimizer.GstMaker.TraceHash` | fuzzer/fuzzer.go:182-200 | One probe: installs the n-byte prefix and returns the sum of its trace and whether it stayed under the step cap; the prefix stays installed. |
| `Minimizer.GstMaker.LongestCode` | fuzzer/fuzzer.go:170-177 | Picks an account with the longest code, whatever the order of the map iteration. |
| `Minimizer.GstMaker.Fill` | fuzzer/fuzzer.go:160-166 | The buffer overflows exactly if the whole trace is within 1024 bytes of the limit or past it, although writing stops at the limit; otherwise it holds the whole trace. |
| `Minimizer.CappedBuffer.Write` | fuzzer/fuzzer.go:151-157 | Whatever the pieces, the flag is set exactly if the pieces together pass the limit, the content stays a prefix of them, and is all of them while the flag is not set. |
| `HashTracer.Tracer.OnOpcode` | fuzzer/hashtracer.go:49-70 | After any trace the tracer holds the fold of all words of all steps and their number, or, past the cap, the flag and the fold of the first 1,500,000 steps. |
| `HashTracer.Tracer.FoldStack` | fuzzer/hashtracer.go:65-70 | Folds the four limbs of every stack item, bottom of the stack first. |
| `HashTracer.FoldBijective` | fuzzer/hashtracer.go:43-45 | Folding a word is a bijection of the 64-bit states; the inverse is given. |
| `HashTracer.FoldAllBijective` | fuzzer/hashtracer.go:43-70 | So is folding any word stream. |
| `HashTracer.OneWordIsNoticed` | fuzzer/hashtracer.go:43-70 | Equally long word streams that differ in exactly one word never get the same sum. |
| `HashTracer.FoldedAsItself` | fuzzer/hashtracer.go:43-45 | A 64-bit number is folded as itself. |
| `HashTracer.LimbsOfItem` | fuzzer/hashtracer.go:65-70 | A stack item made of four 64-bit limbs is folded as those limbs, lowest first. |
| `HashTracer.WordsLayout` | fuzzer/hashtracer.go:57-70 | Which folded word tells what: position, opcode, gas, cost, depth, and then the limbs of the stack from its bottom on. |
| `HashTracer.StepsToldApart` | fuzzer/hashtracer.go:57-70 | Steps that differ in a counter, the opcode, the stack height or any limb of the stack are folded as different words. |
| `Shutdown.ShutdownIsSafe` | cmd/fuzzyvm-db/server.go:73-82 | In every reachable state of all interleavings: once shutdown has returned no handler is in a database operation, none can begin one, and none can read a frame. |
| `Shutdown.NoDbAfterShutdown` | cmd/fuzzyvm-db/server.go:69-82 | No event of any schedule that starts after the return begins or ends a database operation. |
| `Shutdown.HandlerBornAfterShutdown` | cmd/fuzzyvm-db/server.go:39-47 | The gap between tracking and counting is real: a schedule in which shutdown returns first and the handler is born afterwards, on a connection that is already closed. |
| `Shutdown.CounterNeverNegative` | cmd/fuzzyvm-db/server.go:43-47 | In every reachable state and after every step the counter of the wait group is not negative, so Done does not panic. |
| `Shutdown.NeverStuck` | cmd/fuzzyvm-db/server.go:73-118 | While shutdown waits some event is always possible: no deadlock on the mutex, the wait group or a connection. |
| `Shutdown.ShutdownReturns` | cmd/fuzzyvm-db/server.go:73-82 | Once shutdown waits every schedule is bounded in length, and one that cannot be continued has reached its return. |
| `Shutdown.InvStep` | cmd/fuzzyvm-db/server.go:32-118 | The inductive invariant (lock discipline, registration, counting, closing) is kept by each of the 24 events. |
| `Shutdown.EndedIsClosed` | cmd/fuzzyvm-db/server.go:39-41 | In every reachable state a connection whose handler has ended, or that was turned down, is closed and not registered. |
| `Shutdown.AllClosedInTheEnd` | cmd/fuzzyvm-db/server.go:84-86 | Once the accept loop and all handlers have ended, every connection ever accepted is closed and none is registered. |
| `Shutdown.RegisteredExactly` | cmd/fuzzyvm-db/server.go:53-67 | A connection is registered exactly from the time it is tracked until its handler gives it up. |
| `Shutdown.HandlerRound` | cmd/fuzzyvm-db/server.go:87-117 | A handler reads, works, answers and reads again, and leaves this round exactly on a read error, an unknown opcode or a write error. |
| `Shutdown.ServedOnce` | cmd/fuzzyvm-db/server.go:87-117 | An open connection can be served: one round is possible and leaves everything as it was. |
| `Shutdown.AcceptedOnce` | cmd/fuzzyvm-db/server.go:32-49 | While the server is up a new connection can be taken in, and is then registered, counted and read from. |
| `ServiceSafety.NeverFullWithoutMinimal` | cmd/fuzzyvm-db/main.go:326-362 | Over all interleavings of any number of workers, with crashes, dropped connections and failing database accesses: a full code stored by a run that minimised it is never in the database without its minimised code. |
| `ServiceSafety.DepositsAreTakenDown` | cmd/fuzzyvm-db/main.go:349-361 | The record this speaks of is complete: every commit that stores the full code of a run that minimised it enters it. |
| `Runs.RunEndsStored` | cmd/fuzzyvm-db/main.go:326-362 | With an error-free database, in every interleaving: when a run ends its full code is in the database unless it could not be minimised, and its minimised code is unless the full code was known at once. |
| `Runs.RunAlone` | cmd/fuzzyvm-db/main.go:326-362 | A run alone and undisturbed, whatever the schedule of its steps, makes of the database exactly what the procedure makes of it, counts exactly the codes it stores as received and stored, and comes to an end. |
| `Runs.LoneRun` | cmd/fuzzyvm-db/main.go:326-362 | From any point of such a run on, what it comes to is fixed. |
| `ServiceSafety.DatabaseAccounts` | cmd/fuzzyvm-db/server.go:139-164 | In every reachable state each key is the hash of its value, keys are never removed, and new keys <= stored + committed but uncounted <= received. |
| `ServiceSafety.ResponseKind` | cmd/fuzzyvm-db/client.go:49-56 | No worker ever gets a response byte of the wrong kind. |
| `ServiceSafety.AckedStaysStored` | cmd/fuzzyvm-db/server.go:106-112 | With an error-free database every blob of an acknowledged PUT is in the database from then on. |
| `ServiceSafety.AckStep` | cmd/fuzzyvm-db/server.go:106-112 | In every interleaving, the step in which the handler decides to acknowledge either ends a PUT whose blobs are all stored, or is a failed access that changes nothing. |
| `ServiceSafety.AckedCanBeLost` | cmd/fuzzyvm-db/server.go:107-112 | A schedule on a failing database that ends with a worker being told that its code is stored while nothing is. |
| `ServiceSafety.InvStep` | cmd/fuzzyvm-db/server.go:84-164 | Every event keeps the invariant of the service and loses no key. |
| `Service.WriteAllHashed` | cmd/fuzzyvm-db/main.go:292-301 | A batch keyed by content hash keeps the database content-addressed. |
| `Service.HangsUpExactly` | cmd/fuzzyvm-db/server.go:95-116 | The handler gives a connection up exactly on an unknown opcode. |
| `KeySet.ServiceRefinesKeySet` | cmd/fuzzyvm-db/client.go:38-83 | With an error-free database any interleaving of workers and server is a run of a plain key set in which every HAS and PUT takes effect at one moment between its call and its return. |
| `KeySet.AckedIsFound` | cmd/fuzzyvm-db/server.go:121-129 | On that key set, after an acknowledged PUT of anybody, every HAS that takes effect later finds its keys. |
| `KeySet.SpecKeeps` | cmd/fuzzyvm-db/server.go:139-164 | Keys are never lost, and what a completed HAS or PUT said stays true. |
| `KeySet.Simulation` | cmd/fuzzyvm-db/server.go:84-164 | One step of the service is one, two or no steps of the key set. |
| `Server.AckIsTrueExactly` | cmd/fuzzyvm-db/server.go:107-112 | The handler acknowledges a PUT whatever came of it. The acknowledgement is true, all blobs of the PUT are stored, if and only if no access the PUT needed failed (a lookup, or the batch when a blob is missing) or all of them were stored before the PUT. |
| `Server.DbServer.Put` | cmd/fuzzyvm-db/server.go:139-164 | Run alone, a PUT is a path of the interleaved model; it succeeds exactly if the payload decodes and no access it needs fails; then exactly the missing blobs are written and counted, and on an error database and counter stay; every blob looked up is counted as received, in any case. |
| `Server.LookedUpToFailure` | cmd/fuzzyvm-db/server.go:145-152 | The blobs looked up, and counted as received, are all of them, or those up to and with the first one whose lookup fails. |
| `Server.DbServer.Collect` | cmd/fuzzyvm-db/server.go:144-155 | The loop of a PUT: collects exactly the missing blobs, in order and with repetitions, or stops at the first failing lookup. |
| `Server.PutStoresAll` | cmd/fuzzyvm-db/server.go:144-163 | Writing the missing blobs leaves exactly the old keys and the keys of all blobs. |
| `Server.DbServer.HandleFrame` | cmd/fuzzyvm-db/server.go:84-118 | The answer to each opcode and the new database, error paths included: an acknowledged PUT has stored its blobs exactly under the condition above, one that cannot be decoded changes nothing, no key is lost and the database stays content-addressed. |
| `Server.DbServer.Has` | cmd/fuzzyvm-db/server.go:121-129 | Presence, absence and error. |
| `Server.Database.SetBatch` | cmd/fuzzyvm-db/main.go:292-301 | All of the batch or nothing. |
| `Campaign.Run` | cmd/fuzzyvm-db/main.go:326-362 | A whole run: it generates the program that the turns make of the input, looks it up, minimises the state test of it and stores what its verdict asks for. The verdict on a program that is not stored yet is determined in every case, so is its effect, and a run that fails or whose input is short has none; the stored minimised code has the trace of the program under the conditions of the minimiser. |
| `Campaign.Minimise` | cmd/fuzzyvm-db/main.go:339-348 | The verdict on every program: when it cannot be minimised, when its trace is too large, and otherwise which prefix is returned, how long it is, and that it is the least faithful one if nothing is added; and that it has the same trace, under the conditions of the minimiser. |
| `Campaign.Store` | cmd/fuzzyvm-db/main.go:349-361 | What is stored for each verdict, or nothing if an access fails. |
| `Server.RunStoresExactly` | cmd/fuzzyvm-db/main.go:333-361 | Which keys a run adds for each verdict: the full code, both codes, or none. |
| `Server.RunStoresBoth` | cmd/fuzzyvm-db/main.go:355-361 | After a run that newly stored its full code the minimised code is stored as well, both under their own hashes. |
| `Client.SocketDb.Get` | cmd/fuzzyvm-db/client.go:38-57 | One HAS frame out, one byte in, and what each byte means; an oversized key sends nothing, and a write that breaks off leaves a part of the frame and waits for no response. |
| `Client.SocketDb.PutBlobs` | cmd/fuzzyvm-db/client.go:68-83 | One PUT frame with the values out, one byte in; success exactly if the frame was written whole and answered by the acknowledgement byte. |
| `Client.RequestArrives` | cmd/fuzzyvm-db/client.go:59-83 | What a worker sends is parsed and decoded by the server to the same key or the same blobs, whatever follows in the stream. |
| `Client.GetTellsTruth` | cmd/fuzzyvm-db/client.go:49-56 | On the byte the server answers, a key is present if and only if it is stored and the access does not fail, and is not found otherwise. |
| `Client.Ask` | cmd/fuzzyvm-db/client.go:38-57 | From end to end: the frame that is sent is read, handled and answered, and the answer is that truth. |
| `Protocol.EncodeBlobs` | cmd/fuzzyvm-db/protocol.go:77-90 | The loop computes the length-prefixed concatenation. |
| `Protocol.DecodeBlobs` | cmd/fuzzyvm-db/protocol.go:93-108 | The loop computes the recursive decoder, errors included. |
| `Protocol.DecodeAfterEncode` | cmd/fuzzyvm-db/protocol.go:77-108 | Decoding an encoding gives the blobs back. |
| `Protocol.EncodeAfterDecode` | cmd/fuzzyvm-db/protocol.go:77-108 | Whatever is accepted is the encoding of what it is decoded to. |
| `Protocol.AcceptsExactlyEncodings` | cmd/fuzzyvm-db/protocol.go:93-108 | Below 2^32 bytes a payload is accepted if and only if it is an encoding. |
| `Protocol.DecodeFirstExactly` | cmd/fuzzyvm-db/protocol.go:93-108 | Without that limit: only the low 32 bits of what is left are compared with an announced length, so a longer message can be turned down as truncated though all of it is there. |
| `Protocol.EncodedJoin` | cmd/fuzzyvm-db/protocol.go:77-90 | Messages are put together blob by blob. |
| `Protocol.Prefix32Is` | cmd/fuzzyvm-db/protocol.go:41-42 | Which byte of a length is which: the most significant first. |
| `Protocol.WriteFrame` | cmd/fuzzyvm-db/protocol.go:36-48 | Appends exactly one frame, or nothing if the payload is too large, or, if the writer fails in the header or the payload, what there was room for, which the reader does not take for a frame. |
| `Protocol.ReadFrame` | cmd/fuzzyvm-db/protocol.go:60-74 | Takes exactly one frame off the stream, with the error of each way to fail. |
| `Protocol.ParseWritten` | cmd/fuzzyvm-db/protocol.go:36-74 | A written frame followed by anything is read back and the rest left alone. |
| `Protocol.ParseCut` | cmd/fuzzyvm-db/protocol.go:60-74 | Any cut of a frame gives an error, and which. |
| `Protocol.ReadBack` | cmd/fuzzyvm-db/protocol.go:36-74 | Any concatenation of written frames with a cut-off last one is read back as the same frames and then an error. |
| `Protocol.ParseExactly` | cmd/fuzzyvm-db/protocol.go:36-74 | A frame is read off a stream if and only if the stream starts with that frame as it is written, within the size limit. |
| `Fill.Filler.ByteSlice` | filler/fill.go:135-160 | Returns the next bytes of the endless repetition of the data, however often it wraps. |
| `Fill.Filler.CopyAround` | filler/fill.go:144-158 | The wrap-around loop always makes progress: its panic is unreachable. |
| `Fill.Filler.IncPointer` | filler/fill.go:46-51 | Pointer is the total modulo the length and usedUp holds exactly once the total has reached the length (both in Valid). |
| `Fill.Filler.Byte` | filler/fill.go:60-64 | The next byte of the stream. |
| `Fill.Filler.Read` | filler/fill.go:67-74 | Fills the whole buffer with the next bytes of the stream. |
| `Fill.Filler.Number` | filler/fill.go:77-99 | A big-endian number of n bytes of the stream. |
| `Fill.Filler.GasInt` | filler/fill.go:104-115 | How many bytes are drawn and the value, by the first byte. |
| `Fill.Filler.MemInt` | filler/fill.go:122-132 | The same for memory offsets. |
| `Fill.Filler.UsedUp` | filler/fill.go:189-191 | True exactly if at least as many bytes have been drawn as there are. |
| `Fill.CyclicJoin` | filler/fill.go:135-160 | Reading m bytes and then n is reading m + n. |
| `Selection.Selector.constructor` | generator/strategy.go:116-138 | The cumulative table of weights; the total is positive, so the panic is unreachable. |
| `Selection.Selector.Select` | generator/strategy.go:142-147 | Never out of range, and the strategy whose part of the weights the draw falls into. |
| `Selection.HitsOne` | generator/strategy.go:142-147 | Every draw falls on one strategy only. |
| `Selection.ShareExactly` | generator/strategy.go:142-147 | Of the first n draws strategy i gets its weight for every full round and its part of the last one: an exact count. |
| `Selection.SelectIsFair` | generator/strategy.go:142-147 | Of 65536 draws a strategy of weight w gets between w times the rounded-down and w times the rounded-up quotient by the total. |
| `Selection.ReachableExactly` | generator/strategy.go:142-147 | A strategy can be chosen if and only if the weights before it sum to less than 65536; with a total of at most 65536 all can. |
| `Selection.WeightExactly` | generator/strategy.go:123-132 | The importance is the weight, nothing weighs less than one, and the fallback weighs 17. |
| `Table.TableIsExact` | generator/generator.go:47-55 | The table of the repository has total weight 128, so of the 65536 draws each strategy gets exactly 512 for every unit of its weight. |
| `Table.KindIndex` | generator/generator.go:47-55 | Every strategy is chosen by the index of its place in the table and by no other. |
| `Generator.GenerateCode` | generator/generator.go:72-117 | Always returns. The program is what its turns make of the draws: as many as the counter byte says, or until the budget is used up, each by the strategy its two bytes choose, which emits what that strategy does and nothing else, and its sub-programs are made likewise of the seeds that are drawn. The budget falls by exactly the summed code lengths of the program and all its sub-programs; 18 bytes for every sub-program are in that sum; and the budget is overdrawn by at most one strategy of m bytes and 22 bytes for every level below. In every program of the tree labels, jumps and loops are good. |
| `Generator.Execute` | generator/generator.go:101-107 | Every strategy, executed: which instructions it appends, which labels, jumps and loops it notes, how many bytes it draws, and what becomes of the modelled height and the budget. |
| `Rounds.MadeOfChunks` | generator/generator.go:95-112 | The code of a generated program is what its turns have emitted, in order, and there are at most as many of them as the counter says. |
| `Rounds.EmptyExactly` | generator/generator.go:92-100 | A generated program has no turns if and only if its counter is zero or there is no budget. |
| `Rounds.TurnAppends` | generator/generator.go:106-110 | Whatever the strategy, a turn appends its chunk, draws at least two bytes, and is charged for its chunk and for its sub-programs. |
| `Deployed.CreateCallDeploys` | generator/call_strategies.go:74-90 | On the machine, the create instruction of such a turn finds in memory the constructor that the draws make of exactly the code of the sub-program, cut to what is affordable; CREATE2 or CREATE by the drawn byte. |
| `Deployed.StaticContextDeploys` | generator/coverage_strategies.go:54-62 | The same for a child that is called statically, with its first operation in front. |
| `Deployed.CreateRandomDeploys` | generator/call_strategies.go:54-62 | The same for random init code: the drawn bytes as they are. |
| `Rounds.DeploymentExactly` | generator/deploy.go:34-43 | Six drawn bytes of eight deploy exactly the runtime code, one a code with a forbidden first byte, and one makes a constructor that reverts. |
| `Rounds.CallOpExactly` | generator/call_strategies.go:39-50 | Unless the first byte is below 8, each of the four call operations is for a quarter of the second bytes. |
| `Rounds.ReturningCodeIs` | generator/coverage_strategies.go:137-141 | The code of a child that returns 32 bytes, byte by byte. |
| `Generator.OneRound` | generator/generator.go:95-111 | One turn: the two bytes choose the strategy, it is executed as it should be, and what the program has grown by is charged; the account of the whole tree stays exact. |
| `Generator.GenerateProgram` | generator/generator.go:65-69 | The program is what the turns make of the input with a budget of 10000 bytes. For every input the whole tree has at most 9999 + m + 220 bytes, if no plain strategy appends more than m (m at least 363, which covers the modelled ones): only one overdraw can be large, since a create-then-call that finds the budget used up costs at most 22 bytes. This is below 9999 + 11 m. |
| `Generator.FewPrograms` | generator/generator.go:57-61 | Hence the number of sub-programs is bounded, and at most eleven programs nest. |
| `Generator.RecursiveRound` | generator/call_strategies.go:74-90 | A round that generates and deploys a program: what the child left of the budget and what the snippet costs add up to the floor of this level. |
| `Generator.AfterRound` | generator/generator.go:106-110 | Charging the own growth of a program after each round keeps the account of the whole tree exact. |
| `Generator.CreateCallRound` | generator/call_strategies.go:74-90 | The recursive strategy: nothing on the last level, otherwise one child made of the drawn seed on the same budget, and a create-then-call of a deployment of exactly that child's code, cut to what the child left of the budget. |
| `Generator.StaticContextRound` | generator/coverage_strategies.go:54-62 | The same for the child that is called statically, behind a state-changing operation. |
| `Generator.MakeDeployInit` | generator/deploy.go:34-43 | Which constructor code is made of a runtime code, by the drawn byte. |
| `Programs.HeightBound` | generator/generator.go:42-42 | At most eleven programs lie on one path of the tree. |
| `Cost.CreateAndCallCost` | generator/strategy.go:151-192 | A create-then-call takes at least 18 bytes, at most 22 once the budget is used up, and before that never more than 146 past its end. |
| `Cost.MstoreCost` | generator/strategy.go:174-174 | Storing n bytes costs at most 39 bytes a word and 8 a single byte. |
| `Cost.FillCost` | generator/coverage_strategies.go:241-252 | A stack fill never spends more than the budget. |
| `Emission.Clip` | generator/strategy.go:158-167 | The affordable part of the init code: the longest prefix with four bytes of budget for each of its bytes, nothing if there is no budget. |
| `Strategies.Environment.AddLabel` | generator/strategy.go:67-71 | Every cached label stays a JUMPDEST byte of the growing code, and a valid destination while no raw PUSH byte has been emitted (Valid, kept by every strategy). |
| `Strategies.Environment.RandomLabel` | generator/strategy.go:74-79 | A cached label chosen by one drawn byte, or none if there is none. |
| `Strategies.Environment.JumpGenerator` | generator/jump_strategies.go:57-75 | Which label, which kind of jump and which condition follow from the drawn bytes; without a label one is emitted. |
| `Strategies.Environment.LabelJumpGenerator` | generator/jump_strategies.go:92-110 | The same with the coin the other way and a condition of zero or one. |
| `Strategies.Environment.BoundedLoopGenerator` | generator/jump_strategies.go:127-150 | Emits a loop of 1 to 16 iterations whose head is cached; in clean code the loop theorem applies to it. |
| `Strategies.GoodLabelStays` | generator/strategy.go:50-54 | A label stays good whatever is appended. |
| `Assembler.LabelValidExactly` | generator/strategy.go:67-71 | A JUMPDEST is a valid destination if and only if the code before it ends on an instruction boundary; what follows does not matter. |
| `Assembler.CleanIsWhole` | generator/strategy.go:50-54 | Code without raw PUSH bytes ends on an instruction boundary. |
| `Assembler.RawPushSpoilsLabel` | generator/basic_strategies.go:62-66 | A raw PUSH byte before a label makes it invalid: the promise that label jumps always land does not hold for programs with one. |
| `Jumps.LabelJumpLands` | generator/jump_strategies.go:57-110 | On the machine: in a program without raw PUSH bytes every label jump lands on its label, for 11 or 16 gas and with the stack restored. |
| `Jumps.JumpRuns` | generator/jump_strategies.go:64-66 | An emitted jump lands if its destination is valid and is a bad jump otherwise. |
| `Jumps.JumpIfRuns` | generator/jump_strategies.go:67-74 | The conditional jump: taken, not taken, or a bad jump. |
| `Jumps.InvalidTargetExactly` | generator/coverage_strategies.go:209-214 | The target of the invalid jump is a 0x5b byte, and a valid destination if and only if a raw PUSH before the snippet lacks exactly one immediate byte. |
| `Jumps.InvalidJumpFails` | generator/coverage_strategies.go:203-214 | In a program without raw PUSH bytes it always ends the frame as a bad jump. |
| `Jumps.RawPushMakesItValid` | generator/coverage_strategies.go:203-214 | With a raw PUSH1 before it the target is valid: an input for which the intended failure does not happen. |
| `BoundedLoop.LoopTerminates` | generator/jump_strategies.go:127-150 | The loop entered at its first byte with k >= 1, at any aligned position of any code, with at most 1021 items and 30k + 5 gas, takes exactly 9k + 2 instructions and 30k + 5 gas, ends at the byte behind it and restores the stack. |
| `BoundedLoop.Iteration` | generator/jump_strategies.go:136-149 | One iteration: nine instructions, 30 gas, the counter one less, back to the head or on. |
| `BoundedLoop.HeadIsValid` | generator/jump_strategies.go:134-134 | The head of the loop is a valid destination. |
| `BoundedLoop.SiteStays` | generator/jump_strategies.go:127-150 | A loop stays runnable when code is appended. |
| `Programs.GeneratedLoopRuns` | generator/jump_strategies.go:118-150 | In the finished form of every generated program without raw PUSH bytes, every emitted loop terminates as stated when entered at its first byte. |
| `Programs.GeneratedJumpLands` | generator/jump_strategies.go:46-110 | In the finished form of every generated program without raw PUSH bytes, every emitted jump to a label lands: on its label, or behind itself if its condition is zero. |
| `Strategies.Environment.EnsureStack` | generator/stack_strategies.go:71-75 | Pushes exactly what is missing: the operands that are drawn, in order. |
| `Strategies.Environment.InterestingOperand` | generator/stack_strategies.go:55-62 | Which operand comes of which draws, and how many bytes it takes. |
| `Draws.OperandExactly` | generator/stack_strategies.go:39-62 | With a first byte of 64 or more it is one of ten boundary values, by the second byte; else a random word. |
| `Draws.EdgesAre` | generator/stack_strategies.go:150-196 | What each boundary case is about: its operation, its operands and which bytes choose it. |
| `Strategies.Environment.StackAwareGenerator` | generator/stack_strategies.go:119-134 | The operation is preceded by all its operands and never lacks one, whatever ran before; the modelled height stays at or below the real one. |
| `Strategies.Environment.ArithEdgeGenerator` | generator/stack_strategies.go:150-200 | Each of the boundary cases brings its operands and keeps the model below the real height. |
| `Strategies.Environment.StackFillGenerator` | generator/coverage_strategies.go:230-266 | What is emitted for every draw and budget, and that the model stays below the real height. |
| `Emission.TableAgrees` | generator/stack_strategies.go:99-111 | The table of stack effects is that of the machine. |
| `Emission.TracksAll` | generator/stack_strategies.go:65-85 | Any sequence of steps that each keep the modelled height below the real one does so as a whole. |
| `Emission.TrackedRuns` | generator/stack_strategies.go:71-134 | On the machine: no instruction of such code underflows, and while the frame lives the modelled height is at most the real one. |
| `Straight.BlockRuns` | generator/stack_strategies.go:117-134 | A straight line that fits above a height never underflows and leaves everything below untouched, wherever it stands. |
| `Jumps.FillOverflowsExactly` | generator/coverage_strategies.go:253-262 | The overflowing stack fill dies of a stack overflow if and only if items found plus items added exceed 1024; otherwise the frame lives on. |
| `Jumps.FillDrains` | generator/coverage_strategies.go:263-265 | The other mode drains what it has filled: from any stack with room for it exactly the one pushed zero remains. |
| `Jumps.FillFitsStack` | generator/coverage_strategies.go:231-237 | A fill that is not meant to overflow fits, even on top of two items. |
| `Draws.FillDepthExactly` | generator/coverage_strategies.go:235-247 | The depth is 1000 to 1021, or 1024 to 1039 to overflow, by the draws, and the budget cuts it as little as it can. |
| `Jumps.OverflowNeedsBudget` | generator/coverage_strategies.go:236-247 | It overflows an empty stack if and only if the budget was at least 2056 bytes: the comment that the frame has aborted holds under that condition only. |
| `Strategies.Environment.CreateAndCall` | generator/strategy.go:151-192 | Emits the constructor for the affordable part of the init code and the call, as one instruction list. |
| `Strategies.Environment.Mstore` | generator/strategy.go:174-174 | The two loops of the store: words, then bytes. |
| `InitCode.CreateSeesInitCode` | generator/strategy.go:173-180 | The create instruction is reached with value 0, offset 0, the size of the init code and salt 0 if any, and the memory it reads there is the init code. |
| `CreateCall.CreatedIsCalled` | generator/strategy.go:166-191 | For all four call operations: the constructor leaves one item, the call finds it as its address operand, and afterwards exactly two items more are on the stack. |
| `Strategies.Environment.InvalidJumpGenerator` | generator/coverage_strategies.go:209-214 | Emits the jump into its own push data. |
| `Generator.RandomCallOp` | generator/call_strategies.go:45-50 | Two bytes are drawn; the second chooses one of the four call operations, or is the operation itself if the first is below 8. |
| `Pairing.MakePairing` | generator/precompiles/bn256pairing.go:76-103 | For any rounds and input the products of the paired exponents sum to zero, and the drawn scalars alternate between the lists. The BLS builder has the same exponent form. |
| `Pairing.BloatPairing` | generator/precompiles/bn256pairing.go:106-130 | How many pairs are put in, where and with which scalars, all by the draws; equal lengths, the original pairs kept in order, only neutral pairs put in, and an end within 255 rounds although the bound is redrawn. |
| `Pairing.InsertNeutral` | generator/precompiles/bn256pairing.go:110-126 | One pair is put in, with infinity on the side the coin says. |
| `Pairing.BloatedProduct` | generator/precompiles/bn256pairing.go:105-130 | Putting in pairs with a point at infinity keeps the product. |
| `Pairing.BloatedInsert` | generator/precompiles/bn256pairing.go:114-125 | One insertion and overwrite, at any position, is such a step. |
| `Pairing.PairingCall` | generator/precompiles/bn256pairing.go:34-48 | Bloated or not, the product is the identity and the input size covers every pair. |
| `Kzg.EncodeKZGBlob` | generator/precompiles/kzg.go:126-138 | The single-blob packer gives the first blob of the multi-blob form. |
| `Kzg.EncodeBlobs` | cmd/precompileBench/kzg.go:59-77 | Every blob of the multi-blob packer, and that there are just enough of them. |
| `Kzg.HighByteIsZero` | generator/precompiles/kzg.go:124-125 | Every field element starts with a zero byte. |
| `Kzg.UnpackAfterPack` | cmd/precompileBench/kzg.go:59-77 | Unpacking all blobs gives the data followed only by zeros. |
| `Kzg.ExpandSeed` | generator/precompiles/kzg.go:114-122 | The first 32 bytes are the digest of the seed and each further 32 bytes the digest of the 32 before, the last ones cut off; a longer expansion only continues a shorter one. |

## Left out

- Prefix.BetweenExactly: is about what is sure for every answer a machine can give to an instruction that looks at code (CODESIZE, CODECOPY, EXTCODE*, CALL*, CREATE*). For one given machine the trace can be kept although the run looks; then `Prefix.TraceBetween` applies.
- Minimizer.SearchIsExact: assumes that the prefix it ends at has not got the original sum by a collision; for streams that differ in one word this is `HashTracer.OneWordIsNoticed`, in general a 64-bit sum can collide.
- Minimizer.FillBoundsSteps: assumes that a line of the trace has at least 23 bytes; the writer of the trace is not part of the repository.
- Minimizer.GstMaker.MinimizeProgram: the machine runs one frame, so the folded depth is always 1; a frame run by a call instruction is hidden in the host.
- Shutdown.CounterNeverNegative: does not model the panic of a WaitGroup on which Add runs while Wait returns; Go documents it as misuse, and the model lets both happen.
- Shutdown.ShutdownReturns: assumes that a read or write on a closed connection ends with an error and that a database operation ends.
- Service: a handler and a client exchange whole frames and single bytes; a frame that breaks off is a request that is never received. The framing itself is in `Protocol`.
- Runs.RunAlone: is about runs whose requests fit a frame; a request that does not is refused before a byte is sent, and ends the run.
- Service: the mutex of the client is implied by the worker making one call at a time.
- Server.DbServer.Put: the other connections are absent in this form; they are in `Service`, of which it is one path.
- Generator.GenerateCode: the strategies that neither recurse nor touch labels, modelled stack or budget are functions of the filler's data and position, with a bound on what they append; the constructor wrapper `deployInitCode` is a function of the runtime code. The assembler of go-ethereum is modelled from its use: appended bytes, pushes of minimal length, stores of words and then bytes.
- Generator.RandomCallOp: a raw byte in place of the call operation is emitted by the model, but `CreateCall.CreatedIsCalled` is about the four call operations.
- CodeReader.MinimizingChangesTrace: assumes that the sums of the prefixes of 18 and 19 bytes are not that of the whole, and gives the copy and the call round gas prices; the program does not run out of gas.
- Campaign.Run: what else of the input goes into the transaction of the state test (gas limit, data, value) is part of the harness it is given.
- Instructions that forks later than Osaka add halt as undefined in the machine.
- Straight.BlockRuns: an instruction served by the host may end the frame or yield any word; its own errors are not distinguished.
- BoundedLoop.LoopTerminates: is for entry at the first byte of the snippet. A later jump to the head enters the loop with whatever counter the stack holds.
- InitCode.CreateSeesInitCode: assumes that MSTORE and MSTORE8 of the host write what they are given, and init code of at most 2^32 bytes, as the memory index is a 32-bit number.
- Pairing.MakePairing: `blsPairing` (generator/precompiles/bls.go:243-264) draws the same scalars in the same order and has the same exponent form, so it is not modelled a second time. Curve arithmetic and encodings are left out.
- Kzg.ExpandSeed: SHA-256 is an arbitrary function to 32 bytes; commitments and proofs are left out.
- Pebble is a map with atomic batches; what a machine crash does to unsynced writes is left out.
- Signing, state-test JSON, files, sockets, CLI commands, coverage summary, replay, timing and the other precompile input builders would add only easy members or calls into code that is not here.
- `minimizeCorpus` (cmd/fuzzyvm/main.go:185-198), whose comment and code disagree on which file is redundant, and `createTest` (fuzzer/corpus.go:42-64), a bisection whose result is never run.
