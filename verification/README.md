# pluster, verified

pluster is a proxy in front of a Redis Cluster. Clients speak RESP to it as if to one
server; the proxy routes each command to the node that owns its slot, splits
multi-key commands by slot, follows MOVED and ASK, and writes the replies back in
command order. This project models that machinery in Dafny and proves what it
promises, for all inputs, all interleavings and all reachable states.

`dafny verify dfyconfig.toml` checks everything. The files, bottom up:

| files | what they hold |
|---|---|
| `Prelude`, `Resp`, `RespLaws`, `RespCode` | RESP values, parser, scanner and printer; round trip, prefix and agreement laws; the loops |
| `Request`, `RequestCopy` | the request parser and its private, upper-cased copy, on values and on arrays |
| `Framing` | the peek/scan/discard loops: how a stream is cut into reads does not matter |
| `Slots` | hash tags and slots |
| `Grouping`, `Routing`, `Split`, `Merging`, `SplitLaws` | splitting a multi-key command, running the parts on a slot-partitioned store, merging the replies |
| `ReplyQueue`, `ClientCtx` | the ordered reply queue of a client: a state machine with its run theorem, and the class |
| `Mux`, `MuxLaws`, `MuxEffects`, `MuxCode` | the backend multiplexer: state machine, invariant, effect on requests, and the class |
| `Redirection`, `MuxTargets` | what MOVED and ASK say, and which node a request goes to |
| `System`, `SystemLaws`, `SystemSteps`, `SystemReplies`, `SystemRuns` | one event loop: queues and multiplexer together, driven by any events |
| `SystemBatch`, `SystemHistory`, `SystemHomes`, `SystemOnce`, `SystemMerges`, `SystemCrossing`, `EndToEnd` | its runs against the class's batch step, the commands sent, the nodes they go to, what happens once, the merges, the wire-order failure, and a split command from end to end |
| `Pool`, `Pipeline` | the connection pool and the pipelined connection |
| `ScanCursor`, `Fingerprint`, `Topology`, `PubSub` | SCAN across masters, topology refreshes, the pub/sub index |

How the parts fit. Each stateful part is a datatype with step functions, an invariant
kept by every step, and theorems over runs; the classes in the `...Code` modules and
in `ClientCtx` are the source's loops and in-place updates, and every method is proved
to have exactly the effect of its step function. `System` then composes client queues
and multiplexer into one transition system whose events are what the network, the
goroutine pool and the clients may do. `EventLoop.Execute` is "post now, run at some
later event". Two history flags say when the multiplexer's FIFO assumption broke from
outside or inside: `unsolicited`, a server replied with nothing outstanding, and
`reordered`, an ASK was written past a non-empty write buffer. The main theorems are
`SystemHistory.EveryCommandAnsweredInOrder`, `SystemRuns.NothingLost`,
`SystemHomes.EveryRequestWithItsNode`, `SplitLaws.SplitPreservesMeaning` and
`EndToEnd.SplitCommandEndToEnd`.

Properties that do not hold of the code, each with an input or a run that shows it and
the condition under which it does hold: wire order after MOVED and ASK to one address in
one batch (`PrintedRedirectsCross`, `AskAlignedIffBufferEmpty`,
`TameRunsKeepOrder`); the shrink of the reply queue (`DoublingPanics`,
`ShrinkSafeIffSmall`); replies written past the queue (`BypassCrosses`,
`BypassOrderedIffIdle`); a split MSET with an odd argument count (`OddMsetPanics`,
`PlanMultiKey`); pool accounting across Close (`CloseAccountsIffNoneOut`); requests left
unanswered at shutdown (`AnsweredIff`); SCAN cursors beyond 48 bits (`PackRoundTrip`);
node addresses that spell an entry (`EveryPrefixedAddressCollides`,
`FingerprintInjective`); an empty snapshot (`NoEntryPointIff`, `EmptySnapshotIsFinal`);
a bare UNSUBSCRIBE or SUBSCRIBE (`BareUnsubscribeInversesIffNone`, `StepExact`,
`ExactFromStart`); RESET of a subscriber (`ResetLeavesTraceIffSubscribed`); one name in
both kinds (`SubscribeKindIff`); one client's UNSUBSCRIBE on the shared backend
connection (`UnsubscribeSilencesOthers`, `PublishReachesIff`); pattern messages more
than once (`PatternTwice`, `OneFrameIff`). The hash tag rule is the code's and its
tests': the first non-empty brace-free group, not the group of the first brace as in
section "Hash tags" of the Redis Cluster specification.

Environment as parameters: clocks, dial results, bytes that arrive, which clients are
still connected, the order in which maps are walked and posted closures run, and what
servers reply are all arguments or events, unconstrained unless a lemma says so.

## Model

| member | source | states |
|---|---|---|
| `Resp.ParseIntBytes` | pkg/proto/resp.go:797-819 | the accumulator loop, wrapping in 64 bits, computes the signed value; anything but an optional minus and digits is refused |
| `Resp.IntRoundTrip` | pkg/proto/resp.go:797-819 | every int64, the minimum included, is read back from its printed form |
| `Resp.ParseIntIff` | pkg/proto/resp.go:797-819 | a line is a number if and only if it is digits, or a minus sign and digits, even none; its value is what they spell, wrapped to 64 bits |
| `Resp.ReadLineAt` | pkg/proto/resp.go:784-795 | a line without newline followed by CRLF is read back whole, at any offset, with its exact end |
| `Resp.ReadBareLine` | pkg/proto/resp.go:784-795 | the same for a line that ends in a bare line feed |
| `Resp.ReadLineLocal` | pkg/proto/resp.go:784-795 | a line that was read depends on nothing after its end |
| `RespCode.ParseValueAt` | pkg/proto/resp.go:704-782 | the recursive parser with its cursor loop computes the grammar function about which the laws below are proved |
| `RespCode.ScanValueAt` | pkg/proto/resp.go:631-702 | the same for the scanner, which builds no value |
| `RespCode.AppendValue` | pkg/proto/resp.go:852-897 | the printer appends exactly the encoding, after whatever the buffer holds |
| `RespLaws.RoundTrip` | pkg/proto/resp.go:704-782 | for every nested value without newlines in simple strings and errors, at any offset and before any bytes, parsing its encoding gives the value back (a nil pointer as a nil bulk) and the exact end |
| `RespLaws.RoundTripAll` | pkg/proto/resp.go:861-897 | the same for a list of values printed one after the other |
| `RespLaws.EncodeInjective` | pkg/proto/resp.go:861-897 | two values with one encoding are the same value |
| `RespLaws.WireForms` | pkg/proto/resp.go:861-897 | the marker, length and line-end bytes of every kind of value, as numbers |
| `RespLaws.WireExamples` | pkg/proto/resp.go:861-897 | +OK, :1, :-12, a bulk, the nil bulk and the nil array, byte for byte |
| `RespLaws.AnyNegativeIsNil` | pkg/proto/resp.go:631-782 | any negative bulk length or array count is nil, to parser and scanner |
| `RespLaws.ParseExtends` | pkg/proto/resp.go:704-782 | bytes that arrive later never change a verdict other than incomplete |
| `RespLaws.StrictPrefixIncomplete` | pkg/proto/resp.go:593-624 | every strict prefix of an encoding is reported incomplete, by parser and scanner |
| `RespLaws.ScanLocal` | pkg/proto/resp.go:631-702 | a scanned frame depends only on the bytes inside it |
| `RespLaws.ScanAgrees` | pkg/proto/resp.go:626-702 | whenever the parser accepts, the scanner reports the same end, the same MOVED/ASK kind and the same message; it is incomplete when the parser is |
| `RespLaws.ScannedFrameParses` | pkg/engine/backend_mux.go:204-258 | parsing a scanned frame never says incomplete and ends with the frame; both routes agree on MOVED, on ASK and on the message the target is read from |
| `RespLaws.MovedIsNotAsk` | pkg/proto/resp.go:74-82 | no error is both a MOVED and an ASK |
| `Resp.WordsOfLine` | pkg/proto/resp.go:563-586 | words separated by any blanks, with any before and after, are read as exactly those words |
| `RespLaws.InlineIsWords` | pkg/proto/resp.go:821-850 | a line that starts with none of the five markers is an array of its words |
| `Request.EncodeCommandBytes` | pkg/proto/resp.go:942-955 | the loop prints the array of bulks |
| `Request.CommandRoundTrip` | pkg/proto/resp.go:476-561 | every non-empty command, printed and followed by anything, is parsed back to its exact end, the name in capitals and every other argument byte for byte |
| `Request.ArgumentsAsReceived` | pkg/proto/resp.go:476-512 | of any accepted request, multibulk or inline: in the name the bytes 97 to 122 and no others are lowered by 32, none of them is left, and all other arguments are the received bytes |
| `Request.BadCountRefused` | pkg/proto/resp.go:525-528 | a count that is no positive number is refused |
| `Request.WrongMarkerWaits` | pkg/proto/resp.go:532-534 | another byte where an argument should start is not refused: the parser waits, whatever follows |
| `Request.NegativeLengthRefused` | pkg/proto/resp.go:539-542 | a negative argument length is refused |
| `Request.BlankLineRefused` | pkg/proto/resp.go:573-576 | an inline line of blanks is refused |
| `Request.SpansOrdered` | pkg/proto/resp.go:514-561 | the arguments of an accepted request are disjoint, in order and inside the request |
| `Request.MultibulkIgnoresPayload` | pkg/proto/resp.go:514-561 | rewriting argument bytes in place changes no boundary |
| `Request.RequestExtends` | pkg/proto/resp.go:476-504 | bytes that arrive later never change an accepted or refused request, inline or multibulk |
| `Request.RawReparses` | pkg/proto/resp.go:476-512 | the private copy, after upper-casing in place, parses to the same request |
| `Request.RawArguments` | pkg/proto/resp.go:540-561 | the arguments are what stands in the private copy at their spans |
| `Request.BothSpellingsAgree` | pkg/engine/backend_mux.go:86-91 | the two branches of rawBytes send the same command: the copy and the re-encoded arguments parse to the same arguments |
| `RequestCopy.UpperAsciiInPlace` | pkg/proto/resp.go:506-512 | in the range the bytes 97 to 122 are lowered by 32 and nothing else changes; outside nothing does |
| `RequestCopy.ParseRequestDirect` | pkg/proto/resp.go:514-561 | a fresh array receives a copy of the request, and every non-empty argument slice is moved onto it |
| `RequestCopy.ParseMultibulkRequest` | pkg/proto/resp.go:476-504 | on arrays: non-empty arguments are disjoint slices of the fresh copy and not of the network buffer, which is unmodified; their contents are the parsed arguments |
| `Framing.ResumeExtracts` | pkg/engine/backend_mux.go:196-213 | extracting from a buffer, keeping the rest and extracting again after more bytes equals one extraction from everything |
| `Framing.RepliesChunkingIrrelevant` | pkg/engine/backend_mux.go:191-276 | however a backend stream is cut into reads, the peek/scan/discard loop extracts the same frames and keeps the same rest |
| `Framing.PrintedRepliesSurviveChunking` | pkg/engine/backend_mux.go:196-213 | a stream of printed replies, cut anywhere, gives back exactly those replies in order and nothing more |
| `Framing.HugeLengthHalts` | pkg/proto/resp.go:631-702 | a bulk reply stops the loop if and only if its end does not fit an int64; otherwise it is cut off if and only if it is all there |
| `Framing.RequestsChunkingIrrelevant` | pkg/engine/handler.go:480-503 | the same for the request loop, inline and multibulk, errors included |
| `Framing.PipelineSurvivesChunking` | pkg/engine/handler.go:480-503 | a pipeline of encoded commands, cut anywhere, gives back exactly those commands in order |
| `Framing.RefusedHalts` | pkg/engine/handler.go:480-503 | after any commands, a refused request stops the loop, and exactly those commands have been handed on |
| `Framing.DrainRequests` | pkg/engine/handler.go:480-503 | the parse loop returns the extracted requests and consumes exactly up to the unfinished one |
| `Slots.ComputeCrc16` | pkg/proto/crc16.go:40-46 | the table loop computes the fold of the given table |
| `Slots.KnownChecksums` | pkg/proto/resp_test.go:9-25 | foo, bar, hello and the empty key have the checksums the tests fix |
| `Slots.HashTag` | pkg/proto/crc16.go:55-68 | the one-pass loop returns the content of the first non-empty brace-free group, and nothing exactly when there is no such group |
| `Slots.ComputeHashSlot` | pkg/proto/crc16.go:48-53 | the slot of a key, below 16384, is that of its tag if it has one |
| `Slots.SameTagSameSlot` | pkg/proto/crc16.go:48-68 | keys with the same first group share a slot |
| `Slots.TagPinsSlot` | pkg/proto/crc16.go:48-68 | wrapping a brace-free key in braces, with any suffix and any prefix without an opening brace, keeps its slot |
| `Slots.KnownSlots` | pkg/proto/resp_test.go:27-47 | foo and {foo}.bar are in slot 14042, and every slot is below 16384 |
| `Grouping.CollectKeys` | pkg/engine/handler_routing.go:566-574 | the keys are all arguments, or every second one for MSET, the last one even without a value |
| `Grouping.GroupBySlot` | pkg/engine/handler_routing.go:580-597 | one group per slot in order of first mention, holding exactly the keys of that slot, duplicates kept, with their original positions; the first key without a node is reported instead |
| `Grouping.IndicesCover` | pkg/engine/handler_routing.go:583-597 | every key position is in the group of its slot |
| `Grouping.OrderOfFirstMention` | pkg/engine/handler_routing.go:583-597 | every group's slot is mentioned, and the groups stand in the order in which their slots are first mentioned |
| `Grouping.SubArgs` | pkg/engine/handler_routing.go:692-704 | a sub-command carries the group's keys, each with the value that followed it; it fails exactly when some value is missing |
| `Grouping.SubArgsOfSlot` | pkg/engine/handler_routing.go:692-704 | with complete pairs a sub-command is the original restricted to its slot |
| `Grouping.MissingValueIffOdd` | pkg/engine/handler_routing.go:570-573 | some key of an MSET has no value after it if and only if the argument count is odd |
| `Routing.PlanMultiKey` | pkg/engine/handler_routing.go:553-715 | which of the five outcomes a multi-key command has, each if and only if: no key, an uncovered slot, one slot, one restricted sub-command per slot with the merge function over their positions, or the panic of a split odd MSET |
| `Routing.OddMsetPanics` | pkg/engine/handler_routing.go:697-700 | two concrete keys in different slots and one value: whenever both slots have a node, the panic condition of the plan is met |
| `Routing.OneSlotIsWhole` | pkg/engine/handler_routing.go:599-608 | for a command over one slot, the only part of a split would be the command itself, so sending it as is agrees |
| `Split.StoreMeans` | pkg/engine/handler_routing.go:553-564 | what the six commands do to a key: MSET leaves the last value given, DEL and UNLINK nothing, the others and unnamed keys are unchanged |
| `Split.CountMeans` | pkg/engine/handler_routing.go:663-679 | EXISTS and TOUCH count every mention of a key that is there, DEL and UNLINK every key that is there once |
| `Split.SubMatchesWhole` | pkg/engine/handler_routing.go:692-713 | on its own keys a sub-command has the effect of the undivided command |
| `Split.SubLeavesOthers` | pkg/engine/handler_routing.go:692-713 | a sub-command touches no key of another slot |
| `Split.CountSums` | pkg/engine/handler_routing.go:663-679 | counts over the slots add up to the undivided count, duplicates and repeated deletes included |
| `Split.SplitStore` | pkg/engine/handler_routing.go:692-713 | the sub-commands in any order leave the store as the undivided command would |
| `Split.RunReplies` | pkg/engine/handler_routing.go:692-713 | the reply of a sub-command does not depend on when it ran |
| `SplitLaws.SplitPreservesMeaning` | pkg/engine/handler_routing.go:553-715 | for all six commands, every store and every order of the sub-commands: same final store, and the merged bytes are the undivided command's reply (MGET positions kept, EXISTS counting twice, last MSET value winning) |
| `Merging.MergeCounts` | pkg/engine/handler_routing.go:663-679 | the summing loop, wrapping in 64 bits |
| `Merging.MergeStatus` | pkg/engine/handler_routing.go:650-662 | the first failure in group order, or OK |
| `Merging.MergeArrays` | pkg/engine/handler_routing.go:616-649 | sub-replies scattered to the original positions, nil where nothing came |
| `Merging.FirstErrorWins` | pkg/engine/handler_routing.go:620-679 | if the first g sub-replies are fine and the next is an error, that error is returned verbatim |
| `Merging.OtherFailures` | pkg/engine/handler_routing.go:616-679 | if the first g are fine: bytes that are no RESP make an error of the proxy's own; a missing value panics for MGET and is passed over by the others |
| `Merging.ScannedNeverPanics` | pkg/engine/handler_routing.go:620-632 | on frames off the wire no merge dereferences a missing value |
| `ReplyQueue.RepliesInCommandOrder` | pkg/engine/handler.go:564-725 | in every interleaving of allocations, immediate replies, fills in any order and mux batches: what was sent is the replies to the first commands in command order, one each; the queue is empty or its head is not ready; base plus queue length is the number of slots ever allocated |
| `ReplyQueue.AllocInv` | pkg/engine/handler.go:573-577 | allocation keeps that invariant |
| `ReplyQueue.ImmediateInv` | pkg/engine/handler.go:564-571 | so does an immediate reply, written through or queued |
| `ReplyQueue.FillInv` | pkg/engine/handler.go:586-621 | so does a posted fill of any slot, present or gone |
| `ReplyQueue.AccumulateInv` | pkg/engine/handler.go:677-725 | so does a whole reply from the mux |
| `ReplyQueue.AccumulateSubInv` | pkg/engine/handler.go:623-675 | so does a part of a fan-in, whether or not it completes the slot |
| `ReplyQueue.FlushInv` | pkg/engine/backend_mux.go:288-299 | flushing moves the accumulated replies to the socket in order |
| `ReplyQueue.BypassOrderedIffIdle` | pkg/engine/handler_tx.go:163 | a write past the queue keeps command order if and only if nothing is outstanding |
| `ReplyQueue.BypassCrosses` | pkg/engine/handler_tx.go:163 | one command waiting and the next answered past the queue: the first reply on the socket is the second command's |
| `ReplyQueue.ShrinkSafeIffSmall` | pkg/engine/handler.go:616-620 | the shrink step is safe for every queue length if and only if the capacity is at most 263 |
| `ClientCtxCode.ClientCtx.AllocResponseSlot` | pkg/engine/handler.go:573-577 | the method has the effect of allocation on the abstract queue and returns the absolute index |
| `ClientCtxCode.ClientCtx.WriteImmediate` | pkg/engine/handler.go:564-571 | written through when the queue is empty, otherwise a slot whose fill is posted; states the capacity left |
| `ClientCtxCode.ClientCtx.FillResponseSlotInLoop` | pkg/engine/handler.go:586-621 | marks the slot and sends exactly the ready prefix; panics exactly when something was sent and the shrink of what is left does; states the capacity left |
| `ClientCtxCode.ClientCtx.AccumulateResponseSlot` | pkg/engine/handler.go:677-725 | marks the slot and moves the ready prefix to the accumulator when the slot was the first one not ready; panics exactly when the shrink of what is left does; states the capacity left |
| `ClientCtxCode.ClientCtx.AccumulateFanInSubResponse` | pkg/engine/handler.go:623-675 | stores the part, and settles the slot with the merged reply when it is the last; panics exactly on a part number out of range or when the shrink after the last part does; states the capacity left |
| `ClientCtxCode.ClientCtx.ShrinkIfSparse` | pkg/engine/handler.go:670-674 | panics exactly when the sparse queue is longer than 64 |
| `ClientCtxCode.ShrinkPanics` | pkg/engine/handler.go:573-621 | from a fresh connection: more than 65 commands outstanding in an array with 199 slots to spare, all but the last 65 answered and the first one last, and the fill panics, however append grows arrays |
| `ClientCtxCode.DoublingPanics` | pkg/engine/handler.go:281-621 | with doubling arrays 257 outstanding commands get there from the initial capacity of 16 |
| `ClientCtxCode.ClientCtx.FlushWriteAccum` | pkg/engine/backend_mux.go:288-299 | everything accumulated reaches the socket |
| `MuxCode.BackendMux.SendTo` | pkg/engine/backend_mux.go:64-75 | on an open connection the request joins pending and the buffer, otherwise the dial queue, and the first one dials |
| `MuxCode.BackendMux.SendAskTo` | pkg/engine/backend_mux.go:303-324 | the same with its ASKING sentinel, written past the buffer |
| `MuxCode.BackendMux.OnOpen` | pkg/engine/backend_mux.go:133-163 | the dial queue becomes pending and is written at once, READONLY first on a replica |
| `MuxCode.BackendMux.OnClose` | pkg/engine/backend_mux.go:165-181 | the connection goes and every live request of a connected client gets one posted error |
| `MuxCode.BackendMux.FailDialing` | pkg/engine/backend_mux.go:334-346 | the same for a dial queue |
| `MuxCode.BackendMux.FlushBackendWrites` | pkg/engine/backend_mux.go:77-84 | every write buffer reaches its socket, in whatever order the map is walked |
| `MuxCode.BackendMux.DispatchRequest` | pkg/engine/backend_mux.go:229-268 | MOVED and ASK with a readable target and fewer than 16 redirects are sent on; everything else goes to the client |
| `MuxCode.BackendMux.OnTraffic` | pkg/engine/backend_mux.go:185-286 | the whole loop equals folding one reply step over the frames of the buffer, then flushing; it consumes exactly the complete frames |
| `Redirection.PrintedRedirection` | pkg/engine/backend_mux.go:348-358 | for every int64 slot and every address, the address is read back from MOVED and from ASK |
| `Redirection.RedirectionIff` | pkg/engine/backend_mux.go:348-358 | a message names an address if and only if its first two spaces cut it into a word, an int64 in decimal and that address |
| `Redirection.NoRedirectionIff` | pkg/engine/backend_mux.go:348-358 | it names none if and only if it has fewer than two spaces or no int64 stands between the first two |
| `Redirection.AtoiIff` | pkg/engine/backend_mux.go:353-356 | the integers accepted are an optional sign, zeros and the digits of an int64 |
| `Redirection.ScannedRedirection` | pkg/proto/resp.go:631-702 | as printed on the wire, before any further bytes, they are scanned as MOVED and ASK with that text |
| `MuxTargets.SentExactly` | pkg/engine/backend_mux.go:64-120 | a request is pending on the open connection, or waits in the dial queue, which only its first request dials; or fails with the refusal of that dial |
| `MuxTargets.OpenWrites` | pkg/engine/backend_mux.go:133-163 | an opened connection is written READONLY if it is a replica's and something waits, then exactly what waited, in order |
| `MuxTargets.RedirectGoesThere` | pkg/engine/backend_mux.go:229-258 | a request redirected fewer than 16 times, whose reply is MOVED or ASK to an address, is afterwards queued at that address or failed with its refusal |
| `MuxLaws.SendInv` | pkg/engine/backend_mux.go:64-75 | sending keeps conservation, bounds and alignment |
| `MuxLaws.SendAskInv` | pkg/engine/backend_mux.go:303-324 | so does an ASK re-send, unless it overtakes buffered commands |
| `MuxLaws.OpenInv` | pkg/engine/backend_mux.go:133-163 | so does a connection that opens |
| `MuxLaws.CloseInv` | pkg/engine/backend_mux.go:165-181 | so does one that closes |
| `MuxLaws.DialFailedInv` | pkg/engine/backend_mux.go:334-346 | so does a dial that fails |
| `MuxLaws.OnReplyInv` | pkg/engine/backend_mux.go:198-268 | so does any reply, whatever it says and whether or not one was due |
| `MuxLaws.FlushAllInv` | pkg/engine/backend_mux.go:77-84 | so does a flush, after which every buffer is empty |
| `MuxLaws.AskAlignedIffBufferEmpty` | pkg/engine/backend_mux.go:303-317 | an ASK keeps wire order and pending order in step if and only if the write buffer is empty |
| `MuxLaws.BatchKeepsOrder` | pkg/engine/backend_mux.go:198-276 | a batch in which no ASK names an address an earlier readable MOVED named never lets an ASK overtake |
| `MuxLaws.MovedThenAskCrosses` | pkg/engine/backend_mux.go:229-258 | two requests outstanding on A, B connected and idle, and MOVED to B then ASK to B in one batch: the requests are on B's socket in one order and pending in the other |
| `MuxLaws.CrossedReplies` | pkg/engine/backend_mux.go:215-268 | on that connection the first request is answered with the reply to ASKING and the second with the reply to the first, and the reply to the second is thrown away |
| `SystemCrossing.ClientReadsCrossedReplies` | pkg/engine/backend_mux.go:185-324 | a run from the start that reaches it, for all addresses and replies: the client reads the server's reply to ASKING for its second command and the reply to the second for its third |
| `SystemCrossing.PrintedRedirectsCross` | pkg/engine/backend_mux.go:185-324 | the same for all addresses and slots with the errors as a server prints them |
| `MuxEffects.OnReplyOutcome` | pkg/engine/backend_mux.go:198-268 | one reply answers exactly one request of a connected client, or answers none and changes no finished one |
| `MuxEffects.CloseQuiet` | pkg/engine/backend_mux.go:165-181 | a close answers nothing; a failed request has exactly its error posted, unless its client is gone |
| `MuxEffects.DialFailedQuiet` | pkg/engine/backend_mux.go:334-346 | the same for a failed dial |
| `MuxEffects.SendQuiet` | pkg/engine/backend_mux.go:64-75 | sending answers nothing and makes exactly the one request known |
| `MuxEffects.PostsExactly` | pkg/engine/backend_mux.go:334-346 | an error is posted for the real requests of connected clients and for nothing else |
| `SystemRuns.StepInv` | pkg/engine/handler.go:242-560 | every event of the loop - connect, disconnect, client traffic, router results, posted fills, backend open, close, dial error, traffic - keeps the joint invariant |
| `SystemRuns.ReachableInv` | pkg/engine/handler.go:242-560 | so every reachable state satisfies it |
| `SystemBatch.HearingIsOneBatch` | pkg/engine/backend_mux.go:185-286 | a batch of replies in the transition system is the fold that BackendMux.OnTraffic computes, with its outputs delivered and posted |
| `SystemBatch.TameRunsKeepOrder` | pkg/engine/backend_mux.go:198-324 | a run none of whose batches asks for an address moved to earlier in the batch never sets the overtaking flag, so the theorems below hold of it unconditionally but for unasked server replies |
| `SystemRuns.EveryReplyIsRight` | pkg/engine/backend_mux.go:185-301 | in every run, on every client connection: one reply per recorded command, in order, each the reply to that very command, the merge of the replies to its parts, or the error that ended it; with no overtaking ASK and no unasked server reply it is what the server said to that very request |
| `SystemHistory.EveryCommandAnsweredInOrder` | pkg/engine/handler.go:474-577 | the same against the commands the run's client traffic carries, in number, order and kind: the i-th reply read is the proxy's own reply to the i-th command sent, what the router returned for it, or the answer to the request with its arguments or to the parts with theirs |
| `SystemHistory.EveryCommandAnswered` | pkg/engine/handler.go:474-725 | at rest a connected client has read exactly as many replies as it sent commands |
| `SystemRuns.NothingLost` | pkg/engine/backend_mux.go:165-346 | in every run, when nothing is dialling, pending, posted or with the router, every command of every connected client has been answered |
| `SystemRuns.EveryRequestInOnePlace` | pkg/engine/backend_mux.go:64-346 | in every run a request is in exactly the queue its location names, once; it is sent at most 17 times; no address is both connected and dialled |
| `SystemRuns.WireMatchesPending` | pkg/engine/backend_mux.go:64-324 | in every run, between events, all write buffers are empty and, absent overtaking and unasked replies, the unanswered commands on a socket match pending entry by entry, sentinels included |
| `SystemRuns.AskingPrecedesItsRequest` | pkg/engine/backend_mux.go:303-324 | in every such run an ASKING on a socket is directly followed by the request it is for |
| `SystemRuns.FailedPartMeansNoMerge` | pkg/engine/handler.go:623-646 | if a part of a fanned-out command failed, the merge never ran and the one reply written is the error of a failed part |
| `SystemRuns.PartsInRange` | pkg/engine/handler.go:634-636 | in every run a part that may still be answered has a place in its fan-in, so storing it never indexes out of range |
| `SystemOnce.RouterReturnsOnce` | pkg/engine/handler_routing.go:553-715 | in every run a router call fills its slot at most once |
| `SystemOnce.GoneForGood` | pkg/engine/handler.go:296-315 | in every run nothing is read from a client after it disconnected |
| `SystemMerges.NoMergePanics` | pkg/engine/handler_routing.go:616-679 | in every run that hears only scanned frames, a merge that runs yields a reply and never dereferences a missing value |
| `SystemMerges.PlansSuit` | pkg/engine/handler_routing.go:616-649 | the merge function of a plan knows exactly as many parts as the plan has |
| `SystemReplies.MergedJustified` | pkg/engine/handler.go:634-646 | the merge runs when the last part arrives and sees part i at index i |
| `SystemReplies.StoredOk` | pkg/engine/handler.go:634-643 | before that, the parts stored are exactly the answers so far |
| `SystemSteps.FanOutOk` | pkg/engine/handler_routing.go:682-713 | fanning out opens one slot and leaves each part in flight or its failure posted |
| `SystemHomes.PartsGoToTheirNodes` | pkg/engine/handler_routing.go:691-713 | accepting a split command queues each part at its own node, or fails it with that node's refusal |
| `SystemHomes.CommandGoesToItsNode` | pkg/engine/handler_routing.go:599-608 | accepting an undivided one does so at its node |
| `SystemHomes.EveryRequestWithItsNode` | pkg/engine/backend_mux.go:64-346 | in every run each request of each command has been sent, and one never redirected is at the node it was planned for, or was answered or failed by an event of the run at that node |
| `SystemHomes.PartsWithTheirNodes` | pkg/engine/handler_routing.go:553-715 | so part g of a planned command is with the node of the g-th slot |
| `SystemHomes.CommandWithItsNode` | pkg/engine/handler_routing.go:599-608 | and an undivided command with the node it was routed to |
| `EndToEnd.SplitCommandEndToEnd` | pkg/engine/handler_routing.go:553-715 | in every run with no overtaking ASK and no unasked server reply: if the i-th command a client sent is the plan of a multi-key command with given arguments, no part failed, and the servers answered each part by running the arguments sent to them, in any order, then the client's i-th reply is that of running the whole arguments, and so is the store; and each part not redirected went to the node of its slot |
| `EndToEnd.PartsRunAsSubs` | pkg/engine/handler_routing.go:691-713 | servers that run the argument lists of a plan run exactly the sub-commands of its slots |
| `Pool.EveryInterleaving` | pkg/pool/pool.go:96-246 | in every interleaving before Close: numConns is idle plus held plus being dialled and at most maxSize; a connection is idle once or held once; tokens, running getters and pending notifies cover the lesser of those wanting and what is available |
| `Pool.BlockedMeansExhausted` | pkg/pool/pool.go:101-126 | a pool at rest with a blocked getter and no token has no idle connection and no free capacity: every connection is with a caller |
| `Pool.OverflowUnreachable` | pkg/pool/pool.go:227-238 | put always finds room, so its last branch is never reached |
| `Pool.HandedOutOnce` | pkg/pool/pool.go:101-106 | a connection that Get hands out is in nobody's hands and no longer idle |
| `Pool.GetByAge` | pkg/pool/pool.go:130-142 | after any run, told from the events: the connection handed out was last put back no longer than the timeout ago, and after every one left idle; those closed were put back longer ago; if none is handed out none is left idle; without a timeout none is closed |
| `Pool.CloseAccountsIffNoneOut` | pkg/pool/pool.go:248-257 | accounting survives Close if and only if no connection is held or being dialled; otherwise a later put counts below zero |
| `PoolCode.ConnPool.PopIdle` | pkg/pool/pool.go:130-142 | newest first; those idle for more than the timeout are closed and uncounted until one is not, which is returned |
| `PoolCode.ConnPool.LockedGet` | pkg/pool/pool.go:101-120 | the locked section of Get: a connection, leave to dial, or wait |
| `PoolCode.ConnPool.LockedPut` | pkg/pool/pool.go:219-239 | the locked section of put |
| `PoolCode.ConnPool.NotifyOne` | pkg/pool/pool.go:241-246 | one token more, unless the channel is full |
| `Pipeline.OneResponseEach` | pkg/pool/pipeline.go:178-256 | over any run of batches, whatever the clock and the network do: exactly one response per request in order, every value the server's reply to that very request, nothing owed on the connection between batches, backoff 0 or within 100ms to 4s |
| `Pipeline.OneResponseEachFromStart` | pkg/pool/pipeline.go:113-256 | the same from a connection never used, spelled out |
| `Pipeline.AnsweredByTheLedger` | pkg/pool/pipeline.go:198-255 | over any run from a connection never used, every response is the one prescribed by how many failures in a row there were and when the last one was: refused if and only if it comes before that moment plus min(100ms * 2^(k-1), 4s) after k failures, and otherwise dialled, written and read |
| `Pipeline.HealthyBatchAnswered` | pkg/pool/pipeline.go:198-255 | on a connection that is up, or whose backoff has passed and that can be dialled, a batch the network carries is answered with its own values in order, and the connection is up without backoff |
| `Pipeline.AlwaysRecovers` | pkg/pool/pipeline.go:198-255 | however a run went, a batch the network carries is answered in full once 4s have passed since the last failure |
| `Pipeline.BatchMatched` | pkg/pool/pipeline.go:198-255 | the same for every path through one batch |
| `Pipeline.Drain` | pkg/pool/pipeline.go:178-196 | a batch is the next 1 to 64 requests in order; it is abandoned if and only if the channel is closed and fewer than 64 are left |
| `Pipeline.AnsweredIff` | pkg/pool/pipeline.go:178-261 | of the n requests waiting in the channel, the k-th is answered, once and by its own reply, if and only if the channel is open or k < n - n % 64: closing leaves exactly the last n % 64 callers without a response, whatever the network does |
| `PipelineCode.PipeConn.WriteRequests` | pkg/pool/pipeline.go:223-232 | requests are written in order until one fails |
| `PipelineCode.PipeConn.ReadReplies` | pkg/pool/pipeline.go:241-255 | the j-th value goes to the j-th request; a read error goes to its request and resets the rest |
| `PipelineCode.PipeConn.ServeBatch` | pkg/pool/pipeline.go:198-255 | one turn of the loop has the effect of the batch step |
| `PipelineCode.PipeConn.Loop` | pkg/pool/pipeline.go:178-261 | the loop over the channel's contents has the effect of those turns and loses exactly the last n % 64 requests of a closed channel |
| `ScanCursor.PackIsShiftOr` | pkg/router/router.go:369-409 | in 64-bit words, shift and or are multiplication and addition, and mask and shift undo them up to 48 bits |
| `ScanCursor.PackRoundTrip` | pkg/router/router.go:369-409 | a position survives packing if and only if the master's cursor is below 2^48; a non-zero one never packs to 0 |
| `ScanCursor.PackLimits` | pkg/router/router.go:348-351 | a 2^48 cursor of master 0 reads as the end, and master 65536 as cursor 1 of master 0 |
| `ScanCursor.PastTheEndStartsOver` | pkg/router/router.go:369-409 | a cursor of a master that is not there starts the scan over |
| `ScanCursor.ScanIsComplete` | pkg/router/router.go:353-420 | with at most 65536 fixed masters and 48-bit cursors, a client starting at 0 gets every master's full scan in master order and nothing else, and cursor 0 exactly after the last call |
| `Fingerprint.Compute` | pkg/cluster/topology.go:157-172 | whatever order the map is walked in, the result is the one fingerprint of the topology |
| `Fingerprint.EntryInjective` | pkg/cluster/topology.go:159-169 | an entry determines the address, the role and the slots, even with colons in the address |
| `Fingerprint.FingerprintInjective` | pkg/cluster/topology.go:157-172 | equal fingerprints mean equal topologies when no address starts with the text of a whole entry and a bar |
| `Fingerprint.BarConfuses` | pkg/cluster/topology.go:157-172 | any two nodes whose entries stand in order share their fingerprint with one node whose address spells the first entry, a bar and the second address |
| `Fingerprint.EveryPrefixedAddressCollides` | pkg/cluster/topology.go:157-172 | the condition is exact: every address that starts with a whole entry and a bar occurs in a topology that shares its fingerprint with a different one |
| `Topology.EveryDepartureReportedOnce` | pkg/cluster/topology.go:296-334 | over any run of snapshots, exactly the addresses that leave at a refresh are passed to the hook, in one call at that refresh; after the first non-empty snapshot the entry points are the sorted current addresses |
| `Topology.DeparturesFromStart` | pkg/cluster/topology.go:188-334 | the same from NewManager: the hook's whole history is the departures of the run |
| `Topology.RefreshesApplyFetched` | pkg/cluster/topology.go:266-307 | a run of refreshes is the run over exactly the snapshots fetched, at each refresh the first answer among the entry points of that moment; no answer changes nothing |
| `Topology.RefreshesReportDepartures` | pkg/cluster/topology.go:188-334 | so the hook's whole history over a run of refreshes from NewManager is the departures between the snapshots fetched |
| `Topology.EmptyPrintIff` | pkg/cluster/topology.go:157-172 | only the empty topology has the empty fingerprint a new manager starts with |
| `Topology.NoEntryPointIff` | pkg/cluster/topology.go:296-334 | after any run of snapshots the manager has no entry point if and only if the last one is empty and some earlier one was not |
| `Topology.EmptySnapshotIsFinal` | pkg/cluster/topology.go:266-334 | the same over any run of refreshes, of the snapshots fetched; and once it is so, no later refresh changes anything |
| `Topology.MastersAreListed` | pkg/cluster/topology.go:136-155 | after any run the masters are exactly the last snapshot's nodes with that role, ascending by bytes, the version counts the snapshots, and the entry points are the last snapshot's addresses in that order |
| `TopologyCode.TopoManager.Update` | pkg/cluster/topology.go:136-155 | the new snapshot with its masters sorted by address and the next version |
| `TopologyCode.TopoManager.OnTopologyChanged` | pkg/cluster/topology.go:309-334 | the hook gets exactly the departed addresses if there are any; entry points become the sorted addresses |
| `TopologyCode.TopoManager.RefreshFrom` | pkg/cluster/topology.go:296-307 | one refresh has the effect of applying the snapshot |
| `PubSub.IndexIsFaithful` | pkg/engine/pubsub_hub.go:46-157 | over every run of subscribing, unsubscribing, closing and losing the backend, bare UNSUBSCRIBE included, the index holds exactly the subscriptions asked for, one entry per client and pattern, of the first kind asked for; and a client with an index is in subscribe state, so that its close is noticed |
| `PubSub.RemoveClientLeavesNoTrace` | pkg/engine/pubsub_hub.go:106-109 | a closed client has no entry and no index left, and nobody else changes |
| `PubSub.StepInverses` | pkg/engine/pubsub_hub.go:46-157 | a step keeps the two maps exact inverses if and only if it is not a bare UNSUBSCRIBE of a client with a subscription |
| `PubSub.StepExact` | pkg/engine/pubsub_hub.go:46-157 | and subscribe state in step with them, if and only if moreover it is not a bare SUBSCRIBE of a client that is not in it |
| `PubSub.RunInverses` | pkg/engine/pubsub_hub.go:46-157 | the two maps are exact inverses at every point of a run if and only if no client unsubscribes from everything at once while it holds something it asked for |
| `PubSub.RunExact` | pkg/engine/pubsub_hub.go:46-157 | and the clients in subscribe state are those with a subscription at every point, if and only if moreover no client that holds nothing subscribes to nothing |
| `PubSub.ExactFromStart` | pkg/engine/pubsub_hub.go:37-157 | both from an empty hub, where the conditions are on the events alone; on runs without bare commands they hold |
| `PubSub.ResetLeavesTraceIffSubscribed` | pkg/engine/handler_pubsub.go:18-21 | after RESET a close leaves entries of the client behind if and only if it had a subscription |
| `PubSub.SubscribeKindIff` | pkg/engine/pubsub_hub.go:253-269 | a subscription takes effect in the kind asked for if and only if the client does not hold the name in the other kind |
| `PubSub.UnsubscribeTakesEitherKind` | pkg/engine/pubsub_hub.go:271-285 | giving up a name gives it up in whichever kind it is held |
| `PubSub.BareUnsubscribeInversesIffNone` | pkg/engine/pubsub_hub.go:69-81 | a bare UNSUBSCRIBE keeps the maps exact inverses if and only if the client had no subscription; otherwise it stays in subscribe state with none left |
| `PubSub.LostExact` | pkg/engine/pubsub_hub.go:137-157 | losing the backend resets exactly the clients that were subscribed |
| `PubSub.MessageOnceToEachSubscriber` | pkg/engine/pubsub_hub.go:200-208 | after any run one message frame is written once to each client that asked for the channel by name, and by name to nobody else |
| `PubSub.PublishReachesIff` | pkg/engine/pubsub_hub.go:46-104 | over any run on one backend connection, a publish reaches a client by name exactly once if it asked for the channel and nobody gave the channel up since it was last taken up, and otherwise not at all |
| `PubSub.PatternCopies` | pkg/engine/pubsub_hub.go:46-249 | over any run on one backend connection, a publish reaches a client through a pattern it asked for once per frame the backend sends: one if the channel is taken up, and one for each pattern in force there that the server matches, the proxy's own included |
| `PubSub.OneFrameIff` | pkg/engine/pubsub_hub.go:129 | that is once if and only if just one of the backend's names covers the channel |
| `PubSub.PatternTwice` | pkg/engine/pubsub_hub.go:46-129 | one client with one pattern other than the proxy's own gets every publish twice |
| `PubSub.UnsubscribeSilencesOthers` | pkg/engine/pubsub_hub.go:69-87 | two clients subscribe and one unsubscribes: the other has asked and gets nothing |
| `PubSubCode.PubsubHub.DispatchPatterns` | pkg/engine/pubsub_hub.go:228-249 | a pattern message goes once to each glob subscription whose pattern matches and to nothing else, in whatever order the map is walked |
| `PubSubCode.PubsubHub.AddOne` | pkg/engine/pubsub_hub.go:253-269 | the entry is added once, with the client's index |
| `PubSubCode.PubsubHub.RemoveOne` | pkg/engine/pubsub_hub.go:271-285 | the entry goes, the list too if empty, and the index entry |
| `PubSubCode.PubsubHub.RemoveAll` | pkg/engine/pubsub_hub.go:287-300 | every entry of the client's index goes, in whatever order, and the index stays |
| `PubSubCode.PubsubHub.SubscribeTo` | pkg/engine/pubsub_hub.go:46-57 | the patterns are added in turn |
| `PubSubCode.PubsubHub.UnsubscribeFrom` | pkg/engine/pubsub_hub.go:69-81 | all or the named ones go; a client left without index leaves subscribe state |
| `PubSubCode.PubsubHub.CloseClient` | pkg/engine/pubsub_hub.go:106-109 | the client's entries go, and then its index |
| `PubSubCode.PubsubHub.OnClientClose` | pkg/engine/handler.go:310-313 | a close cleans the index for a client in subscribe state, and for no other |
| `PubSubCode.PubsubHub.OnSharedBackendClose` | pkg/engine/pubsub_hub.go:137-157 | every client with an entry is told exactly once, and both maps start over |

## Left out

- gnet, sockets, goroutine scheduling, AUTH and TLS: they appear only as events and parameters.
- MULTI/EXEC/WATCH, blocking commands, RESET (but for its effect on subscriptions), HELLO, CLIENT, CLUSTER and PROXY commands: not modelled; of the writes they make past the reply queue, only the condition for keeping order is stated.
- The command table and routeToBackend's choice of master or replica: a routed command is given with its address.
- The router's own fan-out and retries: a router call is an event that returns some value once.
- Requests on the wire are identified by the request they belong to, whose arguments `System.Work` records once and for all; that the bytes sent spell those arguments is `Request.BothSpellingsAgree`.
- Aliasing of the mux's reusable read buffer and of queue slices: replies and queues are values; the request copy is modelled on arrays.
- Other clients' commands between the parts of a split command: the store theorem runs the parts of one command on a store nobody else writes.
- A request line of Unicode white space in inline commands: fields are split at the ASCII blanks.
- Allocation failure for huge declared array counts; a declared length whose end overflows 64 bits is an explicit outcome.
- RespLaws.RoundTrip: requires a buffer of at most 2^63-1 bytes, which a Go slice always has.
- SplitLaws.SplitPreservesMeaning: assumes that no sub-command errors; what an error does is `Merging.FirstErrorWins`.
- ReplyQueue.AccumulateSubInv: a part number beyond the fan-in leaves the queue unchanged here; that Go panics there is in `AccumulateFanInSubResponse`, and that it never happens in a run is `SystemRuns.PartsInRange`.
- Pool.EveryInterleaving: getters are counted by where they stand, not named, and Close ends the run.
- ScanCursor.ScanIsComplete: the list of masters does not change during the scan and every master answers with a page; other answers are passed on by `Execute` unchanged.
- PubSub.MessageOnceToEachSubscriber: one frame, by name; frames per publish are `PublishReachesIff`, and deliveries through patterns `DispatchPatterns`, with glob matching, a library call, as a parameter. Both count in `PatternCopies`.
- PubSub.PublishReachesIff: runs on one open backend connection; commands that wait while it is dialled are passed on when it opens, which is not modelled.
- PubSub.PatternCopies: likewise runs on one open backend connection.
- Equality of CRC16 with the polynomial of the Redis Cluster specification: the table in the source differs from it, so only the fold over that table is stated.
- Parsing of CLUSTER NODES, replica round-robin, statistics, configuration, start-up, the streaming Reader and Writer: easy members or plumbing.
