# A model of a CosmWasm fork simulator

This project models the parts of the simulator that carry its logic and proves what they promise. It has
four components that do not depend on each other.

**The transaction engine** (`Machine`, `Engine` and the modules around them). A `Model` replays contract
transactions on a copy of a remote chain that is fetched on demand. Contracts answer with submessages, which
run with their whole subtree before a reply goes back to their origin; a transaction that ends in a contract
error is undone by putting a deep copy in place. A contract is represented by what it does when it is called:
a tree of entry-point calls with their effects, verdicts, submessages and replies. The remote chain, and which
code the virtual machine can load, are fixed functions. `Machine` is the interpreter on values, `Engine` and
`States` the objects that are updated in place, proved against it. `DepthFirst` gives an independent account of
which calls are made in which order and proves that it determines them. `Runs` reduces every run to primitive
steps, `Invariants` proves what all runs keep and `Histories` what all histories of transactions keep.
`Atomicity` says what is undone and what is not, `Contexts` when the call context is restored. `Ledgers` relates
the balances fetched on demand to a ledger that was complete from the start, `CallTraces` is the recorded call
graph, `Storage` the contract storage with its iterators.

**The protobuf codec** of the Tendermint messages (`Varints`, `Wire`, `Messages`, `Reader`, `Writer`,
`ProofCodec`, `StateSyncCodec`, `ConnCodec`), after the sections "Base 128 Varints" and "Message Structure" of
the Protocol Buffers encoding specification. The generated code repeats one reading loop for every message
type; it is modelled once, with a schema that says which fields a type knows and what they do to a message.
Writing goes through a buffer from back to front, per message type.

**The LLVM profile runtime** (`ProfileFormat`, `ProfileWriter`, `ProfileMerge`, `ProfileRuns`,
`ProfileBuffer`), for the raw profile format version 8: capturing, resetting and merging counters, and the
buffered writer.

**The riffle shuffle** (`Riffle`) and the mock address format built on it.

Where the code and its comments disagree the model follows the code. `update_block` is documented to advance
the timestamp but drops the result (core/src/fork/states.rs:103-109). A comment on bank submessages says that
their failure reverts the whole transaction, while the error is returned like any other and only ends the
dispatch it occurs in (core/src/fork/model.rs:389-395). The comment on `addr_humanize` speaks of 24 elements,
the canonical length is 54 (cosmwasm/packages/std/src/testing/mock.rs:155); twenty shuffles restore both.

Promises that the code does not keep on all inputs are stated as exact conditions, with an example where the
failing case is not obvious: transfers to oneself (`SendConservesIff`, `SelfSendExample`), host failures
(`HostFailureIsAtomicIff`, `HostFailureExample`), rejected calls that are not rolled back
(`RejectedCallLeavesNothingIff`, `RejectedInstantiationLeavesNothingIff`, `CaughtFailureKeepsWrites`), call
contexts left open (the four theorems of `Contexts`), balances set before they were fetched
(`UnfetchedWithBalanceView`), odd shuffles (`OddShuffleDropsLast`), profiles whose merge is not the sum
(`MergeIsSumIff`, with `UncountedBreaksMerge`, `EmptyRecordRefuses` and `PaddingBreaksMerge` as its steps), and
32-bit wrap-around in the buffered writer (`WriteAppendsIff`, `OutOfOrderExample`). For calls that are
accepted and fail further down, `QuietExecute` gives a sufficient condition only.

## Model

| member | source | states |
|---|---|---|
| `DepthFirst.EngineIsDepthFirst` | core/src/fork/model.rs:193-405 | For every transaction and every behaviour of the contracts, the calls the engine makes are the preorder of a visit tree that follows the behaviour: each submessage runs with its whole subtree, then exactly one reply to its origin if and only if `reply_on` matches the outcome (bank messages get none), and the first uncaught error or host failure cuts off all later siblings; whether a payment goes through and a contract can be called is decided on a ledger complete from the start, the instance counters and the code of the contracts |
| `DepthFirst.TheVisitIsDetermined` | core/src/fork/model.rs:193-405 | There is only one such visit: every call, the outcome and the ledger, counters and codes at the end are determined by it, and are those of the engine |
| `Machine.HandleResponse` | core/src/fork/model.rs:344-405 | An answer of the dispatcher never carries submessages, so none is dispatched a second time |
| `Machine.Resume` | core/src/fork/model.rs:220-278 | Without a reply an answer is passed on unchanged: the second dispatch makes no call and changes nothing; what comes back after a reply or an error carries no submessages either |
| `Runs.RunIsSteps` | core/src/fork/model.rs:193-645 | Every run, with all its nesting and error exits, is a sequence of enabled primitive steps that makes exactly the calls of the run, in order |
| `Invariants.RunKeepsTree` | core/src/fork/debug_log.rs:15-64 | After every run, including error paths that never close their call context, labels exist exactly for ids 0 to the counter, each other id has one parent with a smaller id, child lists increase strictly, and the current id is a node |
| `CallTraces.OnePathFromRoot` | core/src/fork/debug_log.rs:15-64 | In such a graph every node is reached from the root by exactly one path |
| `CallTraces.BeginKeepsTree` | core/src/fork/debug_log.rs:27-44 | Opening a call keeps the tree |
| `CallTraces.EndKeepsTree` | core/src/fork/debug_log.rs:47-49 | Returning to any existing id keeps the tree |
| `CallTraces.FailKeepsTreeIf` | core/src/fork/debug_log.rs:52-64 | Recording an error adds a leaf and keeps the tree |
| `CallTraces.CallTrace.constructor` | core/src/fork/debug_log.rs:15-24 | A new trace is the root alone |
| `CallTraces.CallTrace.BeginCall` | core/src/fork/debug_log.rs:27-44 | Adds a child below the current node, moves to it, returns the old one |
| `CallTraces.CallTrace.EndCall` | core/src/fork/debug_log.rs:47-49 | Moves back to the given node and changes nothing else |
| `CallTraces.CallTrace.Error` | core/src/fork/debug_log.rs:52-64 | Adds a labelled child and stays where it is |
| `CallTraces.CallTrace.Clone` | core/src/fork/debug_log.rs:6-12 | A new object with the same graph |
| `Contexts.ExecuteRestoresContextIff` | core/src/fork/model.rs:583-643 | An execution that comes to an answer restores the call context it started from if and only if it was not rejected after its funds were paid; then the context of the rejected call stays current |
| `Contexts.InstantiateRestoresContextIff` | core/src/fork/model.rs:522-557 | Likewise for an instantiation that is rejected after its contract was created |
| `Contexts.ReplyRestoresContextIff` | core/src/fork/model.rs:247-267 | Likewise for a reply that is rejected |
| `Contexts.SubmessageRestoresContextIff` | core/src/fork/model.rs:193-342 | A submessage with its reply restores the context if and only if neither the contract it calls nor the reply rejects; after a rejection caught by a reply, what follows hangs below the call that failed |
| `Ledgers.BankRefines` | core/src/fork/states.rs:123-237 | Every bank message does to the balances fetched on demand what it does to a ledger loaded completely at the start: same balances for every address and denomination, same error |
| `Ledgers.UnfetchedWithBalanceView` | core/src/fork/states.rs:164-174 | Setting a balance of an account that was never fetched agrees with the eager ledger if and only if the chain holds nothing else for it |
| `Invariants.RunLedger` | core/src/fork/states.rs:123-222 | Over a whole run the balances fetched on demand stand for the eager ledger after the payments of the run, whatever was queried in between |
| `Ledgers.BankAccounts` | core/src/fork/states.rs:176-222 | Every bank message, also one that stops halfway, changes the total of a denomination exactly by what transfers to oneself create and what is burned |
| `Ledgers.BankLeaves` | core/src/fork/states.rs:176-222 | Accounts a bank message does not name keep every balance |
| `Ledgers.SendConservesIff` | core/src/fork/states.rs:176-201 | A transfer conserves all totals if and only if it is not a transfer to oneself whose first positive coin is affordable |
| `Ledgers.TransferChangesIff` | core/src/fork/states.rs:176-201 | A transfer leaves all balances as they were if and only if its first positive coin is not affordable |
| `Ledgers.SelfSendExample` | core/src/fork/states.rs:176-201 | Sending oneself five coins out of five leaves ten |
| `Ledgers.SendFits` | core/src/fork/states.rs:176-201 | If the totals fit in 128 bits, no addition of a transfer between two accounts overflows, at any coin |
| `Invariants.RunAccounts` | core/src/fork/model.rs:469-488 | Over any transaction tree each total changes by what self-transfers create and what is burned; without self-transfers only by what is burned |
| `Invariants.RunFits` | core/src/fork/states.rs:176-222 | If the totals fit in 128 bits when a run without self-transfers starts, no balance overflows in it |
| `States.AllStates.GetBalance` | core/src/fork/states.rs:123-140 | Fetches an account once and answers from the copy |
| `States.AllStates.SetBalance` | core/src/fork/states.rs:164-174 | Overwrites one balance of one account |
| `States.AllStates.BankSend` | core/src/fork/states.rs:176-201 | The transfer loop: balances, error and events are those of the coins carried out one by one up to the first that is not covered |
| `States.AllStates.BankBurn` | core/src/fork/states.rs:203-222 | The burning loop, likewise |
| `States.AllStates.BankExecute` | core/src/fork/states.rs:224-237 | Dispatches a bank message |
| `States.AllStates.Clone` | core/src/fork/states.rs:21-41 | A copy whose storage objects are all new and hold the same entries |
| `States.AllStates.ContractStateInsert` | core/src/fork/states.rs:65-67 | Adds or replaces one contract |
| `States.AllStates.ContractStateRemove` | core/src/fork/states.rs:69-71 | Removes one contract |
| `States.AllStates.UpdateBlock` | core/src/fork/states.rs:103-109 | Increases the block number; the timestamp does not change |
| `Engine.Model.constructor` | core/src/fork/model.rs:86-98 | A model with no contracts and no balances of its own |
| `Engine.Model.Clone` | core/src/fork/model.rs:58-70 | A deep copy that shares no object with the original |
| `Engine.Model.Revert` | core/src/fork/model.rs:162-167 | Takes the place of an earlier copy in every component except the coverage |
| `Engine.Model.FetchContractState` | core/src/fork/model.rs:105-143 | Copies a contract from the chain the first time it is used, fails if there is none |
| `Engine.Model.CreateInstance` | core/src/fork/model.rs:169-190 | An instance is ready only if the contract exists and its code can be loaded; what was fetched for it stays |
| `Engine.Model.GenerateAddress` | core/src/fork/model.rs:145-160 | The address of the next counter value, which is used up |
| `Engine.Model.RunContract` | core/src/fork/model.rs:617-625 | The effects of an entry point happen in place, in the storage object of the contract it runs for |
| `Engine.Model.TransferFunds` | core/src/fork/model.rs:469-488 | Moves the attached funds and logs the events or the error |
| `Engine.Model.ExecuteInner` | core/src/fork/model.rs:583-643 | The in-place execution ends in the state, outcome and calls of the interpreter on values |
| `Engine.Model.InstantiateInner` | core/src/fork/model.rs:457-558 | Likewise for instantiation; the contract created for a rejected call is removed again |
| `Engine.Model.HandleResponse` | core/src/fork/model.rs:344-405 | The dispatch loop, likewise |
| `Engine.Model.HandleSubmessage` | core/src/fork/model.rs:193-342 | One submessage with its reply, likewise |
| `Engine.Model.Reply` | core/src/fork/model.rs:242-267 | The reply entry point, likewise; its error is noted but not made the message of the log |
| `Engine.Model.Execute` | core/src/fork/model.rs:560-581 | A whole transaction on the object graph, against the transaction on values; the state comes back although contracts wrote into shared objects |
| `Engine.Model.Instantiate` | core/src/fork/model.rs:435-455 | Likewise for instantiation |
| `Atomicity.TransactionIsAtomic` | core/src/fork/model.rs:560-581 | A transaction that ends in a contract error leaves everything as it was except the coverage; one that succeeds has a block number exactly one larger and an empty log; the timestamp never changes |
| `Atomicity.HostFailureIsAtomicIff` | core/src/fork/model.rs:560-591 | After a host failure the state is as before if and only if the executed contract does not exist, or had been fetched before and its code cannot be loaded; in all other cases traces remain |
| `Atomicity.HostFailureExample` | core/src/fork/model.rs:560-581 | A contract that writes and then traps: the transaction is aborted and the write stays |
| `Atomicity.RejectedCallLeavesNothingIff` | core/src/fork/model.rs:583-637 | For every call that its contract rejects: contracts and balances are as before if and only if the contract does not exist, or it had been fetched before and its code cannot be loaded, or its first positive coin is not affordable, or it has no positive coin and the last write at each key puts there what was there |
| `Atomicity.RejectedInstantiationLeavesNothingIff` | core/src/fork/model.rs:457-551 | For every rejected instantiation: contracts and balances are as before if and only if the first positive coin is not affordable and no contract was created at an address in use; at an unused address no contract is left |
| `Atomicity.ReplyStartsFromWhatWasLeft` | core/src/fork/model.rs:193-326 | The reply that handles a failed execution or instantiation starts from exactly the state the call left |
| `Atomicity.QuietExecute` | core/src/fork/model.rs:344-405 | A call that with everything below it only queries, moves no coins, instantiates nothing and executes only known contracts leaves contracts and balances as before, however deep it fails |
| `Atomicity.CaughtFailureKeepsWrites` | core/src/fork/model.rs:280-342 | What a failed call wrote is still there when a reply turns the failure into a success |
| `Decimal.SeedInjective` | core/src/fork/model.rs:145-149 | Different pairs of code id and counter have different seeds |
| `Invariants.AllocateIsFresh` | core/src/fork/model.rs:145-160 | Given injective hashing, the address handed out is not in use, nor are the ones still to come |
| `Invariants.RunNeverOverwrites` | core/src/fork/model.rs:457-521 | The contracts a run instantiates, however nested, have addresses all different, none of them in use before |
| `Histories.HistoryNeverOverwrites` | core/src/fork/model.rs:457-521 | Likewise for every transaction after every history |
| `Histories.HistoryIsSound` | core/src/fork/model.rs:560-581 | Every history keeps the call trace a tree and all addresses still to be generated free |
| `Histories.HistoryLedger` | core/src/fork/states.rs:176-222 | After any history, with reverted transactions and host failures, the ledger is the eager ledger after the payments that lasted |
| `Histories.HistoryAccounts` | core/src/fork/states.rs:176-222 | The books balance over whole histories; without self-transfers only burning changes a total |
| `Invariants.RunKeepsChainData` | core/src/fork/model.rs:560-645 | No run changes the sender, the custom codes, the block number or the timestamp |
| `Storage.RangeIsExact` | core/src/fork/storage.rs:53-86 | A range holds exactly the entries from start (inclusive) to end (exclusive), strictly in the order asked for |
| `Storage.EmptyRange` | core/src/fork/storage.rs:53-86 | A range whose start is not below its end is empty |
| `Storage.RangeFromEmptyKey` | core/src/fork/storage.rs:53-86 | Starting at the empty key is starting at the beginning |
| `Storage.IteratorIsASnapshot` | core/src/fork/storage.rs:36-116 | However an iterator is drained, and whatever is written, removed or scanned meanwhile, it yields the entries its range had at the scan, in order, and then nothing forever |
| `Storage.RpcMockStorage.AddIterator` | core/src/fork/storage.rs:36-41 | A new id for a new iterator; the others stay |
| `Storage.RpcMockStorage.Scan` | core/src/fork/storage.rs:53-86 | The records of the range become an iterator of their own |
| `Storage.RpcMockStorage.Next` | core/src/fork/storage.rs:89-103 | Advances one iterator only, and fails on an unknown id |
| `Storage.RpcMockStorage.Set` | core/src/fork/storage.rs:105-111 | Writes through to the shared storage object, no iterator changes |
| `Storage.RpcMockStorage.Remove` | core/src/fork/storage.rs:113-116 | Removes from it, no iterator changes |
| `Varints.SovIsExact` | core/proto/tendermint/crypto/proof.pb.go:708-710 | The size formula is the number of bytes of the varint, for every value |
| `Varints.EncodeVarint` | core/proto/tendermint/crypto/proof.pb.go:597-607 | Writes exactly these bytes so that they end at the offset, and no other byte |
| `Varints.DecodeVarint` | core/proto/tendermint/crypto/proof.pb.go:721-735 | The shift-and-or loop over a word of any width gives the value modulo that width, where it ends, or the error, for every byte string |
| `Varints.VarintRoundTrip` | core/proto/tendermint/crypto/proof.pb.go:721-735 | Reading back a varint of up to ten bytes gives the value and consumes exactly its bytes |
| `Varints.VarintLength` | core/proto/tendermint/crypto/proof.pb.go:708-710 | A 64-bit value takes one to ten bytes, so it is never reported as an overflow |
| `Varints.SignedRoundTrips` | core/proto/tendermint/crypto/proof.pb.go:420-426 | Sign extension to 64 bits and truncation to 64 or 32 bits give signed numbers back |
| `Wire.SkipIsExact` | core/proto/tendermint/crypto/proof.pb.go:1375-1452 | A skip stays within the data with length n if and only if the first n bytes are one well-formed field, with groups nested to any depth |
| `Wire.SkipIsComplete` | core/proto/tendermint/crypto/proof.pb.go:1375-1452 | A well-formed field followed by anything is skipped with exactly its length |
| `Wire.SkipIsSound` | core/proto/tendermint/crypto/proof.pb.go:1375-1452 | What has been skipped is a well-formed field |
| `Reader.SkipField` | core/proto/tendermint/crypto/proof.pb.go:1375-1452 | The loop with its cursor and depth computes the skip on every byte string, never reading outside it |
| `Reader.SkipVarintAt` | core/proto/tendermint/crypto/proof.pb.go:1398-1408 | The inner loop that passes over a varint |
| `Reader.ReadField` | core/proto/tendermint/crypto/proof.pb.go:716-862 | Reading one field: its tag, its kind, its payload or the skip, with every error of the generated code |
| `Reader.Decode` | core/proto/tendermint/crypto/proof.pb.go:716-868 | The loop over all fields is the reading of the message, for every schema and every byte string |
| `Messages.ConcatenationMerges` | core/proto/tendermint/crypto/proof.pb.go:716-868 | Reading two encodings one after the other is reading their concatenation, for every message type |
| `Messages.UnknownFieldsAreIgnored` | core/proto/tendermint/crypto/proof.pb.go:849-862 | A well-formed unknown field inserted behind any number of complete fields, whether or not their content is accepted, changes neither the result nor the error |
| `Messages.LexPrefix` | core/proto/tendermint/crypto/proof.pb.go:716-862 | What is read of a field does not depend on the bytes behind it |
| `Messages.UnmarshalWritten` | core/proto/tendermint/crypto/proof.pb.go:716-868 | Reading written fields takes in exactly these fields, in order |
| `ProofCodec.SizeProof` | core/proto/tendermint/crypto/proof.pb.go:609-632 | The size is the length of the encoding |
| `ProofCodec.ProofToSizedBuffer` | core/proto/tendermint/crypto/proof.pb.go:396-428 | Written from back to front: the bytes before `end` become the encoding, all others stay, and the index never underflows |
| `ProofCodec.MarshalProof` | core/proto/tendermint/crypto/proof.pb.go:381-389 | A buffer of the computed size is filled completely with the encoding |
| `ProofCodec.ProofMerges` | core/proto/tendermint/crypto/proof.pb.go:716-868 | Reading an encoded proof into any proof replaces the fields that are set and appends the aunts |
| `ProofCodec.ProofRoundTrip` | core/proto/tendermint/crypto/proof.pb.go:381-428 | Reading it into an empty proof gives it back, for all 64-bit numbers |
| `ProofCodec.SizeValueOp` | core/proto/tendermint/crypto/proof.pb.go:634-649 | The size is the length of the encoding, nested proof included |
| `ProofCodec.ValueOpToSizedBuffer` | core/proto/tendermint/crypto/proof.pb.go:445-470 | The nested message is written in place, its length and tag before it |
| `ProofCodec.MarshalValueOp` | core/proto/tendermint/crypto/proof.pb.go:430-438 | A buffer of the computed size is filled completely |
| `ProofCodec.ValueOpMerges` | core/proto/tendermint/crypto/proof.pb.go:871-990 | Reading an encoded operation merges the nested proofs instead of replacing them |
| `ProofCodec.ValueOpRoundTrip` | core/proto/tendermint/crypto/proof.pb.go:430-470 | Reading it into an empty operation gives it back; an absent proof stays absent |
| `ProofCodec.ConcatenatedValueOps` | core/proto/tendermint/crypto/proof.pb.go:871-990 | Two encodings one after the other are read as the merge of the two |
| `ProofCodec.TransmitValueOp` | core/proto/tendermint/crypto/proof.pb.go:430-470 | Marshalled by one loop and read by the other, a message comes back |
| `ProofCodec.SizeProofOp` | core/proto/tendermint/crypto/proof.pb.go:672-691 | The size is the length of the encoding |
| `ProofCodec.ProofOpToSizedBuffer` | core/proto/tendermint/crypto/proof.pb.go:531-558 | The bytes before `end` become the encoding, all others stay |
| `ProofCodec.MarshalProofOp` | core/proto/tendermint/crypto/proof.pb.go:516-524 | A buffer of the computed size is filled completely |
| `ProofCodec.ProofOpRoundTrip` | core/proto/tendermint/crypto/proof.pb.go:1139-1288 | Reading it into an empty message gives it back |
| `ProofCodec.SizeProofOps` | core/proto/tendermint/crypto/proof.pb.go:693-706 | The loop over repeated messages gives the length of the encoding |
| `ProofCodec.ProofOpsToSizedBuffer` | core/proto/tendermint/crypto/proof.pb.go:575-595 | The loop writes the last element first; the bytes before `end` become the encoding |
| `ProofCodec.MarshalProofOps` | core/proto/tendermint/crypto/proof.pb.go:560-568 | A buffer of the computed size is filled completely |
| `ProofCodec.ProofOpsMerge` | core/proto/tendermint/crypto/proof.pb.go:1290-1373 | Reading encoded operations appends them |
| `ProofCodec.ProofOpsRoundTrip` | core/proto/tendermint/crypto/proof.pb.go:1290-1373 | Reading them into an empty message gives them back, in order |
| `ProofCodec.TransmitProofOps` | core/proto/tendermint/crypto/proof.pb.go:1290-1373 | Likewise for repeated messages |
| `StateSyncCodec.SizeSnapshotsResponse` | core/proto/tendermint/statesync/types.pb.go:824-848 | The size is the length of the encoding |
| `StateSyncCodec.SnapshotsResponseToSizedBuffer` | core/proto/tendermint/statesync/types.pb.go:609-644 | The bytes before `end` become the encoding, all others stay |
| `StateSyncCodec.SnapshotsResponseRoundTrip` | core/proto/tendermint/statesync/types.pb.go:1143-1317 | Reading it into an empty message gives it back |
| `StateSyncCodec.ChunkRequestToSizedBuffer` | core/proto/tendermint/statesync/types.pb.go:661-682 | The bytes before `end` become the encoding, all others stay |
| `StateSyncCodec.ChunkRequestRoundTrip` | core/proto/tendermint/statesync/types.pb.go:1319-1425 | Reading it into an empty message gives it back |
| `StateSyncCodec.SizeChunkResponse` | core/proto/tendermint/statesync/types.pb.go:868-891 | The size is the length of the encoding, the flag counting two bytes |
| `StateSyncCodec.ChunkResponseToSizedBuffer` | core/proto/tendermint/statesync/types.pb.go:699-747 | The bytes before `end` become the encoding, all others stay |
| `StateSyncCodec.ChunkResponseRoundTrip` | core/proto/tendermint/statesync/types.pb.go:1427-1587 | Reading it into an empty message gives it back, flag included |
| `StateSyncCodec.SizeMessage` | core/proto/tendermint/statesync/types.pb.go:751-813 | The size is the length of the encoding of whichever variant is set |
| `StateSyncCodec.MessageToSizedBuffer` | core/proto/tendermint/statesync/types.pb.go:466-569 | The variant, its length and its tag are written before `end`; nothing if none is set |
| `StateSyncCodec.MarshalMessage` | core/proto/tendermint/statesync/types.pb.go:451-459 | A buffer of the computed size is filled completely |
| `StateSyncCodec.MessageMerges` | core/proto/tendermint/statesync/types.pb.go:901-1090 | Reading an encoded message replaces whichever variant was there, and keeps it if none is set; into an empty message it is the round trip |
| `StateSyncCodec.TransmitMessage` | core/proto/tendermint/statesync/types.pb.go:451-481 | Marshalled by one loop and read by the other, a message comes back |
| `ConnCodec.SizePacketMsg` | core/proto/tendermint/p2p/conn.pb.go:634-651 | The size is the length of the encoding |
| `ConnCodec.PacketMsgToSizedBuffer` | core/proto/tendermint/p2p/conn.pb.go:436-464 | The bytes before `end` become the encoding, all others stay |
| `ConnCodec.MarshalPacketMsg` | core/proto/tendermint/p2p/conn.pb.go:421-429 | A buffer of the computed size is filled completely |
| `ConnCodec.PacketMsgRoundTrip` | core/proto/tendermint/p2p/conn.pb.go:829-951 | Reading it into an empty message gives it back; the channel is written with 64 bits and read with 32, also when negative |
| `ConnCodec.SizePacket` | core/proto/tendermint/p2p/conn.pb.go:653-702 | The size is the length of the encoding of whichever variant is set |
| `ConnCodec.PacketToSizedBuffer` | core/proto/tendermint/p2p/conn.pb.go:481-562 | The variant, its length and its tag are written before `end`; nothing if none is set |
| `ConnCodec.MarshalPacket` | core/proto/tendermint/p2p/conn.pb.go:466-474 | A buffer of the computed size is filled completely |
| `ConnCodec.PacketMerges` | core/proto/tendermint/p2p/conn.pb.go:953-1107 | Reading an encoded packet replaces whichever variant was there, and keeps it if none is set |
| `ConnCodec.TransmitPacket` | core/proto/tendermint/p2p/conn.pb.go:466-496 | Marshalled by one loop and read by the other, a packet comes back |
| `ProfileFormat.SectionSizes` | minicov/minicov/c/InstrProfilingBuffer.c:53-84 | The rounded numbers of records and counters cover their sections with less than one element to spare |
| `ProfileFormat.PaddingIsLeast` | minicov/minicov/c/InstrProfiling.c:27-33 | Padding reaches the next multiple of eight with less than eight bytes |
| `ProfileFormat.PageIsLeast` | minicov/minicov/c/InstrProfilingBuffer.c:86-93 | Page padding reaches the next page with less than a page |
| `ProfileFormat.RecordFields` | minicov/minicov/c/profile/InstrProfData.inc:72-90 | The fields of a serialised record are found at their offsets |
| `ProfileWriter.BufferWriter.Write` | minicov/minicov/c/InstrProfilingWriter.c:37-52 | Each piece with data is copied, each without only advances the position, which survives from call to call |
| `ProfileWriter.PieceAt` | minicov/minicov/c/InstrProfilingWriter.c:37-52 | Each piece ends up where the pieces before it end |
| `ProfileWriter.WritesInside` | minicov/minicov/c/InstrProfilingWriter.c:37-52 | Nothing before the position and nothing behind the pieces changes |
| `ProfileWriter.PromisedSize` | minicov/minicov/c/InstrProfilingBuffer.c:123-145 | In both padding modes the bytes written never exceed the promised size, and equal it if there is a record and records are not left to debug information |
| `ProfileWriter.Capture` | minicov/minicov/c/InstrProfilingWriter.c:255-331 | Writes header, build ids, records, counters and names of the current program into a buffer of the promised size, and no farther |
| `ProfileWriter.CaptureHolds` | minicov/minicov/c/InstrProfilingWriter.c:255-331 | In both padding modes a captured profile holds its header, records, counters and names each in its place |
| `ProfileWriter.PaddingKept` | minicov/minicov/c/InstrProfilingWriter.c:46-49 | Padding before the counters keeps what the buffer held |
| `ProfileMerge.CheckCompatibility` | minicov/minicov/c/InstrProfilingMerge.c:40-86 | Refuses a profile if and only if its header, its size or the name, hash or counter number of a record does not match |
| `ProfileMerge.MergeFromBuffer` | minicov/minicov/c/InstrProfilingMerge.c:96-184 | The loop with its sliding delta merges record by record in place, up to the first record that has no counters or whose counters are not in the profile |
| `ProfileMerge.BlendInto` | minicov/minicov/c/InstrProfilingMerge.c:157-164 | The inner loop combines exactly the counters of one record |
| `ProfileMerge.MergeCoverage` | minicov/minicov/src/lib.rs:172-184 | An incompatible profile changes no counter; a compatible one is merged |
| `ProfileMerge.Reset` | minicov/minicov/c/InstrProfiling.c:39-45 | Every counter gets the reset value |
| `ProfileMerge.PointerCheckIsOffsetCheck` | minicov/minicov/c/InstrProfilingMerge.c:146-156 | As long as no pointer near the profile wraps, the source's comparison of pointers accepts exactly the offsets inside the counter section, even where the subtraction of the delta wrapped |
| `ProfileRuns.SlidingDelta` | minicov/minicov/c/InstrProfilingMerge.c:139-150 | The delta, reduced by the record size at each record, resolves record i to its own counters, modulo 2^64 |
| `ProfileRuns.MergeIsFold` | minicov/minicov/c/InstrProfilingMerge.c:127-164 | For every profile with the records of the program, merging combines what stands behind the records, read as counters, record by record, and fails if and only if a record is empty |
| `ProfileRuns.CapturedIsCompatible` | minicov/minicov/c/InstrProfilingMerge.c:40-86 | A captured profile, padded or not, is compatible with every run of the same program, wherever it is loaded |
| `ProfileRuns.CaptureThenMerge` | minicov/minicov/c/InstrProfilingMerge.c:96-184 | Capturing and merging into any run of the same program adds to each counter, modulo 2^64, the captured one as often as records cover it; in byte mode it is and-ed in |
| `ProfileRuns.MergeIsSumIff` | minicov/minicov/c/InstrProfilingMerge.c:96-184 | Capture A, merge the profile into B, get A + B, for all A and B and for runs loaded anywhere, if and only if no record is empty, every counter is counted once and no padding stands before the counters |
| `ProfileRuns.MergeIsSum` | minicov/minicov/c/InstrProfilingMerge.c:96-184 | The sum, for a captured profile of any run of such a program |
| `ProfileRuns.UncountedBreaksMerge` | minicov/minicov/c/InstrProfilingMerge.c:127-164 | In an unpadded profile, a counter that is not counted once gets a wrong value from a captured count of one |
| `ProfileRuns.EmptyRecordRefuses` | minicov/minicov/c/InstrProfilingMerge.c:151-153 | A program with an empty record refuses every captured profile |
| `ProfileRuns.PaddingBreaksMerge` | minicov/minicov/c/InstrProfilingMerge.c:114-119 | With padding before the counters the merge reads the padding, however often the first counter is covered: in a zeroed buffer a first count of one never arrives |
| `ProfileMerge.ResetIsNeutral` | minicov/minicov/c/InstrProfiling.c:39-45 | The reset value is neutral in both modes |
| `ProfileRuns.ResetThenMerge` | minicov/minicov/c/InstrProfiling.c:39-45 | Merging a captured profile into reset counters takes its counters over |
| `ProfileRuns.RunsAddUp` | minicov/minicov/src/lib.rs:172-200 | The captured profiles of any number of runs, merged one after the other, are all accepted and add up, modulo 2^64 |
| `ProfileRuns.CoveredInSomeRun` | minicov/minicov/c/InstrProfilingMerge.c:157-164 | In byte mode, after merging the captured profiles of any number of runs code counts as covered if and only if it was covered in one of the runs |
| `ProfileBuffer.BufferIO.constructor` | minicov/minicov/c/InstrProfilingWriter.c:54-61 | An empty buffer in front of the file |
| `ProfileBuffer.BufferIO.FlushOut` | minicov/minicov/c/InstrProfilingWriter.c:109-118 | Hands on what is buffered; on failure it stays buffered |
| `ProfileBuffer.BufferIO.Put` | minicov/minicov/c/InstrProfilingWriter.c:85-107 | Flush if it does not fit, bypass if it never will, buffer otherwise, with the sum of sizes in 32 bits |
| `ProfileBuffer.WriteAppendsIff` | minicov/minicov/c/InstrProfilingWriter.c:85-107 | A successful write appends to what was written before if and only if no flush was missed by wrap-around (or the data is buffered, or commutes with what is); the buffer overflows if and only if a missed flush meets data that is buffered |
| `ProfileBuffer.OutOfOrderExample` | minicov/minicov/c/InstrProfilingWriter.c:85-107 | With the 8 KB buffer, a write of 2^32 - 1 bytes behind one buffered byte is delivered before it |
| `ProfileBuffer.SmallWritesNeverMiss` | minicov/minicov/c/InstrProfilingWriter.c:85-107 | Writes that leave room for a full buffer in 32 bits never miss a flush |
| `ProfileBuffer.BufferedIsDirect` | minicov/minicov/c/InstrProfilingWriter.c:85-118 | After any sequence of writes and flushes, delivered plus buffered bytes are the concatenation of all writes, or of exactly those before the first operation that fails; the offset never exceeds the buffer |
| `Riffle.RiffleShuffle` | cosmwasm/docs/simulate_riffle_shuffle.py:14-22 | The loop deals the two halves alternately, the upper one first |
| `Riffle.ShuffleKeepsElements` | cosmwasm/packages/std/src/testing/mock.rs:778-791 | A shuffle of an even number of elements is a permutation |
| `Riffle.OddShuffleDropsLast` | cosmwasm/docs/simulate_riffle_shuffle.py:14-22 | Of an odd number the last element is lost and the others are shuffled as if it were not there |
| `Riffle.RiffleLaw` | cosmwasm/docs/simulate_riffle_shuffle.py:4-22 | After k shuffles of an even number n of elements, the element at position p, counted from one, is at position 2^k p modulo n + 1 |
| `Riffle.RestoredIf` | cosmwasm/packages/std/src/testing/mock.rs:733-777 | k shuffles restore every sequence of even length n if 2^k is one modulo n + 1 |
| `Riffle.RestoredOnlyIf` | cosmwasm/packages/std/src/testing/mock.rs:733-777 | Only then |
| `Riffle.TwentyRestores` | cosmwasm/packages/std/src/testing/mock.rs:79-84 | Twenty shuffles restore every sequence of 54 elements, and of 24 |
| `Riffle.FewerDoNotRestore` | cosmwasm/packages/std/src/testing/mock.rs:79-84 | No smaller positive number does |
| `Riffle.SumDigits` | cosmwasm/packages/std/src/testing/mock.rs:793-795 | Adds the bytes up |
| `Riffle.AddrCanonicalize` | cosmwasm/packages/std/src/testing/mock.rs:117-145 | Length checks, lower case, padding, rotation by the digit sum, eighteen shuffles |
| `Riffle.AddrHumanize` | cosmwasm/packages/std/src/testing/mock.rs:147-170 | Length check, two shuffles, rotation back, zero bytes removed, refused if the rest is not text |
| `Riffle.AddressRoundTrip` | cosmwasm/packages/std/src/testing/mock.rs:117-170 | For every input of 3 to 54 bytes, the way to the canonical form and back gives the lower-case input cut to 54 bytes and without zero bytes, if that is text; every other input is refused |
| `Riffle.ValidIffNormalized` | cosmwasm/packages/std/src/testing/mock.rs:105-115 | For every conversion to lower case: an input is valid if and only if it is text, its length is in range and it equals its lower-case form cut to 54 bytes and without zero bytes; for one that keeps lengths, if and only if it has no zero byte and is its own lower-case form |

## Left out

- RPC and LCD clients, the file cache and their errors: the remote chain is a fixed function parameter.
- Wasm execution, compilation, gas and the module cache: contracts are behaviour trees.
- Smart and raw queries between contracts: a smart query fetches the queried contract and opens and closes a call context of its own (core/src/fork/querier.rs:157, 226-253), so it touches the contracts and the trace, though not the dispatch.
- Response attributes and data, and captured output: they do not influence the dispatch.
- Bech32 and SHA-256: address generation is a function of the seed; where uniqueness matters it is assumed to be injective on the seeds of instances and not to hit addresses of the chain.
- The `cheat_*` setters and the Python bindings: thin wrappers.
- The content of coverage dumps: only that a completed call is recorded.
- Overflow of 64-bit block numbers and counters, and of 128-bit balances: numbers are unbounded; `RunFits` and `SendFits` say when no balance overflows.
- `unimplemented!()` message kinds, and a panic on a message body that is not JSON: such messages are not part of the behaviour trees.
- Partially filled messages after a decoding error: the model returns the error only.
- Reader.ReadField: an end position beyond 63 bits is reported as an unexpected end, where the source has an invalid length.
- Reader.SkipField: likewise for the position behind a skipped payload.
- The difference between nil and empty byte slices, and oneof wrappers that hold a nil message.
- `DominoOp` and `AuthSigMessage`: the first adds nothing new, the second depends on key types that are not part of this model.
- The other generated codecs: the same pattern.
- Value profiling, ELF notes (build ids are a byte string), linker symbols and Windows branches.
- Atomicity.QuietExecute: one direction only; a call that fails further down can also undo its own writes.
- ProfileMerge.CheckCompatibility: the sizes of a header are added without 64-bit wrap-around.
- ProfileMerge.MergeFromBuffer: for profiles whose sizes have passed the compatibility check and programs whose records point into their counter section; outside of that the source reads or writes out of bounds.
- ProfileBuffer.BufferIO.Put: a missed flush must not meet data that is buffered, since the source would write behind the buffer.
- The content of padding bytes: the writer leaves what the buffer held.
- The Unicode tables: strings are byte sequences, which of them are text and the conversion to lower case are parameters.
- The signature functions of the mock API.
