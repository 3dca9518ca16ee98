# Verified model of the BRC-721 indexer

The BRC-721 daemon reads Bitcoin blocks and keeps a SQLite index of who owns which token. A token is a
96-bit slot in a group (a registered collection and a 20-byte base address). Tokens sit on transaction
outputs as slot ranges, and move when an output is spent. This project models the indexer, the
message formats that drive it and the wallet commands that build mixes, and proves what they keep.

Verify everything with `dafny verify dfyconfig.toml`.

## What is modelled

| files | part of the program |
|---|---|
| `VarInt96`, `MixPayload`, `OwnershipPayload`, `Payload`, `WireFormat` | the messages: validation, encoding and decoding |
| `Spans`, `Tokens`, `Bytes` | sorting and overlap tests, slot ranges as token sequences, coalescing |
| `Slot96`, `Storage`, `TableInvariant`, `SlotLookup` | the ownership tables, their statements and queries, the invariant, the slot lookup |
| `Transactions`, `MixRouting`, `Writes`, `MixDigest`, `RegisterDigest`, `Parser`, `BlockParser` | parsing a transaction and a block |
| `Ledger`, `Accounting`, `SingleHolder`, `Delivery`, `Placement`, `Registration`, `Rejection`, `MixMeaning`, `Examples` | what transactions and runs do to tokens |
| `Scanner`, `Indexer`, `Chain`, `Confluence`, `Collections` | the indexing loop, failures, restarts, and the collection table they lead to |
| `Psbt`, `WalletTokens`, `WalletMix`, `RangeMerge`, `Text`, `RangeText` | the wallet side of a mix, merged ranges and their text form |

Code that changes state step by step is a method, on a class where the program has an object, and is
proved against a function over values: `ParseTx` against `StepTx`, `Sweep` against `Routed`, `Core.Run`
against `RunRounds`. The theorems are about those functions, and say what they come to without them:
which output stores what (`ImplicitTransfer`, `MixHolds`, `RegistersMeaning`), which collection is stored
(`StepCollections`), which messages are rejected or stop the index (`RejectedMixIff`, `StepFailsIff`),
and which blocks are indexed (`IndexBlockIff`).

The main results build on each other:

1. The mix sweep, which never looks at single tokens, routes every token index by itself (`Sweep`).
2. A transaction conserves tokens unless it is a mix that decodes and is then rejected; that one
   forfeits what it spends (`TokensConserved`, `RejectedMixForfeits`).
3. The table invariant survives every transaction (`StepKeepsInv`). Tokens keep single holders while
   registrations name only new slots (`StepKeepsSingle`); exactly when they do is `SingleKeptIff` for any
   transaction and `RegistrationKeepsSingleIff` in terms of the message and the spent ranges, because
   registration does not look at present holders (`SlotRegisteredTwice`).
4. Against one chain the database is the fold of that chain, whatever the batches, failures and
   restarts were (`CommittedIsFold`), so 2 and 3 hold of every database the daemon can leave behind
   (`ReachableDatabase`), and its collections are exactly those the chain registers (`CollectionTable`).
   Along a linked chain healthy rounds grow the index by a batch each (`LinkedRunGrows`), and a transaction
   that ends in an error stops the index for good (`FailingTransactionHalts`).
5. A mix the wallet agrees to build is accepted by the indexer and delivers to each address exactly the
   indices it asked for (`WalletMixDelivers`).

## Where the code decides

- Nothing stops a slot from being registered twice, so "one owner per token" holds only under a
  condition: what is written is placed once, and what is registered is new or spent. The condition is
  exact, for every transaction and for whole runs, and `SlotRegisteredTwice` fails it.
- Identical ranges at one output collapse into one row (`IdenticalRangesCollapse`). Where tokens end is
  therefore proved twice: as sets for all inputs, and as sequences for inputs that hold no token twice. An
  output keeps the order of what was written exactly when nothing was written to it twice.
- A mix that decodes but fails a check leaves its inputs spent and writes nothing, so its tokens are
  lost (`RejectedMixIff`, `RejectedMixLosesToken`).
- A message that does not decode is no message: the transaction is an implicit transfer.
- Any error aborts the batch; nothing of it is committed.

## Assumptions

- A transaction's id is fresh: no utxo row carries it. Along a chain, ids are distinct (`FreshTxid`,
  `DistinctTxids`).
- Non-null previous outputs within a transaction are distinct (`DistinctInputs`), where a theorem says so.
  The null outpoint is txid 0 with vout 2^32 - 1.
- A transaction has at most 2^32 outputs and a block at most 2^32 transactions, so the casts to `u32`
  are exact; `usize` has 64 bits.
- The script hash is an uninterpreted function, block hashes are uninterpreted numbers, and scripts are
  given as bytes together with whether they are OP_RETURN and which message bytes they carry.
- `getrawtransaction` is a partial lookup, the same for all transactions of one block. Nothing is assumed
  of what a node answers, except in `Confluence`, where the answers agree with one chain.
- A call that fails in a way the model has no cause for (disk, lock, connection) is a fault of the round
  at a block of its choice.
- `walletcreatefundedpsbt` keeps the requested outputs in order with change last, includes the requested
  inputs and adds only unlocked outputs of the wallet (`Funded`).
- Bit operations of the varint and slot codecs are written as arithmetic; `u128` limits, saturation and
  checked additions are explicit.

## Model

| member | source | states |
|---|---|---|
| `MixRouting.Sweep` | src/parser/mix.rs:172-237 | For every valid mix and every well-formed list of input ranges, output k ends with exactly the coalesced form of the input tokens whose index is routed to k (asked for by k, or by nobody for the complement), in input order; no error branch is taken, and at most segments + 2 x explicit ranges slices are cut |
| `MixRouting.SweepSegment` | src/parser/mix.rs:193-237 | One segment: the cursor reaches the segment's end, every token of the segment goes where its index is routed, and each cut is paid for by the segment's end or by a range bound it passes |
| `MixRouting.AssignCut` | src/parser/mix.rs:212-233 | A cut hands the tokens between two indices to one output; the "did not advance" and "slot overflow" returns are unreachable |
| `MixRouting.SkipPassed` | src/parser/mix.rs:196-198 | After the inner loop the current explicit range ends beyond the cursor and none that still matters was skipped |
| `MixRouting.CutIsUniform` | src/parser/mix.rs:200-210 | The slice chosen advances, stays within the segment, and all its indices go to the one output chosen |
| `MixRouting.OutputAssignment.PushSlice` | src/parser/mix.rs:29-53 | Pushing a run of tokens appends them to what the output holds, joined with the last slice when group and slots continue |
| `MixRouting.SortedIsChain` | src/parser/mix.rs:172-185 | The sorted explicit ranges of a valid mix are disjoint, in order, non-empty, and none belongs to the complement |
| `MixRouting.RoutedWindow` | src/parser/mix.rs:200-233 | If a window of indices goes to one output, routing the window token by token appends it there and nowhere else |
| `MixDigest.Digest` | src/parser/mix.rs:84-294 | The digest writes what the per-token routing says for an accepted mix, writes nothing for a rejected one, and fails only when the indices overflow a u128; nothing else of the tables changes |
| `MixDigest.BuildSegments` | src/parser/mix.rs:111-138 | The segments tile the indices 0 to total in input order, or the index count overflows a u128 |
| `MixDigest.CheckOutputs` | src/parser/mix.rs:149-170 | Accepts exactly when outputs 1 to n exist and none is an OP_RETURN |
| `MixDigest.SaveParts` | src/parser/mix.rs:239-281 | Saving the assignments is writing each output's slices under its own script and owner, in output order |
| `MixDigest.FewRangesCountable` | src/parser/mix.rs:114-136 | The index overflow error cannot occur with fewer than 2^32 stored input ranges |
| `Delivery.ExplicitShare` | src/types/mix.rs:225-249 | In a mix that passes the token count an explicit output receives as many tokens as its ranges have indices |
| `Delivery.SharesAddUp` | src/parser/mix.rs:187-237 | The shares of all outputs add up to the number of input tokens |
| `Delivery.ComplementShare` | src/parser/mix.rs:187-237 | The complement receives exactly the tokens that the explicit ranges leave: the total minus their lengths |
| `Delivery.MixDelivers` | src/parser/mix.rs:239-281 | After an accepted mix whose inputs hold no token twice, output k+1 holds exactly the tokens routed to entry k, in order and coalesced, and no other output of the transaction holds any; other holders in the index do not matter |
| `Delivery.MixReaches` | src/parser/mix.rs:239-281 | For any accepted mix, whoever holds what: a token is at output k+1 exactly when it is routed to entry k |
| `MixMeaning.MixHolds` | src/parser/mix.rs:187-281 | After any accepted mix output v holds a token exactly when the token has an index that entry v-1 lists, or that nobody lists if the entry is the complement |
| `MixMeaning.MixKeepsOrder` | src/parser/mix.rs:187-281 | With inputs that share no token, two tokens an output receives stand there in the order in which they were spent |
| `MixRouting.RoutedAt` | src/parser/mix.rs:187-237 | A token routed to an output stands there behind exactly the tokens of lower index routed to it |
| `SingleHolder.ReceiverUnique` | src/types/mix.rs:298-327 | No index is routed to two outputs |
| `SingleHolder.RoutedCountsAll` | src/parser/mix.rs:187-237 | Routing hands on every occurrence of every token exactly once over all outputs |
| `MixPayload.ValidateBasic` | src/types/mix.rs:251-330 | Accepts exactly the data in which one output, the complement, lists nothing, every other output lists non-empty ranges within 96 bits, and no index is listed twice anywhere |
| `MixPayload.ValidBasicIff` | src/types/mix.rs:251-330 | Valid means: the complement lists nothing, every other entry lists something, every range has start < end < 2^96, and no index lies in two ranges at different places |
| `MixPayload.TokenCountMeaning` | src/types/mix.rs:215-249 | A valid mix passes the token count exactly when every explicitly listed index is below the number of tokens |
| `MixPayload.AsksIsExplicit` | src/parser/mix.rs:172-184 | The flattened list of explicit ranges says of each output exactly the indices it lists |
| `MixPayload.ToBytes` | src/types/mix.rs:164-198 | The encoding loop produces the encoding that decodes back |
| `MixPayload.TryFrom` | src/types/mix.rs:336-403 | The decoding loop returns exactly what the recursive decoder returns, error for error |
| `MixPayload.DecodeOfEncodeMix` | src/types/mix.rs:164-198 | Every valid mix decodes back from its bytes |
| `MixPayload.EncodeOfDecodeMix` | src/types/mix.rs:336-403 | Every byte string that decodes is, byte for byte, the encoding of the valid mix it decodes to |
| `WireFormat.MixBytes` | src/types/mix.rs:164-198 | The bytes of a concrete mix: command 2, the number of entries, and for each the number of its ranges and their bounds |
| `OwnershipPayload.Validate` | src/types/register_ownership.rs:231-255 | Accepts exactly data with at least one group, no empty group, and ranges in order and within 96 bits; otherwise returns the error of the first violation in reading order |
| `OwnershipPayload.ToBytes` | src/types/register_ownership.rs:183-229 | The encoding loops produce the encoding that decodes back |
| `OwnershipPayload.TryFrom` | src/types/register_ownership.rs:261-353 | The decoding loops return exactly what the recursive decoder returns, error for error |
| `OwnershipPayload.DecodeOfEncodeOwnership` | src/types/register_ownership.rs:183-229 | Every valid ownership message decodes back from its bytes |
| `OwnershipPayload.EncodeOfDecodeOwnership` | src/types/register_ownership.rs:261-353 | Every byte string that decodes re-encodes to itself, and what it decodes to passes `validate` although the decoder never calls it |
| `WireFormat.RegistrationBytes` | src/types/brc721_op_return_output.rs:184-196 | The bytes of a registration for collection (840000, 2) with slots 10 and 20 to 30: those of the cited lines |
| `WireFormat.RegistrationIff` | src/types/register_ownership.rs:231-255 | A registration can be sent exactly when height, index and counts fit their types, no group is empty, and every item has start <= end < 2^96 |
| `Payload.ToBytes` | src/types/brc721_payload.rs:29-40 | The command byte followed by the body of that command |
| `Payload.TryFrom` | src/types/brc721_payload.rs:46-62 | Dispatches on the command byte; an empty, unknown or malformed message is the decoder's error |
| `Payload.DecodeOfEncode` | src/types/brc721_payload.rs:29-62 | Every valid payload of any of the three commands decodes back from its bytes |
| `Payload.EncodeOfDecode` | src/types/brc721_payload.rs:46-62 | Every byte string that decodes re-encodes to itself, and the payload is valid |
| `Payload.PayloadBijection` | src/types/brc721_payload.rs:29-62 | A byte string decodes to p exactly when p is valid and the string is its encoding |
| `Payload.EncodeOfDecodeCollection` | src/types/register_collection.rs:14-40 | A collection body that decodes re-encodes to itself: 20 address bytes and a flag of 0 or 1 |
| `WireFormat.CollectionBytes` | src/types/register_collection.rs:14-21 | Command 0, the twenty address bytes, and 1 or 0 for rebaseable |
| `WireFormat.RefusedMessages` | src/types/brc721_payload.rs:46-62 | The error of an empty message, an unknown command, a collection body of the wrong length, and a flag above 1 |
| `Transactions.ParseBrc721Tx` | src/types/brc721_tx.rs:44-57 | Nothing when output 0 does not have the shape of a message, an error when it has but does not decode, and the message otherwise |
| `Transactions.CarriesIff` | src/types/brc721_tx.rs:44-57 | A transaction carries message p exactly when output 0 is an OP_RETURN whose message bytes are the encoding of p and p is valid |
| `VarInt96.DecodeOfEncode` | src/types/varint96.rs:59-107 | Decoding the encoding of any v below 2^96 followed by anything returns v and the encoded length |
| `VarInt96.EncodeOfDecode` | src/types/varint96.rs:79-107 | Any accepted prefix is the encoding of its value: no second form is accepted |
| `VarInt96.DecodeAccepts` | src/types/varint96.rs:79-107 | Decoding succeeds exactly when the bytes start with the encoding of a value below 2^96 |
| `VarInt96.EncodeFits` | src/types/varint96.rs:49-70 | The encoding of a value below 2^96 has at most 14 bytes |
| `VarInt96.EncodeLength` | src/types/varint96.rs:49-57 | A value needs at most n bytes exactly when it is below 128^n |
| `WireFormat.VarintByte` | src/types/varint96.rs:59-70 | Byte i of an encoding is the i-th group of seven bits, lowest first, plus 128 on all bytes but the last |
| `WireFormat.RefusedVarints` | src/types/varint96.rs:79-107 | A form longer than needed, a missing last byte and an empty input are refused, each with its own error |
| `VarInt96.Size` | src/types/varint96.rs:49-57 | `size` is the length of the encoding |
| `VarInt96.EncodeInto` | src/types/varint96.rs:59-70 | Appends the encoding and touches nothing before it |
| `VarInt96.DecodeBytes` | src/types/varint96.rs:79-107 | The shifting loop returns what the recursive decoder returns, with the same rejections |
| `VarInt96.TakeVarintAt` | src/types/mix.rs:406-414 | Reads one varint at the cursor and moves the cursor past it, or reports the decoder's error |
| `Spans.SortedNeighbourTest` | src/types/mix.rs:298-327 | Sorting and comparing neighbours accepts exactly the lists in which no two ranges share a position, half-open or inclusive, for any number of non-empty ranges |
| `Spans.FindOverlap` | src/types/register_ownership.rs:90-105 | The loop over the sorted copy reports an overlap exactly when two ranges share a position |
| `Spans.SortOrdered` | src/types/mix.rs:298-327 | The stable sort puts ranges in order of (start, end) |
| `Tokens.MergeOrderedRanges` | src/parser/brc721_parser.rs:29-45 | The merging loop returns the coalesced list |
| `Tokens.CoalesceIsCompress` | src/parser/brc721_parser.rs:29-45 | Coalescing gives the run-length form of the token sequence the ranges denote, so it depends on that sequence alone |
| `Tokens.CoalesceCanonical` | src/parser/brc721_parser.rs:29-45 | Coalescing keeps the token sequence, leaves no two neighbours that could be joined, and two lists for the same sequence coalesce identically |
| `Tokens.CoalesceUnique` | src/parser/brc721_parser.rs:29-45 | The coalesced list is the only list without joinable neighbours for its token sequence |
| `Tokens.PushRun` | src/parser/mix.rs:29-53 | Pushing slices one by one onto a coalesced list gives the coalesced list of the extended sequence: `push_slice` and `merge_ordered_ranges` agree |
| `Tokens.CompressFlatten` | src/parser/mix.rs:29-53 | The run-length form loses no token and keeps the order |
| `Tokens.UniqueGroupsFromRanges` | src/parser/brc721_parser.rs:16-27 | Every group of the ranges once, in order of first appearance |
| `Tokens.CoalesceGroups` | src/parser/brc721_parser.rs:56-92 | Coalescing does not change which groups occur, or their order |
| `Storage.SqliteTx.SaveOwnershipUtxo` | src/storage/sqlite.rs:384-411 | Inserts the row unless the key exists, in which case nothing changes |
| `Storage.SqliteTx.SaveOwnershipRange` | src/storage/sqlite.rs:413-448 | Inserts the range with the next sequence number of its outpoint unless the same range is there; fails exactly when the bound check or the foreign key fails |
| `Storage.SqliteTx.SaveCollection` | src/storage/sqlite.rs:94-107 | Inserts or replaces the collection |
| `Storage.SqliteTx.SaveLast` | src/storage/sqlite.rs:85-92 | Replaces the one row of the chain state |
| `Storage.SqliteStorage.BeginTx` | src/storage/sqlite.rs:601-611 | A transaction starts from what is committed |
| `Storage.SqliteStorage.Commit` | src/storage/sqlite.rs:25-30 | Committing installs the transaction's whole state at once |
| `Storage.StoredRange` | src/storage/sqlite.rs:413-448 | A 96-bit range is stored unchanged and satisfies the bound check |
| `Slot96.BlobOrderIsNumeric` | src/storage/sqlite.rs:111-116 | Comparing 12-byte blobs as SQLite does is comparing the numbers |
| `Slot96.StoredSlot` | src/storage/sqlite.rs:111-138 | Decoding inverts encoding for every slot below 2^96 |
| `Slot96.StoredOrder` | src/storage/sqlite.rs:111-138 | Order of slots below 2^96 is order of their blobs |
| `TableInvariant.QueryMeaning` | src/storage/sqlite.rs:264-289 | Under the invariant the joined query returns the stored ranges of an outpoint in insertion order, or nothing once it is spent |
| `TableInvariant.TokenUtxoTestsAgree` | src/commands/tx.rs:468-474 | Asking for unspent utxo rows and asking for unspent range rows agree on whether an outpoint holds tokens |
| `TableInvariant.InsertRangesAt` | src/storage/sqlite.rs:413-448 | Saving ranges appends, at their outpoint only, those not yet there, and numbers them on without gaps |
| `TableInvariant.WriteKeepsInv` | src/parser/brc721_parser.rs:56-92 | Writing ranges to an outpoint whose rows agree keeps the whole table invariant |
| `TableInvariant.WriteEffect` | src/parser/brc721_parser.rs:56-92 | Writing to one outpoint appends there and changes no other outpoint's unspent ranges |
| `TableInvariant.SpendEffect` | src/storage/sqlite.rs:450-473 | Spending empties the outpoint, keeps the invariant and changes no other outpoint |
| `TableInvariant.CollectionEffect` | src/parser/register_collection.rs:4-17 | Storing a collection under any key keeps the invariant and moves no token |
| `Ledger.StepCollections` | src/parser/register_collection.rs:4-17 | A register-collection transaction stores its address and flag under its own height and index and changes no other key; every other transaction leaves the collections as they are |
| `Collections.RegisteredByIff` | src/types/register_collection.rs:25-40 | A transaction registers a collection exactly when output 0 carries command 0, its twenty address bytes and a flag of 0 or 1 |
| `Collections.BlockCollections` | src/parser/brc721_parser.rs:345-363 | A block adds the collections its transactions register, each under the block's height and the transaction's index, and changes no other key |
| `Collections.CollectionTable` | src/core.rs:33-51 | After any sessions against a chain the known collections are exactly those its transactions register up to the saved height, each under the height and index of its transaction |
| `Writes.SaveRangesForOutput` | src/parser/brc721_parser.rs:56-92 | Saves the groups, then the coalesced ranges; no storage constraint is ever violated |
| `SlotLookup.FindUnspentOwnershipUtxoForSlot` | src/storage/sqlite.rs:321-357 | Finds a row exactly when some unspent range of the group numerically contains the slot, and returns one with the highest creation height and, at that height, the highest transaction index |
| `SlotLookup.CandidateHolds` | src/storage/sqlite.rs:321-357 | A row qualifies for the lookup exactly when its outpoint holds the token |
| `SlotLookup.LookupNamesTheHolder` | src/storage/sqlite.rs:321-357 | While tokens have single holders the lookup returns the one outpoint that holds the slot |
| `Parser.ParseTx` | src/parser/brc721_parser.rs:99-306 | The code's effect on the tables, and its error, are those of the transaction's plan: spend the inputs, register or route or transfer or burn; what the plan comes to is stated by `StepCollections`, `MixHolds`, `RegistersMeaning`, `ImplicitTransfer` and `StepFailsIff` |
| `Parser.ReadInputs` | src/parser/brc721_parser.rs:109-138 | The unspent token inputs in order with their ranges, and whether no token input follows a plain one |
| `Parser.MarkInputsSpent` | src/parser/brc721_parser.rs:146-170 | Marks every non-null input spent and nothing else |
| `Parser.RemainingOutputs` | src/parser/brc721_parser.rs:222-228 | Returns the list that `SpendableMembers` and `PayableIndex` describe: the outputs that are not OP_RETURN, in order |
| `Parser.TransferInputs` | src/parser/brc721_parser.rs:218-305 | Burns or moves the token inputs: one write for each input, in input order |
| `Parser.BurnInputs` | src/parser/brc721_parser.rs:230-264 | With no spendable output each input's ranges go to output 0 under the null owner |
| `Parser.MoveInputs` | src/parser/brc721_parser.rs:266-303 | The j-th token input goes to the j-th spendable output, or the last one |
| `BlockParser.ParseBlock` | src/parser/brc721_parser.rs:345-370 | A block is its transactions in order, then the new last block; the first failing transaction is the block's error |
| `BlockParser.StepKeepsSound` | src/parser/brc721_parser.rs:99-306 | Whatever a transaction is, ranges that can be stored stay so and keep a registered collection |
| `RegisterDigest.Digest` | src/parser/register_ownership.rs:101-220 | Writes every range of every group i to output i+1, or no row at all; the early returns inside the loops are unreachable; the group is the one `AcceptedMeaning` states |
| `RegisterDigest.TotalSlotsInPayload` | src/parser/register_ownership.rs:91-99 | The saturating sum is above the limit of 1,000,000 exactly when the exact number of slots is |
| `Ledger.PlanFits` | src/parser/brc721_parser.rs:99-306 | Everything a transaction writes can be stored and carries the owner and script of its output |
| `Ledger.StepKeepsInv` | src/parser/brc721_parser.rs:99-306 | The table invariant survives every transaction, and only rows of this transaction are new |
| `Ledger.StepEffect` | src/parser/brc721_parser.rs:99-306 | After a transaction its inputs are empty, its outputs hold what was written to them, and every other outpoint is unchanged |
| `Ledger.StepKeepsRow` | src/storage/sqlite.rs:384-473 | A stored row keeps owner, script and creation point through every transaction; its spent mark is set by the first transaction that spends the outpoint and never changes again |
| `Ledger.StepAppendsRanges` | src/storage/sqlite.rs:413-448 | Range rows are only ever appended: none is changed, moved or removed |
| `Delivery.StoredAsWrittenIff` | src/storage/sqlite.rs:413-448 | For any transaction an output keeps the ranges as written, in order, exactly when none of them is written to it twice |
| `Delivery.ExactAtOutput` | src/storage/sqlite.rs:413-448 | When inputs and registration together name no token twice, an output holds exactly what was written to it, in order; other holders in the index do not matter |
| `Delivery.HeldAtOutput` | src/storage/sqlite.rs:413-448 | For any transaction the tokens of an output are those written to it, whether or not duplicate ranges were dropped |
| `Delivery.SingleInputsDisjoint` | src/parser/brc721_parser.rs:109-138 | Single holders, spent once each, make the inputs disjoint |
| `Delivery.NewNamesOnce` | src/parser/brc721_parser.rs:99-306 | From single holding, a registration of new slots keeps inputs and registration from naming a token twice |
| `Delivery.OwnersRecorded` | src/parser/brc721_parser.rs:277-302 | Every row a transaction creates is unspent, names the script of its output, the hash of that script as owner and this transaction's place as creation; only a burn names the zero owner |
| `Delivery.SpendableMembers` | src/parser/brc721_parser.rs:222-228 | An output takes part in implicit transfer exactly when it is not an OP_RETURN |
| `Delivery.PayableIndex` | src/parser/brc721_parser.rs:222-228 | Such an output stands behind exactly as many others as precede it in the transaction |
| `Delivery.ImplicitTransfer` | src/parser/brc721_parser.rs:266-303 | When the inputs hold no token twice: an output that is not OP_RETURN, with k such outputs before it, stores the k-th token input coalesced, and all later ones too if no such output follows; plain inputs are not counted and other holders do not matter |
| `Delivery.TransferReaches` | src/parser/brc721_parser.rs:266-303 | For any inputs: a token is at such an output exactly when one of the inputs due to it held it |
| `Delivery.BurnTransfer` | src/parser/brc721_parser.rs:230-264 | When every output is an OP_RETURN and the inputs hold no token twice, all input tokens end on output 0 under the zero owner, in input order |
| `Delivery.BurnReaches` | src/parser/brc721_parser.rs:230-264 | For any inputs: when every output is an OP_RETURN a token is at output 0 exactly when an input held it |
| `Examples.MovesBehindOpReturn` | src/parser/brc721_parser.rs:222-303 | A concrete transaction with outputs OP_RETURN and a payable one moves slot 5 to output 1 |
| `Accounting.TokensConserved` | src/parser/brc721_parser.rs:99-306 | After a transaction that is not a rejected mix, a token is held exactly when it was held before or the transaction registers it |
| `Accounting.RejectedMixForfeits` | src/parser/brc721_parser.rs:204-212 | After a rejected mix exactly the tokens at outpoints it did not spend are held |
| `Rejection.RejectedMixIff` | src/parser/mix.rs:91-170 | A mix is rejected exactly when it has no inputs, at most as many outputs as entries, no input with tokens, or a plain input before one with tokens; or its indices can be counted and it lists one past the spent tokens or an output that is missing or an OP_RETURN |
| `Rejection.BadlyPlacedMixForfeits` | src/parser/mix.rs:91-109 | A mix with too few outputs, no tokens or a plain input before one with tokens succeeds as a transaction and leaves a token that only its inputs held with no holder |
| `Rejection.IndexedTokens` | src/parser/brc721_parser.rs:109-138 | Mix indices count over the tokens of the non-null inputs, one input after the other, and over nothing else |
| `Rejection.TokenInputAt` | src/parser/brc721_parser.rs:109-138 | The k-th input that spends tokens is the k-th token input, with its stored ranges |
| `Rejection.CountableIff` | src/parser/mix.rs:114-136 | Indices can be counted exactly when fewer than 2^128 tokens are spent |
| `Rejection.StepFailsIff` | src/parser/brc721_parser.rs:99-341 | Exactly which transactions end in an error and stop the index: registrations without inputs, too many groups, a base that cannot be looked up, or a well-placed mix over more tokens than a u128 counts; running out of memory while a message is decoded is not modelled |
| `Confluence.HaltedForGood` | src/core.rs:33-51 | When the first m blocks of a chain cannot be indexed, no sessions ever save a height at or past block m, whatever the retries and restarts |
| `Confluence.FailingTransactionHalts` | src/core.rs:59-70 | One transaction that ends in an error keeps the index below its block for good |
| `Rejection.MixFailsOnlyWhenHuge` | src/parser/mix.rs:114-136 | A mix can stop the index only with 2^32 input ranges or more |
| `Examples.RejectedMixLosesToken` | src/parser/mix.rs:138-147 | A concrete mix that asks for index 1 of one token: the token is held before and nowhere afterwards |
| `Examples.PlainInputFirstLosesToken` | src/parser/mix.rs:101-109 | A concrete mix with a plain input before the input that holds slot 5: the mix is rejected and slot 5 is held nowhere afterwards |
| `Accounting.PlanTokens` | src/parser/brc721_parser.rs:186-303 | What a transaction writes is what its inputs held and what it registers |
| `Accounting.MixTokens` | src/parser/mix.rs:239-281 | An accepted mix writes exactly its input tokens |
| `Accounting.RunKeepsInv` | src/parser/brc721_parser.rs:345-363 | Every state of every run of fresh transactions satisfies the table invariant |
| `Accounting.RunConserves` | src/parser/brc721_parser.rs:345-363 | Over any run no token appears that was not held or registered on the way, and none disappears unless a mix was rejected |
| `Placement.StepKeepsSingle` | src/parser/brc721_parser.rs:99-306 | While registrations name only new slots, none twice, a transaction of any kind leaves every token with at most one holder and no outpoint holding it twice |
| `Placement.RunKeepsSingle` | src/parser/brc721_parser.rs:345-363 | The same over every run |
| `SingleHolder.TransfersSequence` | src/parser/brc721_parser.rs:270-303 | Implicit transfer and burn hand on the input tokens in input order, none lost or doubled |
| `Placement.SingleKeptIff` | src/parser/brc721_parser.rs:99-306 | From single holding a transaction of any kind leads to single holding exactly when ranges it writes that share a token are one range at one output, and every holder of what it registers is spent by it |
| `Placement.RunKeepsSingleIff` | src/parser/brc721_parser.rs:345-363 | A run from single holding has single holders in every state exactly when every step meets that condition |
| `Registration.RegistersMeaning` | src/parser/register_ownership.rs:101-220 | A token is registered exactly when the named collection is known, the output input 0 spends can be looked up, at most 1,000,000 slots are named, its group is that collection with the hash of that output's script, and some item names its slot |
| `Registration.AcceptedMeaning` | src/parser/register_ownership.rs:8-34 | When a registration is stored, and under which group: collection by height and index, base from the very script input 0 spends |
| `Registration.RegisteredGroup` | src/parser/register_ownership.rs:8-34 | Every registered token has that group |
| `Registration.ItemsInOrder` | src/parser/register_ownership.rs:180-204 | The ranges of a group are its items one by one, bounds unchanged |
| `Registration.TotalIsTokens` | src/parser/register_ownership.rs:91-99 | The number held against the limit is the number of tokens the items stand for |
| `Registration.LimitExact` | src/parser/register_ownership.rs:129-148 | A message of 1,000,000 slots is within the limit, one of 1,000,001 is not |
| `Registration.RegistrationReaches` | src/parser/register_ownership.rs:148-220 | All or nothing, also when tokens are spent: an output holds the slots of its group and what was moved to it, and nothing registered is elsewhere; or nothing is registered at all |
| `Registration.RegistrationKeepsSingleIff` | src/parser/register_ownership.rs:148-205 | From single holding a registration, also one that spends tokens or repeats items, keeps it exactly when spent ranges stay apart, items that share a slot are repetitions within a group, an item that meets a spent range is that range at the same output, and every holder of a named slot is spent |
| `Placement.DoubleRegistration` | src/parser/register_ownership.rs:150-205 | Registering a slot that an untouched outpoint holds gives the token a second holder |
| `Examples.SlotRegisteredTwice` | src/parser/register_ownership.rs:150-205 | A concrete run: two ordinary registrations of slot 5 lead from single holding to two holders |
| `Examples.RepeatedItemCollapses` | src/parser/register_ownership.rs:180-204 | A concrete registration that lists slot 5 twice in one group: two ranges written, one stored, holders still single |
| `Examples.IdenticalRangesCollapse` | src/storage/sqlite.rs:413-448 | A concrete implicit transfer of two identical ranges to one output: two ranges written, one stored |
| `Registration.RegisteredRanges` | src/parser/register_ownership.rs:180-204 | An output that receives no spent tokens stores the items of its group in order, each once, and as given when none repeats; or nothing when the registration is not accepted |
| `Registration.RegistrationOrder` | src/parser/brc721_parser.rs:213-303 | The stored order at an output of a registration that also spends tokens: the items of its group, then the coalesced ranges of the inputs due to it, each range at its first place |
| `Scanner.Scanner.constructor` | src/scanner.rs:15-44 | The builder sets confirmations, start height and a batch size of at least one |
| `Scanner.Scanner.CollectReadyBlocks` | src/scanner.rs:62-71 | A batch is consecutive blocks from the current height, up to the first that is not ready |
| `Scanner.Scanner.NextBlocksWithShutdown` | src/scanner.rs:46-60 | Polls until there is a batch, shutdown or an error; the current height moves by the size of the batch |
| `Scanner.BatchConfirmed` | src/scanner.rs:73-87 | Each block of a batch was seen by a poll whose tip was at least `confirmations` above it |
| `Scanner.ReadyIff` | src/scanner.rs:73-87 | A fetch yields the block exactly when the tip is at least `confirmations` above it and the node has it; it waits exactly when the tip is lower |
| `Scanner.ShortBatch` | src/scanner.rs:62-71 | A batch ends early only where the tip is not yet `confirmations` above the next block |
| `Scanner.FailedBatch` | src/scanner.rs:62-87 | Collecting fails only where the tip cannot be read or a block is missing |
| `Scanner.EmptyBatch` | src/scanner.rs:46-60 | An empty batch comes only from shutdown, after passes that saw nothing confirmed and waited |
| `Chain.LastLinks` | src/core.rs:75-101 | A block is indexed only on an empty index, or at the next height and with the last hash as parent |
| `Chain.IndexBlockIff` | src/core.rs:53-101 | A block is indexed exactly when it is the first, or at the next height with the last hash as parent, and its transactions run; each of the three errors has its exact condition |
| `Chain.RoundCommitsIff` | src/core.rs:33-51 | A round that got blocks commits exactly when the transaction opens and commits, no call fails on the way and every block can be indexed; then it commits them all |
| `Chain.ShutdownEnds` | src/core.rs:24-30 | Rounds from a shutdown on change nothing |
| `Indexer.ProcessBlock` | src/core.rs:53-73 | Checks the link, then parses; both errors pass through |
| `Indexer.ProcessBatch` | src/core.rs:39-42 | The open transaction ends as the batch indexed block by block, or the first error is returned |
| `Indexer.Core.Step` | src/core.rs:33-51 | A step commits a whole batch or leaves the database as it was, whatever fails |
| `Indexer.Core.Run` | src/core.rs:24-30 | The loop is the fold of its steps until shutdown or the first error |
| `Confluence.RestartPoint` | src/app.rs:143-146 | A process resumes right behind the blocks already indexed |
| `Indexer.RunDaemon` | src/app.rs:57-79 | A process leaves the database its rounds lead to from the restart point |
| `Chain.SessionsReplay` | src/core.rs:33-51 | After any sessions the database is exactly its committed blocks indexed one at a time: batches leave no trace |
| `Chain.SessionsLinked` | src/core.rs:75-101 | Under any node answers committed heights rise by one, each block names the one before, and the saved last block is the end of the log |
| `Chain.HeightGapUnreachable` | src/core.rs:80-88 | No session on any database ends with the height mismatch error |
| `Chain.SessionsConfirmed` | src/scanner.rs:73-87 | Every indexed block was read while the tip was at least `confirmations` above it |
| `Chain.HealthyRoundCommits` | src/core.rs:33-51 | A round in which nothing fails and the whole batch is confirmed commits the whole batch, unless one of its blocks does not link or parse |
| `Chain.HealthyRunGrows` | src/core.rs:24-51 | Over healthy rounds on any chain the index grows by a whole batch each round, or the run ends on a wrong parent hash or a transaction error |
| `Confluence.LinkedRunGrows` | src/core.rs:24-51 | Along a hash-linked chain without failing transactions healthy rounds all succeed, and the index grows by exactly rounds x batch size |
| `Confluence.ChainIndexes` | src/core.rs:53-101 | Such a chain can be indexed to any length |
| `Confluence.PlanAgrees` | src/parser/register_ownership.rs:8-34 | A node that knows more transactions changes nothing about a transaction that succeeded |
| `Confluence.CommittedIsFold` | src/core.rs:33-51 | Against one chain, for any batch sizes, failures, crashes and restarts, the committed state is the chain folded block by block from the configured start to the saved height |
| `Confluence.SameHeightSameState` | src/core.rs:33-51 | Two histories that stopped at the same block have the same database |
| `Confluence.ReachableDatabase` | src/core.rs:33-51 | Every database the daemon can leave satisfies the table invariant, the accounting of tokens and, when registrations name new slots, single holding |
| `WalletTokens.CountTokens` | src/commands/tx.rs:334-367 | The total is the number of tokens the parser will find at the outpoints; fails exactly when an outpoint holds none or a u128 overflows |
| `WalletTokens.UtxoRowsCountTokens` | src/storage/sqlite.rs:621-635 | Adding up ranges utxo row by utxo row, in any order, counts the tokens of the outpoint |
| `WalletTokens.TokenOutpointsToLock` | src/commands/tx.rs:456-486 | The wallet's token outpoints that are not being spent |
| `WalletTokens.UnlockedIsPlain` | src/commands/tx.rs:463-485 | A wallet outpoint neither chosen nor locked holds no tokens for the parser |
| `WalletTokens.LockedIff` | src/commands/tx.rs:456-486 | An outpoint is locked exactly when the wallet lists it, it is not being spent and it holds a token |
| `WalletTokens.ParserSeesTokens` | src/parser/brc721_parser.rs:109-138 | The parser's indices count over the chosen outpoints in the order the wallet counted them |
| `WalletMix.ParseMixOutputs` | src/commands/tx.rs:488-537 | Accepts exactly when every argument splits at a colon into an address and ranges, exactly one takes the rest and the mix is valid, and returns scripts and ranges as given; how an address is read is a parameter |
| `WalletMix.ArgumentReads` | src/commands/tx.rs:500-505 | An argument is the address before its first colon and the selection after it; without a colon it is refused |
| `WalletMix.ComplementWords` | src/commands/tx.rs:507-521 | "*", and "rest" and "complement" in any case, ask for the complement, and nothing else does |
| `WalletMix.RangesRead` | src/commands/tx.rs:523-527 | A written list of single indices, half-open and inclusive ranges selects exactly those indices; it is refused when one is out of order or bounds or two overlap |
| `WalletMix.AskedIsReceived` | src/commands/tx.rs:507-527 | Entry k receives an index exactly when its argument lists it, or for the complement when none does |
| `WalletMix.PrepareMix` | src/commands/tx.rs:322-394 | Given parsed outpoints and the wallet's listed outputs, accepts exactly the requests that may be built, and returns them with their lock set |
| `WalletMix.MixAllowedIff` | src/commands/tx.rs:322-394 | In the user's terms: distinct wallet outpoints that each hold tokens, an address for every output, one that takes the rest, ranges in order that list no index twice and none past the tokens there are, and fewer than 2^128 tokens |
| `WalletMix.CreatePsbtForMix` | src/wallet/remote_wallet.rs:357-412 | The funded PSBT with the message at output 0 and the chosen inputs first; fails exactly on no inputs, a message script over 83 bytes, a missing input or mismatched metadata |
| `WalletMix.RequestCanBeBuilt` | src/wallet/remote_wallet.rs:357-412 | For an accepted request, funding as relied on and a message script of at most 83 bytes, `create_psbt_for_mix` succeeds |
| `WalletMix.WalletMixAccepted` | src/parser/mix.rs:91-170 | The transaction of the PSBT that `create_psbt_for_mix` returns for an accepted request passes every check of the indexer against the same index state |
| `WalletMix.WalletMixDelivers` | src/parser/mix.rs:239-281 | When the chosen outpoints share no token, address k receives exactly the tokens at the indices it asked for, in order; other holders do not matter |
| `WalletMix.WalletMixReaches` | src/parser/mix.rs:239-281 | For any chosen outpoints: a token is at address k's output exactly when its index is routed to k |
| `Psbt.ReorderPsbtInputs` | src/wallet/remote_wallet.rs:550-599 | Desired inputs first, the others after in their old order, metadata alongside; fails exactly when one is missing or counts do not match |
| `Psbt.DesiredFirst` | src/wallet/remote_wallet.rs:572-586 | The result starts with the desired inputs in the order asked for |
| `Psbt.OthersLast` | src/wallet/remote_wallet.rs:588-594 | After them come exactly the inputs not asked for |
| `Psbt.OthersInOrder` | src/wallet/remote_wallet.rs:588-594 | Inputs not asked for, and the metadata with them, keep their order |
| `Psbt.ReorderPermutes` | src/wallet/remote_wallet.rs:568-598 | With distinct desired inputs no input is lost or doubled |
| `Psbt.MetadataFollows` | src/wallet/remote_wallet.rs:568-598 | Every input stays beside its own metadata |
| `Psbt.MoveOpReturnFirst` | src/wallet/remote_wallet.rs:508-548 | The first OP_RETURN output moves to the front with its metadata; the order of the others stays |
| `Psbt.OpReturnFirstPermutes` | src/wallet/remote_wallet.rs:508-548 | Moving it loses and doubles no output, and every output stays beside its own metadata |
| `Psbt.SubstituteFirstOpReturnScript` | src/wallet/remote_wallet.rs:603-619 | Only the script of the first OP_RETURN output changes |
| `Psbt.MessageFirst` | src/wallet/remote_wallet.rs:406-407 | Together they put the message at output 0 and keep every other output in order |
| `RangeMerge.MergeRanges` | src/commands/wallet.rs:233-251 | The loop returns the fold of the sorted ranges |
| `RangeMerge.MergedCovers` | src/commands/wallet.rs:233-251 | Merging covers the same slots, for any input |
| `RangeMerge.MergedNormal` | src/commands/wallet.rs:233-251 | The result is sorted, disjoint and non-adjacent |
| `RangeMerge.NormalIsUnique` | src/commands/wallet.rs:233-251 | Only one such list covers a given set of slots |
| `RangeMerge.MergedIsCanonical` | src/commands/wallet.rs:233-251 | Two range lists merge alike exactly when they cover the same slots; a normal list is left alone |
| `RangeText.SlotRangesFromStr` | src/types/register_ownership.rs:44-108 | Accepts exactly comma-separated slots and strict inclusive ranges without overlap |
| `RangeText.IndexRangesFromStr` | src/types/mix.rs:45-125 | Accepts exactly comma-separated indices, half-open and inclusive ranges without overlap, as half-open ranges |
| `RangeText.HalfOpenReads` | src/types/mix.rs:45-125 | "a..b", with white space around the numbers, leaves out b: accepted exactly when a < b < 2^96 |
| `RangeText.InclusiveReads` | src/types/mix.rs:45-125 | "a..=b" includes b: accepted exactly when a <= b < 2^96 - 1 |
| `RangeText.SingleReads` | src/types/mix.rs:45-125 | One number is the range of that index alone: accepted exactly when it is below 2^96 - 1 |
| `RangeText.SlotsRead` | src/types/register_ownership.rs:44-108 | Slots are read as "a..=b" with a < b < 2^96, both included, or one at a time |
| `RangeText.ListReads` | src/types/mix.rs:45-125 | A comma-separated list of written ranges means those ranges in order, unless one is bad or two overlap |
| `RangeText.ParsedSlotsValid` | src/types/register_ownership.rs:44-108 | What parses is a group the ownership message accepts |
| `RangeText.ParsedIndicesValid` | src/types/mix.rs:45-125 | What parses is a list of ranges a mix output accepts |
| `RangeText.FormatReadsBack` | src/commands/wallet.rs:297-309 | Any non-empty list of disjoint slot ranges reads back from its printed form |
| `RangeText.MergedReadsBack` | src/commands/wallet.rs:233-309 | What the wallet prints for its merged ranges the register command reads back |
| `Text.DecimalReadsBack` | src/commands/wallet.rs:297-309 | A number printed in decimal reads back as itself |
| `Text.TrimPadded` | src/types/mix.rs:45-48 | Trimming removes white space on both sides and nothing else |
| `Text.AcceptsIff` | src/types/mix.rs:130-133 | A number is digits with at most one leading plus sign and below 2^128; leading zeros change nothing |
| `Text.SplitJoined` | src/types/register_ownership.rs:53-88 | Splitting at commas inverts joining with commas |

## Left out

- REST server, command-line definitions, tracing, context and deployment files: presentation only.
- Real SQLite: WAL, pragmas, migrations, `reset_all`, conversions between `i64` and unsigned columns and the text form of keys; the tables are values and the open transaction is a private copy.
- `list_unspent_ownership_utxos_by_owner`, `list_collections`: read-only listings no modelled operation uses.
- The order in which utxo rows of one outpoint are listed: the model leaves it open, and no result depends on it.
- Bitcoin Core RPC, PSBT funding, signing and broadcasting: foreign code; funding appears as the assumption `Funded`.
- Script instruction parsing and OP_RETURN building (src/types/brc721_op_return_output.rs), and the dummy OP_RETURN data used to size a transaction.
- Reading an address: a parameter, from its text to its script or nothing.
- WalletMix.PrepareMix: parsing outpoints, opening the database and the wallet, and building the OP_RETURN output can fail before or between its checks and are not modelled; outpoints and the wallet's outputs are given as data.
- Vector preallocation: `Vec::with_capacity` on a decoded count (src/types/mix.rs:354 and 378) can panic on a count the data cannot back, and stops the daemon when it does; the model decodes such a message to its error.
- Rejection.StepFailsIff: does not include that panic, because memory is not modelled.
- Log messages, asset id previews and the texts of errors; the wallet's errors are one value.
- Overflow of `u64` heights and of the scanner's height counter: heights are unbounded.
- The async tasks around the loop (src/app.rs): shutdown is read before each step and at the end of each polling pass.
- The wallet commands other than mix: they add no new rule to the index.
- `Brc721Token` packing: only its slot bound is used.
- A conflicting spend between building a mix and mining it: wallet and indexer are compared at one index state.
