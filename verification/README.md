# A verified model of the node's consensus core

The repository is a fork of Bitcoin 0.3.24 with merged mining (Ixcoin). This
project models, in Dafny, the parts of it that decide what the money is: which
blocks form the chain, what the transaction index says about them, which scripts
and proofs of work are accepted, how the bytes on the wire and on disk are read,
and what the miner puts into a block. It proves that these parts do what they are
for.

The model follows the source file by file. Code that changes things step by step
is a method with loops, on a class where the source has one (`CDataStream`,
`CTxDB`, `CBlockIndex`, the chain globals as `CMain`, `COrphan`, the merkle cache,
`base_uint`). Each such method is tied to a function or a declarative predicate,
and lemmas say what that means.

## What is proved

* **Chain state** (`Globals`, on `TxIndex`, `Ledger`, `Supply`, `Rules`, `Maturity`,
  `Chain`, `ChainState`, `Connect`, `TxDb`, `BlockIndex`). `CMain.Valid` is the invariant
  of the whole state, kept by every `AcceptBlock` and `AddToBlockIndex`, rolled-back
  ones included. `SettledMeaning` says what it means without reference to how the
  state came about: the index holds exactly the transactions above the root on
  the path to the tip, a slot is spent exactly when one input on that path spends
  the output and then names the spender, every input on the path satisfies the script of
  the output that the ledger says it names, no transaction but a coinbase takes out more
  than it brings in, the unspent value is within the subsidies (so never above 20,999,856
  coins), no coinbase is spent before it has matured, and every block on the path satisfies
  the rules. These rules are written down in `Rules` and `Chain.Approved` in terms of the
  ledger below a block, without index, files or order of tests, and `ConnectExact` proves
  that `ConnectBlock` accepts exactly the blocks that satisfy them. A transaction that
  spends something never gets onto a path twice. The `pnext` links form exactly the path.
* **Choice of the tip.** It is characterised both ways: the tip becomes exactly a new block
  with strictly more work to which the chain can move, that is, all blocks down to the
  highest common ancestor reload, and all blocks up from it reload and satisfy the rules.
  The work of a block is pinned by two inequalities as the quotient of 2^256 by its target
  plus one, `BestWork` says that the tip's is the sum of these over its path, and
  `SiblingStays` that a block beside the tip with a target no smaller never replaces it.
* **Undo.** Disconnecting a block restores the index it was connected to, exactly
  if none of its transaction hashes was there before. `AddTxIndex` overwrites
  without looking, so the condition is needed.
* **Miner** (`Template`, `Miner`, `Mined`). On any valid chain the template
  extends the chain's ledger to a valid one, takes parents before children, spends
  no output twice, stays under the size limit, and pays the miner the subsidy and
  exactly the fees. `TemplateConnects`: the block made from it satisfies the rules, so it
  is accepted by `ConnectBlock`, wherever in the files it is written. The fee asked for is
  given by bounds on price and pressure, and never falls as the block fills up.
* **Scripts** (`ScriptCode`, `MultiSig`, `ScriptMachine`, `EvalScript`, `ScriptLaws`). The byte
  loop with its condition stack is the recursive evaluation of nested blocks;
  unexecuted code has no effect but is still checked; the greedy multi-signature
  scan succeeds exactly if an order-preserving assignment exists; FindAndDelete
  deletes exactly the equal instructions. On top of the machine it is proved what scripts
  mean that people write: a payment to a key hash is redeemed by a signature and a key
  exactly if the key has that hash and the signature checks under it; a payment to some of
  several keys exactly if the signatures can be assigned in order; and the stack words do
  what their stack comments say.
* **Messages** (`DataStream`, `ByteSearch`, `Messages`). What is dispatched and kept
  does not depend on how the received bytes are split, what a peer sends is
  dispatched as sent, and a message altered on the way is dispatched exactly if its
  checksum is still right.
* **Merkle trees and aux proofs** (`Merkle`, `AuxPow`). The flat array is the
  recursive odd-duplicating tree, branches prove exactly their leaf, the transaction of an
  accepted aux proof is the parent block's coinbase, two chains get the same slot exactly if
  their IDs agree modulo the size, and a coinbase script with the merged mining header
  commits to one aux block. Two results are negative, and their exact conditions are
  proved. Unequal lists can share a root: they do exactly if, at the height of the lower tree, both trees agree
  leaf by leaf once the copies are filled in. Without the header a script can commit
  to two blocks: it does exactly if there is room for two commitments in its first 20
  bytes. Their roots then overlap in at least 12 bytes; the example in `HeaderMatters`
  is the hash 0 and a hash with 12 leading zero bytes.
* **Difficulty, locators, codecs, limbs** (`Difficulty`, `Locator`, `Bignum`,
  `Serialize`, `Layout`, `Base58`, `UInt`). Steps and bounds of the retarget and of compact
  form, exactly when a retarget leaves a valid target (a target of 1 can vanish), the factor
  of two in the locator, round trips, which byte of a serialized block, transaction or aux
  proof holds what, and limb loops that refine arithmetic modulo 2^BITS for
  every width.

## What is assumed

* Hash functions, `CheckSig` and script verification are deterministic functions,
  given as parameters (`World`, `Env`, `PairHash`, `Checksum`). Where a row speaks of
  hashing without collision, what is assumed is that no two different pairs have the
  same hash among those hashed in the computations compared, not among all pairs.
* No two different transactions of a block and of the path below it have the same
  hash, and the coinbase of a block does not repeat one on that path
  (`CMain.HashesTellOf`). The source relies on this without checking it. Of other
  transactions nothing is assumed: a block may repeat them, is then stored and
  indexed, and is turned away when it should connect.
* The first block indexed is the genesis block, has positive work and is never
  connected, as at src/main.cpp:1165-1171. No block names itself as its parent.
* Database writes and commits succeed. A failed one would be an error return
  in the source.
* Contextual block checks (proof of work, timestamps, finality, checkpoints) are the
  parameters `checkHeader`, `checkDisk` and `checksOk`: any outcome is allowed.

Where code and comment disagree the code is modelled. `GetNextWorkRequired` reads
`pindexLast` before testing it for null, so the branch for the genesis block
(src/main.cpp:670-672) cannot be reached. The comment at src/main.cpp:651 speaks of
halving every four years, while the code ends the subsidy at height 227499.
OP_CHECKMULTISIG takes one item more off the stack than its comment lists.

## Model

| member | source | states |
|---|---|---|
| Bignum.VchRoundTrip | src/bignum.h:227-252 | setvch undoes getvch for every integer, sign and extra sign byte included |
| Bignum.VchCanonical | src/bignum.h:227-252 | getvch undoes setvch exactly for the minimal encodings: no byte can be dropped without losing the value or the sign |
| Serialize.CompactSizeRoundTrip | src/serialize.h:178-240 | a written compact size reads back exactly up to MAX_SIZE; above it the reader refuses |
| Serialize.TxRoundTrip | src/main.h:413-423 | a serialized transaction reads back, whatever follows, exactly when all its lengths are within MAX_SIZE |
| Serialize.BlockRoundTrip | src/main.h:821-838 | a serialized block, with or without an aux proof, reads back with what follows it untouched |
| Serialize.SizeBlockExact | src/serialize.h:442-449 | the size computed without writing is the number of bytes written, for blocks with and without aux proof, header only or whole |
| Serialize.TxStartExact | src/main.cpp:1032-1041 | header size, count size and the sizes of the earlier transactions add up to the offset at which a transaction starts in the written block |
| Serialize.ReadAtTxStart | src/main.h:576-605 | reading a transaction at its offset in a written block gives back that transaction |
| Serialize.ParsedIsCanonical | src/auxpow.h:63-78 | the reader only produces blocks whose aux proof is present exactly when the version bit says so |
| Serialize.SmallBlockIsReadable | src/main.cpp:1331-1332 | a block within the size limit has only lengths that read back |
| Serialize.BytesRoundTrip | src/serialize.h:458-499 | a byte vector put on a stream comes off it, exactly up to MAX_SIZE |
| Layout.HeaderLayout | src/main.h:821-830 | the 80 bytes that are hashed: version, previous block, merkle root, time, bits, nonce, least significant byte first, at 0, 4, 36, 68, 72, 76 |
| Layout.CompactSizeLayout | src/serialize.h:178-206 | a size below 253 is its own byte; a larger one follows the byte that says in how many |
| Layout.TxInLayout | src/main.h:277-282 | hash, output number, script and sequence number stand where the script length puts them |
| Layout.TxOutLayout | src/main.h:346-350 | the value in eight bytes, then the script |
| Layout.TxLayout | src/main.h:413-420 | the version, the inputs, the outputs, the lock time, in this order |
| Layout.BlockLayout | src/main.h:821-838 | the header, then an aux proof exactly if the second byte is odd, then the transactions |
| Layout.AuxPowLayout | src/auxpow.h:24-44 | the parent's coinbase, the parent's hash, the two branches each with its index, the parent's header |
| DataStream.CDataStream.Write | src/serialize.h:1054-1060 | bytes go to the end of what is ahead |
| DataStream.CDataStream.EraseFront | src/serialize.h:949-967 | exactly the first k bytes ahead go, whether or not the buffer is cleared |
| DataStream.CDataStream.InsertFront | src/serialize.h:906-916 | the bytes come in front of those ahead, on both paths: over bytes already read and by growing the buffer |
| DataStream.CDataStream.Compact | src/serialize.h:969-973 | dropping the bytes already read changes nothing ahead |
| DataStream.CDataStream.Rewind | src/serialize.h:975-982 | succeeds exactly when the bytes are still there, and then puts them back ahead |
| DataStream.CDataStream.Read | src/serialize.h:1011-1032 | takes exactly n bytes, or fails exactly when there are fewer and leaves them |
| DataStream.CDataStream.Ignore | src/serialize.h:1034-1052 | the same without handing the bytes out |
| DataStream.CDataStream.WriteCompactSize | src/serialize.h:178-206 | appends the compact size |
| DataStream.CDataStream.ReadCompactSize | src/serialize.h:210-240 | takes a compact size off the stream, failing exactly at the end of data or above MAX_SIZE |
| DataStream.CDataStream.WriteVector | src/serialize.h:458-464 | appends the size and the bytes |
| DataStream.CDataStream.ReadVector | src/serialize.h:482-499 | the block-wise reader takes off exactly the vector that the size announces, or fails exactly when it is not all there |
| ByteSearch.SearchFirst | src/auxpow.cpp:46-50 | no occurrence lies before the position found, and a pattern that occurs is found |
| ByteSearch.SearchFinds | src/auxpow.cpp:46-50 | the position found is an occurrence |
| Messages.IsValid | src/net.h:113-141 | accepts exactly a right start, a command of printable characters followed by zeros only, and a size within MAX_SIZE |
| Messages.ReadMessage | src/main.cpp:2425-2467 | one turn from a message start on: waits with all bytes put back, drops the header alone, or dispatches data with the right checksum |
| Messages.ProcessMessages | src/main.cpp:2390-2506 | one call dispatches and keeps exactly what the recursive reading of the buffered bytes says, with the rewind and the trimming of garbage |
| Messages.ProcessSplit | src/main.cpp:2408-2448 | processing some bytes and later more dispatches the same messages and leaves the same bytes as processing them together |
| Messages.ReceiveIsProcess | src/main.cpp:2390-2506 | any sequence of chunks amounts to one call on their concatenation |
| Messages.ChunkingIrrelevant | src/main.cpp:2390-2506 | two ways of splitting the same bytes dispatch the same messages and keep the same bytes |
| Messages.DispatchedIsFound | src/main.cpp:2425-2467 | what is dispatched is the message found at the first message start: its header is valid, its data are the bytes announced, from version 209 on its checksum is the one in the header, and what is kept is what follows |
| Messages.AlteredIsDispatched | src/main.cpp:2449-2460 | the header of a sent message followed by data of the same length is dispatched exactly if the data has the checksum of what was sent; otherwise the header alone goes |
| Messages.PushMessage | src/net.h:675-731 | what is sent is the header with size and checksum filled in at their offsets, then the data |
| Messages.SentIsDispatched | src/net.h:675-731 | a sent message is dispatched as sent exactly if its data is within MAX_SIZE; otherwise its header is dropped |
| Messages.StreamRoundTrip | src/main.cpp:2408-2467 | a stream of sent messages is dispatched message by message with nothing left over |
| Messages.Resynchronises | src/main.cpp:2410-2423 | garbage before a message is skipped when no message start lies in it or overlaps its end |
| TxIndex.UndoInputs | src/main.cpp:810-841 | relinquishing the inputs of a transaction restores the index it was connected to |
| TxIndex.UndoTx | src/main.cpp:810-841 | disconnecting a transaction right after connecting it restores the index |
| TxIndex.DisconnectUndoesConnect | src/main.cpp:1007-1045 | disconnecting a just connected block in reverse order, also when its transactions spend one another, restores the index exactly if none of its transaction hashes was in the index before |
| TxIndex.DisconnectRemovesTxids | src/main.cpp:835-836 | a disconnected block leaves none of its transaction hashes in the index |
| Ledger.ConnectTxOnLedger | src/main.cpp:844-956 | a connected transaction appends itself to the ledger the index stands for, and the ledger stays valid |
| Ledger.ConnectEntriesOnLedger | src/main.cpp:1034-1044 | the same for all transactions of a block |
| Ledger.DisconnectEntriesOnLedger | src/main.cpp:1007-1012 | disconnecting takes a block's transactions off the end of the ledger |
| Ledger.SpentMeaning | src/main.cpp:902-919 | an output counts as spent exactly when one transaction of the ledger spends it, and the position recorded is that transaction's |
| Ledger.IndexMeaning | src/main.h:710-716 | the index holds exactly the transactions of the ledger; a slot is non-null exactly when one input spends that output, and then holds the spender's position |
| Ledger.RepeatRejected | src/main.cpp:902-904 | a transaction that spends something and is in the ledger already is turned away when it is to be connected again |
| Ledger.ConnectedAreDistinct | src/main.cpp:1034-1044 | if hashes do not collide and the first transaction is new, all transactions of a block that connects are new and different from one another |
| Ledger.NoDoubleSpend | src/main.cpp:902-904 | no two inputs of the ledger spend the same output |
| Supply.SubsidyValues | src/main.cpp:647-659 | 96 coins up to height 209999, 48 up to 227498, nothing from 227499 on |
| Supply.TotalSubsidyBound | src/main.cpp:647-659 | all subsidies up to any height sum to at most 20,999,856 coins, below MAX_MONEY |
| Supply.InputsTakeTheirValue | src/main.cpp:906-919 | what the inputs bring in is what the unspent outputs of the index lose |
| Supply.ConnectTxConserves | src/main.cpp:933-945 | unspent value plus fees changes only by what a coinbase mints |
| Supply.ConnectEntriesConserves | src/main.cpp:1034-1047 | the same over a whole block |
| Rules.InputsExact | src/main.cpp:891-919 | the loop over the inputs succeeds exactly if each names an existing output that is unspent, satisfies its script, does not take it from an immature coinbase, no two name the same, and the sum is in range; it then has added up exactly the value of the outputs named |
| Rules.TxExact | src/main.cpp:844-956 | a transaction connects on a ledger exactly if the rules let it come next and, unless it is a coinbase, it pays the fee asked for; it adds exactly its fee |
| Rules.EntriesExact | src/main.cpp:1034-1044 | a list of transactions connects exactly if they come in a right order with fees in range, and then stands at the ledger they make with the fees added up |
| BlockIndex.WorkExact | src/main.h:1104-1111 | no work for a target that is not positive; otherwise the whole number n with n (t + 1) <= 2^256 < (n + 1) (t + 1) |
| BlockIndex.BlockWorkExact | src/main.h:1104-1111 | the same of the bits of a block |
| BlockIndex.EasierIsLess | src/main.h:1104-1111 | a larger target never stands for more work |
| BlockIndex.FindFork | src/main.cpp:1071-1083 | the two-pointer loop ends at the highest common ancestor, or fails exactly when there is none |
| BlockIndex.FindImmature | src/main.cpp:896-899 | finds exactly whether a block fewer than COINBASE_MATURITY back lies at the position |
| TxDb.CTxDB.TxnBegin | src/db.h:215-225 | opens a transaction that starts from what is current |
| TxDb.CTxDB.TxnCommit | src/db.h:227-236 | the innermost transaction's state becomes that of the level below |
| TxDb.CTxDB.TxnAbort | src/db.h:238-247 | the innermost transaction's state is forgotten and the level below is as it was |
| Connect.CheckTransaction | src/main.cpp:299-335 | accepts exactly the transactions with inputs and outputs, in size, with every value and the total in range, and a fitting coinbase script or no null input |
| Connect.TxOkMeans | src/main.cpp:299-335 | what it accepts, said of the bytes and the amounts: at most a million bytes, values and total from 0 to 21 million coins, a coinbase script of 2 to 100 bytes, no null input elsewhere |
| Connect.GetValueOut | src/main.h:512-522 | the running sum neither throws nor overflows on outputs in range |
| Connect.CheckBlock | src/main.cpp:1325-1363 | accepts exactly the blocks of the right size whose first transaction alone is a coinbase, all of whose transactions pass, and that pass the header checks |
| Connect.BlockOkMeans | src/main.cpp:1325-1363 | what it accepts, said of the bytes: at most a million, the first transaction and no other a coinbase, all of them passing |
| Connect.TestInput | src/main.cpp:891-914 | an input passes exactly if the output exists, is mature, signed for, unspent and in range, and the sum stays in range |
| Connect.ConnectInputs | src/main.cpp:844-956 | the new index, the fees and the outcome are those of the step function, in block and miner mode; no int64 sum overflows; on failure in miner mode nothing is written |
| Connect.DisconnectInputs | src/main.cpp:810-841 | clears exactly the named slots and erases the transaction |
| Connect.GetBlockValue | src/main.cpp:647-659 | subsidy plus fees |
| Connect.ConnectBlock | src/main.cpp:1027-1065 | succeeds exactly when the block passes its checks, its transactions connect at their byte offsets, and the coinbase takes at most subsidy and fees (ConnectExact says which blocks these are); then the store holds the new index and link |
| Connect.DisconnectBlock | src/main.cpp:1007-1025 | undoes the transactions last first and clears the link below |
| Maturity.EntriesRipe | src/main.cpp:895-899 | no input of a connected block names an immature coinbase |
| ChainState.YoungExact | src/main.cpp:895-899 | a coinbase below a block is too young for it exactly if it is fewer than COINBASE_MATURITY blocks down |
| Chain.StoredTxReads | src/main.cpp:1032-1041 | every position recorded for a stored block reads back as its own transaction and fits 32 bits |
| Chain.ConnectExtends | src/main.cpp:1027-1048 | an accepted block extends a sound chain: valid ledger, money within the subsidies, no immature spend |
| Chain.ConnectMature | src/main.cpp:895-899 | the accepted block spends no coinbase of a block fewer than COINBASE_MATURITY below it, itself included |
| Chain.DisconnectShrinks | src/main.cpp:1007-1025 | disconnecting the top block gives exactly the index of the shorter chain |
| Chain.ConnectExact | src/main.cpp:1027-1065 | on the index of a valid ledger ConnectBlock accepts exactly the blocks that satisfy the rules on top of it: own checks, transactions in a right order, signed for, mature and funded, fees in range, the coinbase within subsidy and fees |
| ChainState.PathRightful | src/main.cpp:901-903 | every input on a path of such blocks satisfies the script of the output that the ledger says it names, and no transaction but a coinbase takes out more than it brings in |
| ChainState.ChainWork | src/main.cpp:1250 | the work recorded for a block is the sum over its path |
| ChainState.EasierSibling | src/main.h:1104-1111 | of two blocks on one parent the one with the larger target never has more work |
| ChainState.SettledMeaning | src/main.cpp:1160-1219 | in every settled state: the index holds exactly the transactions above the root on the path to the tip, slots tell exactly the spends on it, unspent value is within the subsidies and below MAX_MONEY, no block spends a coinbase fewer than COINBASE_MATURITY below it, every input satisfies the script of the output it names, no transaction but a coinbase makes money, and every block satisfies the rules and the checks of its own bytes |
| ChainState.ConnectSettles | src/main.cpp:1092-1108 | on a settled store a block connects exactly if it satisfies the rules, whatever the pool and the files hold besides, and then settles it one block higher |
| ChainState.RepeatDoesNotConnect | src/main.cpp:902-904 | a block that has a transaction twice, or repeats one of the path below it, does not connect |
| ChainState.StoreBack | src/main.cpp:1079-1091 | the top block of a settled store always disconnects, and settles it one block lower |
| ChainState.BlockAppended | src/main.h:924-953 | appending a block to the files keeps every indexed block readable |
| Globals.CMain.IsInMainChain | src/main.h:1113-1116 | pnext or being the tip means exactly being the tip or one of its ancestors |
| Globals.CMain.ReadFromDisk | src/main.cpp:616-628 | gives the indexed block, or fails exactly when it does not pass the header check |
| Globals.CMain.DisconnectBranch | src/main.cpp:1098-1111 | the loop over the old branch leaves the index of the fork, failing exactly when a block does not reload |
| Globals.CMain.ConnectBranch | src/main.cpp:1113-1131 | the loop over the new branch leaves the index of the new tip, failing exactly at a block that does not reload or does not satisfy the rules |
| Globals.CMain.UnlinkBranch | src/main.cpp:1139-1142 | clears pnext so that the links form the path to the fork |
| Globals.CMain.LinkBranch | src/main.cpp:1144-1147 | sets pnext so that the links form the path to the new tip |
| Globals.CMain.Reorganize | src/main.cpp:1067-1157 | succeeds exactly when all blocks down to the highest common ancestor reload and all up from it reload and satisfy the rules; then store and links are those of the new path, otherwise both are as before |
| Globals.CMain.SetBestChain | src/main.cpp:1160-1219 | the new block becomes the tip exactly if it is the first one or the chain can move to it; otherwise the committed store, all links and all cached values are as before |
| Globals.CMain.AddToBlockIndex | src/main.cpp:1222-1268 | keeps the invariant of the whole chain state; the tip becomes the new block exactly if it has strictly more work and the chain can move to it |
| Globals.CMain.BestWork | src/main.cpp:1250-1252 | the work of the tip is the sum of the quotients that WorkExact describes over its path |
| Globals.CMain.SiblingStays | src/main.cpp:1250-1262 | a new block beside the tip with a target no smaller leaves it the tip |
| Globals.CMain.AppendBlockFile | src/main.cpp:1563-1582 | the first file from the current one on with room for the largest object |
| Globals.CMain.WriteToDisk | src/main.h:924-953 | appends exactly message start, size and block, and the block reads back from the position returned |
| Globals.CMain.AcceptBlock | src/main.cpp:1365-1420 | duplicates, orphans and blocks failing the contextual checks change nothing; an accepted block is stored and moves the tip exactly as AddToBlockIndex says |
| Template.RejectedLeavesFees | src/main.cpp:942-945 | nFees keeps its value when a transaction is turned away, as long as all the money there is stays in range |
| Template.IncludeOne | src/main.cpp:2908-2918 | a candidate that connects extends the template to a valid ledger with the right fees; one that does not changes nothing |
| Template.TemplateOrder | src/main.cpp:2908-2935 | in a template parents come before children, no outpoint is spent twice, and none that the chain has spent |
| Template.ParentsFirst | src/main.cpp:860-868 | every input of a valid ledger names an earlier transaction |
| Miner.Collect | src/main.cpp:2827-2883 | every final pool transaction starts in the queue exactly if nothing keeps it waiting, and otherwise as an orphan listed under all it waits for |
| Miner.CollectOne | src/main.cpp:2837-2866 | one candidate waits for exactly the hashes of its inputs that cannot be read |
| Miner.Release | src/main.cpp:2920-2934 | after a transaction is included exactly those orphans enter the queue, once each, that waited for nothing else |
| Miner.Begin | src/main.cpp:2891-2894 | the transaction taken has the highest priority in the queue |
| Miner.MinFeeFree | src/main.h:531-574 | free are exactly the transactions allowed to be, in the first 27000 bytes, without an output below a cent; with one they pay the base fee |
| Miner.MinFeeRate | src/main.h:531-574 | the others pay 10000 for every started kilobyte in the first half of the block, in the other half that as many times over as the room left goes into the whole, and MAX_MONEY when it is full |
| Miner.MinFeeMonotone | src/main.h:562-568 | the fee never falls as the block fills up |
| Miner.Consider | src/main.cpp:2896-2918 | a transaction goes in exactly if there is room for its size and signature operations and it connects after the others paying the fee required at that size |
| Miner.BestIsChoice | src/main.cpp:2889-2894 | the first of the queue is the best of all candidates not yet considered whose parents are in the block |
| Miner.FillBlock | src/main.cpp:2885-2935 | terminates; the candidates were considered greedily, each the best of those ready at its turn, and included exactly when admissible then; in the end nothing ready is left; the result extends the chain's ledger validly within the size and signature limits |
| Miner.CreateNewBlock | src/main.cpp:2801-2936 | the same on any chain in a valid state, with a coinbase of the next subsidy plus exactly the fees of the included transactions; nothing is written |
| Miner.TemplateOnce | src/main.cpp:2889-2934 | no pool transaction is in the template twice |
| Miner.TemplateSize | src/main.cpp:2887-2917 | the serialized block stays below MAX_BLOCK_SIZE_GEN if the coinbase fits the bytes set aside |
| Mined.EntriesSimilar | src/main.cpp:2908-2913 | transactions that connect for the miner from memory connect at their places on disk for the same fees |
| Mined.StillMature | src/main.cpp:895-899 | what is mature for the miner at the tip is mature for the block above it |
| Mined.TemplateConnects | src/main.cpp:2801-2936 | a block that carries a template on top of the chain it was made for and claims no more than subsidy and fees satisfies the rules, so ConnectBlock accepts it |
| ScriptCode.GetOp2 | src/script.h:521-572 | reads exactly the first instruction, or fails exactly on the end and on truncated ones |
| ScriptCode.ReadOpLocal | src/script.h:521-572 | reading an instruction does not depend on what follows it |
| ScriptCode.PushDecodes | src/script.h:458-483 | pushed data of any size class decodes back as one instruction |
| ScriptCode.PushIntDecodes | src/script.h:352-364 | a pushed number decodes back, small ones from the opcode itself |
| ScriptCode.FindAndDelete | src/script.h:575-587 | the do-while loop over erase and GetOp terminates and computes the recursive deletion, for any pattern |
| ScriptCode.DeletedDropsInstructions | src/script.h:575-587 | for the encoding of one instruction it drops exactly the instructions equal to it and keeps any malformed tail |
| ScriptCode.SignatureDropped | src/script.cpp:751-754 | deleting a signature drops exactly the instructions that push it |
| ScriptCode.RawOpsMakeScript | src/script.h:521-572 | a script is its raw instructions followed by a tail from which none can be read |
| ScriptCode.DeleteIdempotent | src/script.h:575-587 | deleting leaves exactly the other instructions and the tail, so deleting again changes nothing |
| MultiSig.ScanStep | src/script.cpp:808-828 | taking the first matching key for the first signature loses no assignment |
| MultiSig.ScanSignatures | src/script.cpp:808-828 | the greedy scan succeeds exactly if all signatures can be assigned to distinct keys in order so that each checks |
| MultiSig.SignedReverse | src/script.cpp:808-828 | an assignment in order exists exactly if one exists with both lists turned round |
| ScriptMachine.CastToBool | src/script.cpp:33-46 | true exactly for the vectors that encode a number other than zero, negative zero and padding included |
| ScriptMachine.Duplicate | src/script.cpp:248-345 | the words that copy the top items do what their stack comments say, or fail exactly on too few items |
| ScriptMachine.CopyOver | src/script.cpp:274-413 | so do those that copy from below the top or to there |
| ScriptMachine.Drop | src/script.cpp:238-354 | so do those that drop items |
| ScriptMachine.Rearrange | src/script.cpp:384-403 | so do those that move items |
| ScriptMachine.RearrangePairs | src/script.cpp:286-307 | so do those that move pairs |
| ScriptMachine.PickOrRoll | src/script.cpp:366-382 | copies or moves the n-th item, failing exactly on too few items and a bad n |
| ScriptMachine.RollPermutes | src/script.cpp:366-382 | rolling changes the order of the items and nothing else |
| ScriptMachine.NumericMeaning | src/script.cpp:560-691 | a numeric word succeeds exactly if all its numbers are there and have at most four bytes, and, when it verifies, are equal; the item it leaves reads back as the number that answers (the sum, the truth of the comparison, and so on), in its shortest form and at most five bytes, and what lies below is untouched |
| ScriptMachine.EncodingUnique | src/bignum.h:227-252 | only one item can be the encoding of that number |
| ScriptMachine.TestOp | src/script.cpp:736-769 | verify, equality and signature words with their verifying forms, the signature removed from the signed code |
| ScriptMachine.CheckMultiSig | src/script.cpp:771-842 | bookkeeping of counts, limits and the extra item; success exactly if an assignment of signatures to keys exists for the code without those signatures |
| ScriptMachine.ExecuteOp | src/script.cpp:119-846 | one executed instruction, other than the conditionals |
| EvalScript.BlockRuns | src/script.cpp:161-194 | the flat machine runs a nested block of code as the recursive evaluator does, whatever the enclosing conditions |
| EvalScript.FlatIsNested | src/script.cpp:87-194 | on every instruction sequence the flat machine with its condition stack gives the result of evaluating nested IF, repeated ELSE and ENDIF, and fails when they do not match up |
| EvalScript.ParseOfFlat | src/script.cpp:161-194 | the block structure of a script is the only one |
| EvalScript.UnexecutedBlock | src/script.cpp:88-125 | unexecuted code touches neither stack, and fails exactly when one of its instructions is illegal or there are too many |
| EvalScript.RunKeeps | src/script.cpp:95-121 | a run that succeeds has passed every instruction through the decode, size, count and disabled checks and stayed within all limits, items of at most 520 bytes included |
| EvalScript.EvalScript | src/script.cpp:69-863 | the loop over the bytes succeeds exactly when nested evaluation does, with the same stack |
| EvalScript.VerifyScript | src/script.cpp:1152-1162 | the two scripts are evaluated apart on one stack, whose top must be true |
| EvalScript.EvaluateKeepsLimits | src/script.cpp:78-121 | a script that succeeds has at most 10000 bytes, no disabled word anywhere, executed or not, and leaves at most 1000 items of at most 520 bytes |
| ScriptLaws.PayToKeyHash | src/script.cpp:1152-1162 | a payment to a key hash is redeemed by a signature and a key exactly if both fit an item, the key has that hash, and the signature checks under it for the script without pushes of the signature |
| ScriptLaws.PayToMultiSig | src/script.cpp:771-842 | a payment to several keys is redeemed by so many signatures exactly if these can be assigned in order to keys under which they check |
| ScriptLaws.CheckSigWord | src/script.cpp:736-769 | the signature lies below the key, and signs the code without itself |
| ScriptLaws.MultiSigLeaves | src/script.cpp:771-842 | signatures and keys lie in order, the keys on top, and the item below them all is taken too |
| ScriptLaws.SeparatedCode | src/script.cpp:729-734 | after a separator only what follows it is signed |
| ScriptLaws.Chooses | src/script.cpp:161-194 | IF takes the first branch exactly on a true item, NOTIF exactly on a false one |
| ScriptLaws.OneItemWords | src/script.cpp:328-345 | DROP and DUP, by their stack comments |
| ScriptLaws.TwoItemWords | src/script.cpp:347-413 | NIP, OVER, SWAP and TUCK, by their stack comments |
| ScriptLaws.PairWords | src/script.cpp:238-259 | 2DROP and 2DUP, by their stack comments |
| ScriptLaws.ThreeItemWords | src/script.cpp:261-394 | 3DUP and ROT, by their stack comments |
| ScriptLaws.FourItemWords | src/script.cpp:274-307 | 2OVER and 2SWAP, by their stack comments |
| ScriptLaws.SixItemWords | src/script.cpp:286-297 | 2ROT, by its stack comment |
| ScriptLaws.TooFewItems | src/script.cpp:238-413 | they fail exactly on too few items |
| ScriptLaws.PickIs | src/script.cpp:366-382 | PICK copies the item n below the top and ROLL moves it there, failing exactly if there is none |
| ScriptLaws.TestingWords | src/script.cpp:196-318 | VERIFY drops a number other than zero and fails on zero; IFDUP copies it and leaves a zero alone |
| ScriptLaws.DepthLeaves | src/script.cpp:320-326 | DEPTH leaves the shortest encoding of the number of items |
| ScriptLaws.SizeLeaves | src/script.cpp:474-482 | SIZE leaves that of the length of the top item, and the item itself |
| ScriptLaws.NumberLeaves | src/script.cpp:128-151 | a small number pushes its own encoding |
| ScriptLaws.ThereAndBack | src/script.cpp:219-236 | what is put on the alternate stack comes back |
| Merkle.CheckMerkleBranch | src/main.h:909-922 | folds the branch by the bits of the index; 0 for index -1 |
| Merkle.TreeUp | src/main.h:873-890 | hashing neighbours, the odd one with itself, takes one level off the recursive tree |
| Merkle.BranchLeadsToRoot | src/main.h:892-922 | every transaction's branch leads to the root |
| Merkle.BranchProves | src/main.h:909-922 | where hashing does not collide, a branch of the tree's height leads to the root exactly for the transaction at that index |
| Merkle.RootOfFew | src/main.h:873-890 | the root of one, two and three leaves: the left hash first, the odd one with itself |
| Merkle.SameRoot | src/main.h:873-890 | where hashing does not collide, two lists have the same root exactly if their trees, copies filled in, are the same down to any level that both have |
| Merkle.SameHeightRoot | src/main.h:873-890 | so lists whose trees have the same height have the same root exactly if their full trees are the same |
| Merkle.FullAt | src/main.h:873-890 | leaf i of a full tree is an item of the list at a place that only the length and i determine |
| Merkle.RootInjective | src/main.h:873-890 | so lists of equal length have equal roots exactly if they are equal |
| Merkle.OddListRepeats | src/main.h:873-890 | an odd list longer than one and the same list with its last item twice have the same full tree, and the same root whatever the hash |
| Merkle.OddEndRepeats | src/main.h:873-890 | the smallest such pair: three leaves, and four of which the last two are the same |
| Merkle.CBlockTree.BuildMerkleTree | src/main.h:873-890 | the flat array is all levels in a row, and the result is the root of the recursive tree |
| Merkle.CBlockTree.GetMerkleBranch | src/main.h:892-907 | the branch read off the flat array is that of the recursive tree |
| AuxPow.CheckHeader | src/auxpow.cpp:55-70 | accepts exactly a single header just before the root, or no header and a root in the first 20 bytes |
| AuxPow.CheckSlot | src/auxpow.cpp:73-100 | accepts exactly the right size, and the index that nonce and chain ID determine |
| AuxPow.Check | src/auxpow.cpp:21-103 | accepts exactly the proofs whose first occurrence of the root is well placed and whose branches fit |
| AuxPow.CoinbaseOfParent | src/auxpow.cpp:25-39 | where hashing does not collide, the transaction of an accepted proof is the first of the parent block and its branch that of place 0; the parent is of another chain, except on the test net |
| AuxPow.CoinbaseIsAccepted | src/auxpow.cpp:21-103 | conversely the first transaction of a parent of another chain, with its branch, is accepted if its script commits to the block |
| AuxPow.MadeCommits | src/auxpow.cpp:43-100 | a script with header, root, size and nonce behind one another commits exactly if the size is that of the branch and the index is the slot for this nonce and chain, where header and root are not also elsewhere in it |
| AuxPow.BigEndianAt | src/auxpow.cpp:34-35 | the root is looked for most significant byte first |
| AuxPow.ChainIDReads | src/main.h:840-843 | a version made of a chain and flags is of that chain |
| AuxPow.SlotIsPolynomial | src/auxpow.cpp:85-100 | the steps of 32 bits lose nothing: the place is that of the polynomial, reduced once by the size |
| AuxPow.SlotsClash | src/auxpow.cpp:85-100 | two chains have the same place exactly if their IDs agree modulo the size |
| AuxPow.PlaceIsClaim | src/auxpow.cpp:43-100 | where hashing does not collide, two commitments in one script, with the header or not, are at the same place exactly if they are to the same block with the same branch and index |
| AuxPow.OneCommitment | src/auxpow.cpp:43-100 | with the header the place is the same, so root, branch length and index are, and where hashing does not collide the block is |
| AuxPow.SameWorkOnce | src/auxpow.cpp:43-103 | two accepted proofs with the same script containing the header, for one chain, are proofs of the same block, where hashing does not collide |
| AuxPow.RoomExact | src/auxpow.cpp:46-100 | there is a commitment at a place exactly if the 32 bytes there are the first of their kind, well placed, followed by a size and a nonce, and the root of a tree of that size seen from that leaf |
| AuxPow.SizeOneReached | src/auxpow.cpp:81-84 | where the size is 1 every root is one: the block hash itself |
| AuxPow.TwoPlaces | src/auxpow.cpp:55-70 | a script commits at two places exactly if it has no header and there is room at both, the later one being within the first 20 bytes |
| AuxPow.RootsOverlap | src/auxpow.cpp:64-70 | of two such roots the later begins with at least 12 bytes that end the earlier |
| AuxPow.HeaderMatters | src/auxpow.cpp:64-70 | a script where it happens: one proof is accepted for the hash 0 and for a hash with 12 leading zero bytes |
| Difficulty.CompactPrecision | src/bignum.h:254-279 | compact form never rounds up or to zero and loses less than one part in 2^15 |
| Difficulty.CompactValue | src/bignum.h:254-265 | with at least three bytes, compact form is the mantissa times a power of 256, negative if the sign bit is set |
| Difficulty.TimespanClamped | src/main.cpp:695-723 | the step is limited to a factor of 4 each way before the change of rule, and to 9/10 down and 4 up after it |
| Difficulty.TimespanSteps | src/main.cpp:708-716 | after the change of rule less than 16/50, less than 32/50 and the rest of a day count as 45/50, 47/50 and 49/50 |
| Difficulty.TimespanMonotone | src/main.cpp:695-723 | a longer time never counts as less |
| Difficulty.PeriodMeasured | src/main.cpp:663-692 | periods are of 2016 blocks and, from the change of rule on, of 144; the time is taken from the last block of the period before from height 43000 on, and from the first of this one below that |
| Difficulty.NewTargetExact | src/main.cpp:725-734 | the new target is the old one times the clamped timespan over the one aimed at, rounded down, and at most the limit |
| Difficulty.EnoughBlocks | src/main.cpp:680-692 | at a retarget there are enough blocks to go back |
| Difficulty.GetNextWorkRequired | src/main.cpp:661-740 | keeps the bits between retargets; at one the assertion holds and the bits are those of the clamped quotient |
| Difficulty.RetargetValid | src/main.cpp:725-740 | whatever the old bits, the new target is valid exactly if the old one times the clamped timespan is at least the timespan aimed at; it is then at most 4 times the old, and less than one part in 2^15 below the exact quotient |
| Difficulty.RetargetSafe | src/main.cpp:695-740 | that is the case for every target of at least 4, and for every positive one when the blocks took long enough |
| Difficulty.SmallTargetVanishes | src/main.cpp:725-740 | a valid target of 1 can become invalid |
| Difficulty.NextWorkValid | src/main.cpp:661-740 | the work required on a block is valid exactly under that condition at a retarget, and exactly if the block's own is between retargets |
| Locator.Set | src/main.h:1297-1312 | the entries lie 0, 1, ..., 10, 11, 13, 17, ... blocks back down to the root, then comes the genesis block |
| Locator.DistanceDoubles | src/main.h:1297-1312 | the first eleven steps back are of one block, and from then on each is twice the one before |
| Locator.LocatorSize | src/main.h:1297-1312 | at most 13 + log2(h + 1) entries from height h |
| Locator.GetBlockIndex | src/main.h:1335-1349 | the first entry on the main chain, or the genesis block |
| Locator.LocatorFindsFork | src/main.h:1297-1349 | what is found is the genesis block or a common ancestor at most twice as far back as the true fork |
| Locator.GetDistanceBack | src/main.h:1314-1333 | retraces the distance at which the found entry was made, though its step doubles by another rule, for as long as no more than 40 entries before it are off the main chain |
| Base58.EncodeBase58 | src/base58.h:24-63 | a one for every leading zero byte, then the digits of the number |
| Base58.SameNumber | src/base58.h:24-63 | read in base 58 the text is the number that the bytes are in base 256 |
| Base58.DecodeBase58 | src/base58.h:70-118 | digits between spaces give the bytes of their number behind a zero for every leading one; anything else fails |
| Base58.TrimmedIsMagnitude | src/base58.h:102-106 | trimming the sign byte leaves exactly the magnitude |
| Base58.DecodeEncode | src/base58.h:24-118 | decoding undoes encoding for every byte vector |
| Base58.EncodeBytes | src/base58.h:24-118 | encoding undoes decoding for every string of digits |
| Base58.SpacedDecodes | src/base58.h:76-98 | every string of digits with spaces around it decodes, and encodes back to the digits |
| Base58.OnlySpacedDecodes | src/base58.h:76-98 | nothing else decodes |
| UInt.BaseUint.Add | src/uint256.h:150-160 | the carry loop adds modulo 2^BITS, also to itself |
| UInt.BaseUint.Increment | src/uint256.h:185-192 | adds one modulo 2^BITS |
| UInt.BaseUint.Decrement | src/uint256.h:202-209 | takes one off modulo 2^BITS |
| UInt.BaseUint.Negated | src/uint256.h:55-62 | negates modulo 2^BITS |
| UInt.BaseUint.Subtract | src/uint256.h:162-166 | subtracts modulo 2^BITS |
| UInt.BaseUint.ShiftLeft | src/uint256.h:116-131 | multiplies by 2^shift modulo 2^BITS, for every shift count |
| UInt.BaseUint.ShiftRight | src/uint256.h:133-148 | divides by 2^shift rounding down, for every shift count |
| UInt.BaseUint.Less | src/uint256.h:220-230 | compares the numbers |
| UInt.BaseUint.Equal | src/uint256.h:268-274 | true exactly for equal numbers |
| UInt.ShlValue | src/uint256.h:116-131 | limbs shifted by k limbs and s bits are the number times 2^(32k+s) modulo 2^BITS |
| UInt.ShrValue | src/uint256.h:133-148 | limbs shifted down are the number over 2^(32k+s) |
| UInt.OrDisjoint | src/uint256.h:116-148 | or-ing parts without a common bit adds them |

## Left out

- Globals.CMain.AddToBlockIndex: takes the hypotheses listed above (`HashesTellOf`, `StartsWithGenesis`, no block its own parent) as preconditions, and leaves out the memory pool and wallet updates after a change of tip.
- Globals.CMain.AcceptBlock: the contextual checks are one parameter, and the size and form of the block are preconditions because CheckBlock has run before; relaying the block is left out.
- Globals.CMain.Reorganize: the queues of transactions to resurrect in and delete from the memory pool are left out.
- Globals.CMain.SetBestChain: InvalidChainFound, the locator handed to the wallet, and the clock are left out.
- Globals.CMain.AppendBlockFile: a file that cannot be opened or positioned is not modelled, and file numbers stay below the null marker.
- Globals.CMain.WriteToDisk: its error returns, for a file that cannot be opened, positioned or flushed, are not modelled.
- Locator.GetDistanceBack: beyond 40 foreign entries the distance exceeds an int, where C++ leaves the result open and the model wraps; nothing is claimed of it then.
- Merkle.SameRoot: an empty list, whose root is the constant 0, is left out; CheckBlock refuses a block without transactions.
- Connect.ConnectInputs: the mode with neither fBlock nor fMiner set, which memory pool admission uses and which writes nothing, is left out; so is SyncWithWallets.
- Connect.CheckBlock: timestamps, proof of work, signature counts and the merkle root are the parameter `checkHeader`.
- Miner.MinFeeFree: as MinFeeRate and MinFeeMonotone, speaks of a block under construction; the default block size of 1, with which the memory pool asks, is left out.
- Miner.CreateNewBlock: takes as precondition what admission to the memory pool has established (filed under its hash, values in range, not on the chain); priorities are an arbitrary order, finality and signature counts are parameters, and the header fields are left out.
- Messages.ProcessMessages: the version of the stream is fixed during a call, and handling a message is its entry in the log; a shutdown in the middle of the loop is left out.
- EvalScript.EvalScript: the stack a failed script leaves behind is not described, since every caller drops it; SignatureHash and ECDSA are the parameter `checkSig`.
- ScriptMachine.ExecuteOp: the bodies of the disabled words (OP_CAT, OP_MUL and the like) are not modelled, as no script reaches them.
- AuxPow.Check: a parent coinbase without inputs, on which the source reads past a vector, is excluded.
- Merkle.CBlockTree.GetMerkleBranch: an index outside the block, on which the source reads past its array, is excluded.
- UInt.BaseUint.Less: stands for the four order comparisons, which share its loop; xor, and, or with another number, and the overloads that take 64-bit numbers are left out.
- DataStream.CDataStream.ReadVector: vectors of other element types are read as in `Serialize`, without the stepwise growth of the vector; strings, pairs, maps and floating point are left out.
- TxDb.CTxDB.TxnCommit: Berkeley DB itself, its failures and its files are replaced by a map with a stack of open transactions.
- Memory pool admission and replacement, orphan transactions and blocks, alerts, address and inventory messages, and block download: policy and plumbing around the modelled core.
- Sockets, threads, locks, RPC, the user interface, the wallet, key storage and start-up repair.
- Solver, SignSignature and address formats: searching for signatures and packaging keys would add easy members.
- RemoveMergedMiningHeader, MakeCoinbaseWithAux and IncrementExtraNonce: short byte manipulations around the checked proof.
