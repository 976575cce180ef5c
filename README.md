# Zen transactions and wallet records in Dafny

This project is a Dafny model of two parts of the Zen full node (a Zcash/Bitcoin
derivative with sidechains):

- **Transactions** (`src/primitives/transaction.cpp`). The immutable `CTransaction`
  and the `CMutableTransaction` it is built from, backward-transfer outputs, and the
  context-free checks. These checks are CheckOutputsAmount, CheckInputsAmount,
  CheckInputsDuplication, CheckInputsInteraction, the version and availability
  checks and CheckInputsLimit. The model also covers the value totals
  (GetValueOut in its two forms, GetJoinSplitValueIn and GetValueIn), the priority
  size (CalculateModifiedSize), crosschain amount accumulation (CheckAmountRange),
  and the appending of joinsplit commitments to the note commitment tree.
- **Wallet records** (`src/wallet/wallet.h`):
  - the ledger entries `CWalletTx` and `CWalletCert` (the common base
    `CWalletObjBase`), with their balance caches and the metadata they pack into
    `mapValue` on storing;
  - the order-position helpers;
  - the note types `JSOutPoint` and `CNoteData`, with their orders;
  - `CAccountingEntry`, whose map and extra bytes travel inside the comment after a
    NUL;
  - the `CWallet` version bookkeeping, its constructors and `SetNull`, the request
    counters (`Inventory`), and the all-or-nothing best-chain save
    `SetBestChainINTERNAL`.

Modules follow the source:

| module | contents |
|---|---|
| `Tx` | the transaction data model |
| `TxChecks` | the checks |
| `TxValues` | the totals and sizes |
| `BackwardTransfer` | backward-transfer outputs |
| `MutableTx` | the mutable transaction and the commitment tree |
| `Money` | amounts and sums |
| `Bytes` | bytes and hashes |
| `Decimal` | atoi64, i64tostr and "%u" |
| `OrderPos` | the order-position helpers |
| `StreamCodec` | the data-stream encoding of a string map |
| `Notes` | note outpoints and note data |
| `WalletObj` | the ledger entries |
| `Accounting` | `CAccountingEntry` |
| `Wallet` | `CWallet` and the scripted wallet database |

How the source is modelled:

- Amounts are unbounded integers.
- A check is a `Verdict`: `Accept`, or `Reject` with the DoS score and the reject
  reason.
- A thrown `std::runtime_error` is a `Failure` of a `Result` carrying the message.
- Classes whose fields the source updates in place (`CMutableTransaction`, the
  ledger entries, `CAccountingEntry`, `CWallet`) are Dafny classes.
- The wallet database is a class that logs every call and answers from a script of
  replies fixed at construction. A reply is success, a false return, or an
  exception.

## Model

| member | source | states |
|---|---|---|
| BackwardTransfer.ToTxOut | src/primitives/transaction.cpp:224-230 | the output keeps the amount, is flagged as a backward transfer, and carries exactly OP_DUP OP_HASH160 <20-byte push of the hash> OP_EQUALVERIFY OP_CHECKSIG |
| BackwardTransfer.FromTxOut | src/primitives/transaction.cpp:213-222 | keeps the amount, and takes the hash from the 20 bytes after the length byte that follows the first OP_HASH160 |
| BackwardTransfer.EncodedIsDecodable | src/primitives/transaction.cpp:213-230 | every converted output passes the reader's asserts |
| BackwardTransfer.RoundTrip | src/primitives/transaction.cpp:213-230 | converting to an output and back gives back the amount and the hash |
| BackwardTransfer.RoundTripFromOutput | src/primitives/transaction.cpp:213-230 | a flagged pay-to-public-key-hash output survives the conversion back and forth unchanged |
| TxValues.CheckAmountRange | src/primitives/transaction.cpp:267-284 | a zero or out-of-range value fails and leaves the total alone; otherwise the value is added, and the check fails exactly when the new total is out of range |
| MutableTx.MutableTransaction.constructor | src/primitives/transaction.cpp:304-307 | a transparent-version transaction with lock time 0 and every vector empty |
| MutableTx.MutableTransaction.FromTransaction | src/primitives/transaction.cpp:309-316 | the copy freezes back to the transaction it came from |
| MutableTx.MutableTransaction.Add | src/primitives/transaction.cpp:323-339 | appends the output to the vector of its kind and changes nothing else; always true; afterwards the outputs-availability check accepts |
| MutableTx.MutableTransaction.Freeze | src/primitives/transaction.cpp:509-516 | the frozen transaction has every field of the mutable one |
| TxValues.GetValueOutBase | src/primitives/transaction.cpp:358-368 | succeeds exactly when every output value and every running total is in the money range; the result is the sum; otherwise the base message |
| TxChecks.CheckInputsAmount | src/primitives/transaction.cpp:370-388 | accepts exactly when every vpub_new and every running total of them is in range; otherwise DoS 100 "bad-txns-txintotal-toolarge" |
| TxChecks.OutputsAmountFaultFreeIff | src/primitives/transaction.cpp:390-444 | both directions: no output or joinsplit raises a fault exactly when the declarative range conditions hold |
| TxChecks.CheckOutputsAmount | src/primitives/transaction.cpp:390-444 | accepts exactly the well-formed transactions (values, vpubs, no joinsplit with both vpubs nonzero, running total over outputs then vpub_old); otherwise DoS 100 with the reason of the first offending item in source order |
| TxChecks.ScanOutputValues | src/primitives/transaction.cpp:393-406 | the fault of the first output that raises one, with its index, or none and the output total |
| TxChecks.ScanJoinSplitOuts | src/primitives/transaction.cpp:409-441 | the fault of the first joinsplit that raises one, with its index, or none |
| TxChecks.HasDuplicatePrevout | src/primitives/transaction.cpp:449-456 | true exactly when two inputs spend the same outpoint |
| TxChecks.ScanNullifiers | src/primitives/transaction.cpp:462-469 | one joinsplit's nullifiers: a repeat means the whole list has one; otherwise the seen set grows to that joinsplit |
| TxChecks.HasDuplicateNullifier | src/primitives/transaction.cpp:459-470 | true exactly when a nullifier repeats across all joinsplits, also within one joinsplit |
| TxChecks.AllNullifiersPrefix | src/primitives/transaction.cpp:459-470 | the nullifiers of the first joinsplits are a prefix of all nullifiers |
| TxChecks.CheckInputsDuplication | src/primitives/transaction.cpp:446-473 | accepts exactly when outpoints and nullifiers are each pairwise distinct; DoS 100; duplicate inputs are reported before duplicate nullifiers |
| TxChecks.CheckInputsInteraction | src/primitives/transaction.cpp:475-497 | a coinbase is accepted exactly when it has no joinsplit and a 2..100-byte scriptSig (DoS 100 "bad-cb-has-joinsplits" / "bad-cb-length"); any other transaction is accepted exactly when no input spends the null outpoint (DoS 10 "bad-txns-prevout-null") |
| TxChecks.CheckVersionBasic | src/primitives/transaction.cpp:577-588 | accepts exactly versions >= 1, the Groth version and the sidechain version; otherwise DoS 100 "bad-txns-version-too-low" |
| TxChecks.CheckInputsAvailability | src/primitives/transaction.cpp:590-602 | rejects (DoS 10 "bad-txns-vin-empty") exactly when there is neither an input nor a joinsplit |
| TxChecks.CheckOutputsAvailability | src/primitives/transaction.cpp:614-625 | rejects (DoS 10 "bad-txns-vout-empty") exactly when there is no output, no joinsplit and no crosschain output |
| TxChecks.CheckInputsLimit | src/primitives/transaction.cpp:883-892 | fails exactly when a positive limit is below the input count; n receives the count only for a positive limit |
| TxChecks.CoinbaseHasInputs | src/primitives/transaction.cpp:590-602 | every coinbase passes the inputs-availability check |
| TxChecks.CoinbaseAmountsOnlyOnOutputs | src/primitives/transaction.cpp:390-444 | for a coinbase without joinsplits the amount checks reduce to conditions on the outputs alone |
| TxValues.GetValueOut | src/primitives/transaction.cpp:627-643 | succeeds exactly when outputs and vpub_old values and their running total are in range; the result is the three totals; on failure, the base message exactly when the outputs alone are out of range |
| TxValues.ValueOutCheckedPartInRange | src/primitives/transaction.cpp:627-643 | when GetValueOut returns, its checked part is itself a valid amount |
| TxValues.GetJoinSplitValueIn | src/primitives/transaction.cpp:645-658 | succeeds exactly when every vpub_new and running total is in range; the result is their sum |
| TxValues.GetValueIn | src/primitives/transaction.cpp:866-881 | 0 for a coinbase; otherwise the spent values plus the vpub_new total, failing exactly as GetJoinSplitValueIn does |
| TxValues.ModifiedSizeBounds | src/primitives/transaction.cpp:548-567 | the modified size never exceeds the size, and a positive size stays positive |
| TxValues.ModifiedSizeLowerBound | src/primitives/transaction.cpp:548-567 | no input removes more than its offset (41 bytes plus at most 110 of scriptSig) |
| TxValues.ModifiedSizeExact | src/primitives/transaction.cpp:548-567 | when the size exceeds all offsets together, every offset is removed |
| TxValues.CalculateModifiedSize | src/primitives/transaction.cpp:548-567 | the loop computes the modified size of the given size, or of the serialized size when 0 is given; it never wraps below 1 |
| MutableTx.CommitmentTree.Append | src/primitives/transaction.cpp:921 | the tree gains exactly the one commitment, at the end |
| MutableTx.HandleJoinSplitCommitments | src/primitives/transaction.cpp:916-924 | the tree gains every commitment of every joinsplit, joinsplit by joinsplit and in order |
| Money.SumConcat | src/primitives/transaction.cpp:627-643 | the total of two lists one after the other is the sum of their totals |
| Money.RunningTotalOfNonNegatives | src/primitives/transaction.cpp:390-444 | for non-negative amounts, every running total is in range exactly when the whole sum is |
| Wallet.FeatureVersion | src/wallet/wallet.h:75-83 | every feature version is at least FEATURE_BASE (10500) |
| OrderPos.ReadOrderPos | src/wallet/wallet.h:133-141 | -1 when "n" is absent, otherwise atoi64 of its value |
| OrderPos.WriteOrderPos | src/wallet/wallet.h:144-149 | -1 leaves the map alone; any other position is stored under "n", and no other key changes |
| OrderPos.ReadAfterWrite | src/wallet/wallet.h:133-149 | reading after writing gives back the position, unless -1 is written over a stale "n" |
| OrderPos.EraseAfterWrite | src/wallet/wallet.h:144-149 | writing then erasing "n" restores a map without "n"; the result is empty exactly when -1 is written into an empty map |
| Decimal.NatToStr | src/wallet/wallet.h:689-690 | "%u": at least one character, all digits |
| Decimal.DecimalValueOfNatToStr | src/wallet/wallet.h:689-690 | the printed digits denote the number |
| Decimal.I64ToStr | src/wallet/wallet.h:148 | i64tostr: non-empty, with a leading minus exactly for negative values |
| Decimal.LeadingSpaces | src/wallet/wallet.h:140 | the longest prefix of white space that atoi64 skips |
| Decimal.LeadingDigits | src/wallet/wallet.h:140 | the longest prefix of digits that atoi64 reads |
| Decimal.Atoi64 | src/wallet/wallet.h:140 | a blank string reads as 0, a string starting with anything other than space, sign or digit reads as 0, and a negative result needs a minus as the first non-space character |
| Decimal.Atoi64OfI64ToStr | src/wallet/wallet.h:140-148 | atoi64 reads back every int64 that i64tostr prints |
| Decimal.Atoi64OfNatToStr | src/wallet/wallet.h:710 | atoi64 reads back every value "%u" prints, for values up to INT64_MAX |
| Bytes.LexLessTransitive | src/wallet/wallet.h:190-194 | the uint256 byte order that the outpoint order compares hashes with is transitive |
| Bytes.LexLessTrichotomy | src/wallet/wallet.h:190-198 | the uint256 byte order is total and asymmetric |
| Notes.SetNullJSOutPoint | src/wallet/wallet.h:175-188 | the outpoint becomes null (zero hash) and keeps js and n; the default constructor is this applied to uninitialised js and n |
| Notes.NullJSOutPointSortsFirst | src/wallet/wallet.h:187-194 | a null outpoint sorts before every outpoint that is not null |
| Notes.JSOutPointLess | src/wallet/wallet.h:190-194 | the hash decides first: a smaller hash always sorts first, and a greater hash never does |
| Notes.JSOutPointLessIrreflexive | src/wallet/wallet.h:190-194 | no note outpoint is below itself |
| Notes.JSOutPointLessTransitive | src/wallet/wallet.h:190-194 | the outpoint order is transitive |
| Notes.JSOutPointLessTrichotomy | src/wallet/wallet.h:190-198 | exactly one of a < b, a == b, b < a holds |
| Notes.NewNoteData | src/wallet/wallet.h:243 | the default address, no nullifier, no witnesses, witness height -1 |
| Notes.NoteDataFor | src/wallet/wallet.h:244-245 | the given address, no nullifier, no witnesses, height -1 |
| Notes.NoteDataWithNullifier | src/wallet/wallet.h:246-247 | the given address and nullifier, no witnesses, height -1 |
| Notes.NoteDataLess | src/wallet/wallet.h:259-262 | the address decides first: a smaller address always sorts first and a greater one never does; note data that are less are never equal |
| Notes.NoteDataEq | src/wallet/wallet.h:264-266 | identical note data are equal, and equal note data differ at most in their witnesses and witness height |
| Notes.NoteDataIgnoresWitnesses | src/wallet/wallet.h:258-265 | note data that differ only in witnesses are equal and unordered |
| Notes.AddressLessTrichotomy | src/wallet/wallet.h:258-261 | the address order is a strict total order |
| Notes.NoteDataLessTrichotomy | src/wallet/wallet.h:258-265 | exactly one of a < b, a == b (operator==) and b < a holds |
| Notes.NoteDataLessTransitive | src/wallet/wallet.h:258-261 | the note data order is transitive |
| WalletObj.Invalidate | src/wallet/wallet.h:548-558 | the cached balance becomes invalid and keeps its amount |
| WalletObj.Dirtied | src/wallet/wallet.h:548-558 | every cache flag but the immature-credit flag is cleared, and every amount stays |
| WalletObj.DirtiedIdempotent | src/wallet/wallet.h:548-558 | marking dirty twice is marking dirty once |
| WalletObj.WalletEntry.MarkDirty | src/wallet/wallet.h:548-558 | the caches become their dirtied form, and nothing else changes |
| WalletObj.WalletEntry.BindWallet | src/wallet/wallet.h:531-535 | the new owner, then MarkDirty |
| WalletObj.WalletEntry.GetDebit | src/wallet/wallet.h:563 | 0 for a certificate; the transaction's debit otherwise |
| WalletObj.WalletEntry.GetConflicts | src/wallet/wallet.h:582-583 | empty for a certificate; the transaction's conflicts otherwise |
| WalletObj.WalletEntry.IsFromMe | src/wallet/wallet.h:537-540 | true exactly for a CWalletTx whose debit is positive; never for a certificate |
| WalletObj.CertificateIsNeverFromMe | src/wallet/wallet.h:537-583 | a certificate is never from me, whatever the filter and debit, and has no conflicts whatever the override would return |
| WalletObj.WalletEntry.Init | src/wallet/wallet.h:596-626 | owner set, metadata emptied, order position -1, every cache cleared and zeroed; the notes are kept |
| WalletObj.WalletEntry.constructor | src/wallet/wallet.h:651-673 | Init with the owner, and no notes |
| WalletObj.PackMetadata | src/wallet/wallet.h:683-691 | the stored map has the account under "fromaccount" and "timesmart" when the smart time is nonzero; every other unreserved key is untouched |
| WalletObj.UnpackMetadata | src/wallet/wallet.h:704-717 | the defaults "", -1 and 0 for absent keys; the rest of the map is the stored map without the five reserved keys |
| WalletObj.PackedOrderPos | src/wallet/wallet.h:685-708 | the stored map reads back the order position |
| WalletObj.PackedTimeSmart | src/wallet/wallet.h:689-710 | the stored map reads back the smart time |
| WalletObj.PackedRest | src/wallet/wallet.h:683-717 | erasing the reserved keys from the stored map leaves the entry's own map |
| WalletObj.MetadataRoundTrip | src/wallet/wallet.h:677-718 | loading what was stored restores the account, order position, smart time and map |
| WalletObj.WalletEntry.Store | src/wallet/wallet.h:677-718 | the record holds the packed map and the stored fields, with fSpent false; the entry's own map loses the reserved keys |
| WalletObj.WalletEntry.Load | src/wallet/wallet.h:677-718 | Init with no owner, the stored fields (the notes only for a CWalletTx), and the unpacked metadata |
| WalletObj.WalletEntry.ReadStoredFields | src/wallet/wallet.h:693-711 | the stored fields and the unpacked metadata |
| WalletObj.StoreThenLoad | src/wallet/wallet.h:803-843 | an entry stored and loaded into another of the same kind comes back with the same metadata and contents |
| StreamCodec.LittleEndianRoundTrip | src/wallet/wallet.h:969-972 | little-endian bytes read back the number |
| StreamCodec.WriteCompactSize | src/wallet/wallet.h:969-972 | one to nine bytes |
| StreamCodec.ReadCompactSize | src/wallet/wallet.h:986 | a value no larger than MAX_SIZE, taking at least one byte |
| StreamCodec.ReadCompactSizeOfWrite | src/wallet/wallet.h:969-987 | every size up to MAX_SIZE reads back, whatever follows |
| StreamCodec.ReadString | src/wallet/wallet.h:985-987 | a decoded string never takes more bytes than the stream holds |
| StreamCodec.ReadPair | src/wallet/wallet.h:985-987 | a decoded key and value never take more bytes than the stream holds |
| StreamCodec.ReadMapOfWritePairs | src/wallet/wallet.h:969-987 | reading a written map gives the pairs inserted in the written order, and the rest of the stream |
| StreamCodec.ReadStringOfWrite | src/wallet/wallet.h:969-987 | a written string reads back, taking exactly the written bytes |
| StreamCodec.ReadPairOfWrite | src/wallet/wallet.h:969-987 | a written key and value read back |
| StreamCodec.ReadPairsOfWrite | src/wallet/wallet.h:969-987 | reading written pairs inserts exactly those pairs and stops where they end |
| StreamCodec.InsertAllInOrder | src/wallet/wallet.h:985-987 | inserting distinct new keys adds them all |
| StreamCodec.InsertAllRebuilds | src/wallet/wallet.h:985-987 | inserting all pairs of a map into an empty map rebuilds it |
| StreamCodec.ReadMapOfWrite | src/wallet/wallet.h:969-987 | what `ss << mapValue` writes, `ss >> mapValue` reads back, in any key order, leaving the following bytes unread |
| StreamCodec.KeyOrder | src/wallet/wallet.h:971 | an enumeration of the map's keys, each exactly once |
| Accounting.AccountingEntry.constructor | src/wallet/wallet.h:936-950 | SetNull, with an empty map and no extra bytes |
| Accounting.AccountingEntry.SetNull | src/wallet/wallet.h:941-950 | numbers 0, order position -1, strings empty; the map and extra bytes are kept |
| Accounting.PackComment | src/wallet/wallet.h:963-975 | the comment is unchanged with neither map nor extra bytes; otherwise it is followed by a NUL and the trailer |
| Accounting.UnpackComment | src/wallet/wallet.h:979-990 | a comment without NUL has no trailer; any decoded text is a NUL-free prefix of the stored comment |
| Accounting.FirstSeparator | src/wallet/wallet.h:979 | in a NUL-free comment followed by a NUL, the first NUL is that separator |
| Accounting.UnpackOfPack | src/wallet/wallet.h:963-990 | unpacking a packed comment gives back the comment, the map and the extra bytes |
| Accounting.StripOfPack | src/wallet/wallet.h:991-992 | cutting a packed comment at its first NUL cuts the original comment there |
| Accounting.EraseTwice | src/wallet/wallet.h:963-994 | erasing "n" after WriteOrderPos is erasing it from the original map |
| Accounting.AccountingEntry.AppendTrailer | src/wallet/wallet.h:963-975 | "n" written into the map and the packed comment in place |
| Accounting.AccountingEntry.StripTrailer | src/wallet/wallet.h:991-994 | the comment cut at its first NUL and "n" erased |
| Accounting.AccountingEntry.Store | src/wallet/wallet.h:954-995 | the record holds the numbers, the other account and the packed comment; afterwards the comment is cut at its first NUL and "n" is erased |
| Accounting.AccountingEntry.ReadComment | src/wallet/wallet.h:977-994 | fails exactly when the map after the NUL is malformed; otherwise the text, the decoded map without "n", its order position and the extra bytes |
| Accounting.AccountingEntry.Load | src/wallet/wallet.h:954-995 | fails exactly when a string exceeds 65536 characters or the map is malformed; otherwise the fields as read |
| Accounting.StoreThenLoad | src/wallet/wallet.h:954-995 | an entry written and read into another comes back with the comment, map and order position; reading fails only when a written string is too long |
| Wallet.Wallet.constructor | src/wallet/wallet.h:1147-1150 | SetNull, with no file and empty maps |
| Wallet.Wallet.WithFile | src/wallet/wallet.h:1152-1158 | SetNull, then the file name and fFileBacked |
| Wallet.Wallet.SetNull | src/wallet/wallet.h:1166-1179 | both versions FEATURE_BASE, not file-backed, no encryption database, every counter 0; only those fields change |
| Wallet.Wallet.CanSupportFeature | src/wallet/wallet.h:1253 | a wallet at the latest version supports every feature, one below FEATURE_BASE none, and a null wallet exactly FEATURE_BASE |
| Wallet.Wallet.LoadMinVersion | src/wallet/wallet.h:1284 | the version becomes nVersion, the maximum is raised to it if lower, and every feature supported before still is |
| Wallet.Wallet.Inventory | src/wallet/wallet.h:1457-1465 | a hash already being counted gets one more request; no counter is added |
| Wallet.WalletDb.TxnBegin | src/wallet/wallet.h:1072 | logs the begin call; true exactly when its scripted reply succeeds |
| Wallet.WalletDb.WriteTx | src/wallet/wallet.h:1083 | logs the write of that hash and returns its scripted reply |
| Wallet.WalletDb.WriteWitnessCacheSize | src/wallet/wallet.h:1090 | logs the write of the witness cache size and returns its scripted reply |
| Wallet.WalletDb.WriteBestBlock | src/wallet/wallet.h:1095 | logs the write of the best-block locator and returns its scripted reply |
| Wallet.WalletDb.TxnAbort | src/wallet/wallet.h:1086 | logs the abort |
| Wallet.WalletDb.TxnCommit | src/wallet/wallet.h:1107 | logs the commit; true exactly when its scripted reply succeeds |
| Wallet.SortedOrder | src/wallet/wallet.h:1083 | the keys of mapWallet in ascending order |
| Wallet.FirstFailed | src/wallet/wallet.h:1083-1101 | the first call in a range that does not succeed, or the end of the range |
| Wallet.SaveCallsAbortAt | src/wallet/wallet.h:1083-1101 | when write k is the first to fail, the save is the begin, the writes up to k and one abort |
| Wallet.SaveCallsCommit | src/wallet/wallet.h:1072-1111 | when every call succeeds, the save is the begin, every write and the commit |
| Wallet.NothingWrittenWithoutBegin | src/wallet/wallet.h:1072-1076 | nothing is written exactly when the begin fails |
| Wallet.CommitIffAllSucceed | src/wallet/wallet.h:1072-1111 | the commit is reached exactly when the begin and every write succeed |
| Wallet.AbortOnFirstFailure | src/wallet/wallet.h:1077-1105 | an abort happens exactly when the begin succeeds and a write fails; it is then the only abort, the last call, and there is no commit |
| Wallet.WritesInOrder | src/wallet/wallet.h:1070-1112 | the calls are the begin, a prefix of the writes in order, and at most one closing call |
| Wallet.WriteEntries | src/wallet/wallet.h:1083-1090 | the entries are written in ascending key order; at the first failure one abort follows and the loop stops |
| Wallet.Wallet.FinishSave | src/wallet/wallet.h:1091-1111 | after the entries: the witness cache size and the best block, an abort at the first failure, else the commit |
| Wallet.Wallet.SetBestChainINTERNAL | src/wallet/wallet.h:1070-1112 | the calls made are exactly the save protocol over the ascending keys of mapWallet, the witness cache size and the best block |

## Left out

- Zero-knowledge proofs, joinsplit verification, signatures, `joinSplitPubKey` and `joinSplitSig` are not modelled. Neither are hashing (`GetHash`, `UpdateHash`, `h_sig`) or the serialized size, which enters CalculateModifiedSize as a parameter.
- Floating point (`ComputePriority`, `GetPriority`) and every `ToString` and JSON helper are left out.
- The wrappers that only call into code outside these files are left out: ContextualCheck, IsStandard, CheckFinal, IsApplicableToState, TryPushToMempool, AddToBlock and the mempool and policy calls. So are the members that are only declared in `wallet.h`, with their bodies elsewhere.
- Locking (`cs_wallet`, `AssertLockHeld`, `LOCK`) and `LogPrintf` are left out.
- The key store and the database internals are not modelled. The wallet database is a scripted log of calls.
- The entry that `WriteTx` writes is passed to the database but not logged.
- TxValues.GetValueIn: the total of the spent outputs is added without a range check in the source, and int64 overflow of that sum is not modelled. The same holds for the crosschain part of TxValues.GetValueOut.
- TxValues.CalculateModifiedSize: `nTxSize` is a uint32, but the `(unsigned int)` truncation of `scriptSig.size()` is not modelled; the model uses the full length. The two differ only for a scriptSig of 2^32 bytes or more, which no deserialisable script reaches.
- WalletObj.WalletEntry.Store: the embedded `CMerkleTx` or `CMerkleCert` and the unused `vtxPrev` vector are not part of the record.
- Wallet.SetBestChainINTERNAL: an exception from `TxnBegin` or `TxnCommit` is modelled as a false return. `TxnAbort`'s own result is ignored, as in the source.
- StreamCodec.KeyOrder: `std::map` enumerates its keys in sorted order. The codec is proved for every key order, so that order is not fixed.
- Accounting.AccountingEntry.ReadComment: when the map is malformed the source throws mid-read. The state then left is not specified, so the model only records the comment and an empty map.
- Accounting.AccountingEntry.Store: the `nVersion` header and the integer encodings of `nCreditDebit` and `nTime` are not modelled.
- WalletObj.Dirtied: the code of `MarkDirty` keeps `fImmatureCreditCached`, and the model follows the code.
- WalletObj.WalletEntry.GetDebit and WalletObj.WalletEntry.GetConflicts: the `CWalletTx` overrides live outside these files and enter as parameters.
- Wallet.Wallet.LoadMinVersion: the versions are unbounded integers, not C++ `int`.
- Wallet.Wallet.Inventory: the request counters are unbounded integers, not C++ `int`.
- The serialization code (`serialize.h`, `streams.h`) is not part of this model. The StreamCodec encoding follows the compact-size, string and map format that `ss << mapValue` and `ss >> mapValue` use.

