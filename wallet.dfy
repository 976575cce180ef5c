/**
 * CWallet: the version bookkeeping, the request counters, and the all-or-nothing
 * best-chain save that writes every wallet entry inside one database transaction.
 */
module Wallet {
  import opened Bytes
  import opened Decimal
  import opened WalletObj

  /** enum WalletFeature: the client version that introduced each wallet feature. */
  datatype WalletFeature = FeatureBase | FeatureWalletCrypt | FeatureComprPubKey

  function FeatureVersion(wf: WalletFeature): (v: int)
    ensures v >= 10500
  {
    match wf
    case FeatureBase => 10500
    case FeatureWalletCrypt => 40000
    case FeatureComprPubKey => 60000
  }

  /** FEATURE_LATEST names the same version as FEATURE_COMPRPUBKEY. */
  const FEATURE_LATEST: WalletFeature := FeatureComprPubKey

  /** CBlockLocator: the block hashes that identify a position in the chain. */
  datatype BlockLocator = BlockLocator(vHave: seq<Uint256>)

  /** The calls a best-chain save makes on the wallet database, in the order made. */
  datatype DbCall =
    | Begin
    | TxWrite(hash: Uint256)
    | WitnessCacheSizeWrite(nWitnessCacheSize: int64)
    | BestBlockWrite(loc: BlockLocator)
    | Abort
    | Commit

  predicate IsWrite(c: DbCall)
  {
    c.TxWrite? || c.WitnessCacheSizeWrite? || c.BestBlockWrite?
  }

  /** How the database answers a call: success, a false return, or an exception. */
  datatype Reply = Ok | Failed | Threw

  /** The scripted answer to the database's i-th call; calls past the script succeed. */
  function ReplyAt(script: seq<Reply>, i: nat): Reply
  {
    if i < |script| then script[i] else Ok
  }

  /**
   * The wallet database as the best-chain save sees it: every call is logged and
   * answered from a script fixed at construction.
   */
  class WalletDb {
    const script: seq<Reply>
    var log: seq<DbCall>

    constructor (script: seq<Reply>)
      ensures this.script == script && log == []
    {
      this.script := script;
      log := [];
    }

    /** TxnBegin: true when the transaction is open. */
    method TxnBegin() returns (ok: bool)
      modifies this`log
      ensures log == old(log) + [Begin] && (ok <==> ReplyAt(script, |old(log)|) == Ok)
    {
      ok := ReplyAt(script, |log|) == Ok;
      log := log + [Begin];
    }

    method WriteTx(hash: Uint256, entry: WalletEntry) returns (r: Reply)
      modifies this`log
      ensures log == old(log) + [TxWrite(hash)] && r == ReplyAt(script, |old(log)|)
    {
      r := ReplyAt(script, |log|);
      log := log + [TxWrite(hash)];
    }

    method WriteWitnessCacheSize(nWitnessCacheSize: int64) returns (r: Reply)
      modifies this`log
      ensures log == old(log) + [WitnessCacheSizeWrite(nWitnessCacheSize)] && r == ReplyAt(script, |old(log)|)
    {
      r := ReplyAt(script, |log|);
      log := log + [WitnessCacheSizeWrite(nWitnessCacheSize)];
    }

    method WriteBestBlock(loc: BlockLocator) returns (r: Reply)
      modifies this`log
      ensures log == old(log) + [BestBlockWrite(loc)] && r == ReplyAt(script, |old(log)|)
    {
      r := ReplyAt(script, |log|);
      log := log + [BestBlockWrite(loc)];
    }

    method TxnAbort()
      modifies this`log
      ensures log == old(log) + [Abort]
    {
      log := log + [Abort];
    }

    /** TxnCommit: true when everything reached the disk. */
    method TxnCommit() returns (ok: bool)
      modifies this`log
      ensures log == old(log) + [Commit] && (ok <==> ReplyAt(script, |old(log)|) == Ok)
    {
      ok := ReplyAt(script, |log|) == Ok;
      log := log + [Commit];
    }
  }

  // ---------------------------------------------------------------------------
  // std::map<uint256, ...> enumerates its keys in ascending memcmp order.

  predicate StrictlyIncreasing(ks: seq<Uint256>)
  {
    forall i, j :: 0 <= i < j < |ks| ==> LexLess(ks[i], ks[j])
  }

  /** ks lists the set s in ascending order. */
  predicate IsSortedKeys(ks: seq<Uint256>, s: set<Uint256>)
  {
    && StrictlyIncreasing(ks)
    && (forall i :: 0 <= i < |ks| ==> ks[i] in s)
    && (forall k :: k in s ==> k in ks)
  }

  predicate IsLeast(k: Uint256, s: set<Uint256>)
  {
    k in s && forall j :: j in s && j != k ==> LexLess(k, j)
  }

  /** A non-empty set of hashes has a least element. */
  lemma {:induction false} LeastExists(s: set<Uint256>)
    requires s != {}
    ensures exists k :: IsLeast(k, s)
    decreases |s|
  {
    var x: Uint256 :| x in s;
    if s != {x} {
      var r := s - {x};
      LeastExists(r);
      var m: Uint256 :| IsLeast(m, r);
      LexLessTrichotomy(x, m);
      if LexLess(x, m) {
        forall j | j in s && j != x
          ensures LexLess(x, j)
        {
          if j != m {
            LexLessTransitive(x, m, j);
          }
        }
        assert IsLeast(x, s);
      } else {
        assert IsLeast(m, s);
      }
    } else {
      assert IsLeast(x, s);
    }
  }

  /** The ascending enumeration of a set of hashes. */
  ghost function SortedOrder(s: set<Uint256>): (ks: seq<Uint256>)
    ensures IsSortedKeys(ks, s)
    decreases |s|
  {
    if s == {} then []
    else
      LeastExists(s);
      var k :| IsLeast(k, s);
      var rest := SortedOrder(s - {k});
      assert forall i :: 0 <= i < |rest| ==> rest[i] in s && rest[i] != k;
      [k] + rest
  }

  /** The keys of an ascending list from index i on. */
  ghost function Suffix(ks: seq<Uint256>, i: nat): set<Uint256>
  {
    set j | i <= j < |ks| :: ks[j]
  }

  /** The least of a suffix of an ascending list is its first element. */
  lemma LeastOfSuffix(ks: seq<Uint256>, i: nat, k: Uint256)
    requires StrictlyIncreasing(ks) && i < |ks|
    requires IsLeast(k, Suffix(ks, i))
    ensures k == ks[i]
  {
    var j :| i <= j < |ks| && ks[j] == k;
    if j != i {
      LexLessTrichotomy(ks[i], k);
    }
  }

  /** Removing the first element of a suffix leaves the next suffix. */
  lemma SuffixStep(ks: seq<Uint256>, i: nat)
    requires StrictlyIncreasing(ks) && i < |ks|
    ensures Suffix(ks, i) - {ks[i]} == Suffix(ks, i + 1)
  {
    forall j | i < j < |ks|
      ensures ks[j] != ks[i]
    {
      LexLessIrreflexive(ks[i]);
    }
  }

  /** An empty suffix starts at the end. */
  lemma EmptySuffix(ks: seq<Uint256>, i: nat)
    requires i <= |ks|
    ensures Suffix(ks, i) == {} ==> i == |ks|
  {
    if i < |ks| {
      assert ks[i] in Suffix(ks, i);
    }
  }

  /** The least hash of a non-empty set: the next key of an ascending walk over a map. */
  method PickLeast(s: set<Uint256>) returns (k: Uint256)
    requires s != {}
    ensures IsLeast(k, s)
  {
    LeastExists(s);
    k :| IsLeast(k, s);
  }

  /** The least of the keys not yet visited is the next key of the ascending order. */
  lemma NextKey(ks: seq<Uint256>, s: set<Uint256>, i: nat, k: Uint256)
    requires IsSortedKeys(ks, s) && i <= |ks|
    requires IsLeast(k, Suffix(ks, i))
    ensures i < |ks| && k == ks[i] && k in s
    ensures Suffix(ks, i) - {k} == Suffix(ks, i + 1)
  {
    LeastOfSuffix(ks, i, k);
    SuffixStep(ks, i);
  }

  // ---------------------------------------------------------------------------
  // The best-chain save protocol, stated over the database's script.

  /** One transaction write per key, in the order given. */
  function TxWrites(keys: seq<Uint256>): (ws: seq<DbCall>)
    ensures |ws| == |keys| && forall i :: 0 <= i < |keys| ==> ws[i] == TxWrite(keys[i])
  {
    seq(|keys|, i requires 0 <= i < |keys| => TxWrite(keys[i]))
  }

  /** What SetBestChainINTERNAL writes inside the transaction, in order. */
  function SaveWrites(keys: seq<Uint256>, nWitnessCacheSize: int64, loc: BlockLocator): (ws: seq<DbCall>)
    ensures |ws| == |keys| + 2 && forall i :: 0 <= i < |ws| ==> IsWrite(ws[i])
    ensures ws[..|keys|] == TxWrites(keys)
    ensures ws[|keys|] == WitnessCacheSizeWrite(nWitnessCacheSize) && ws[|keys| + 1] == BestBlockWrite(loc)
  {
    TxWrites(keys) + [WitnessCacheSizeWrite(nWitnessCacheSize), BestBlockWrite(loc)]
  }

  /** The number of the first call in lo..hi-1 that does not succeed, or hi. */
  function FirstFailed(script: seq<Reply>, lo: nat, hi: nat): (p: nat)
    requires lo <= hi
    ensures lo <= p <= hi
    ensures p < hi ==> ReplyAt(script, p) != Ok
    ensures forall q :: lo <= q < p ==> ReplyAt(script, q) == Ok
    decreases hi - lo
  {
    if lo == hi then lo
    else if ReplyAt(script, lo) != Ok then lo
    else FirstFailed(script, lo + 1, hi)
  }

  /**
   * The calls of a save whose first call is the database's call number base: the
   * begin; if it fails, nothing more; otherwise the writes up to and including the
   * first that fails followed by an abort, or all of them followed by the commit.
   */
  function SaveCalls(script: seq<Reply>, base: nat, writes: seq<DbCall>): seq<DbCall>
  {
    if ReplyAt(script, base) != Ok then [Begin]
    else
      var p := FirstFailed(script, base + 1, base + 1 + |writes|);
      if p < base + 1 + |writes| then [Begin] + writes[..p - base] + [Abort] else [Begin] + writes + [Commit]
  }

  /** The save when the write numbered k is the first to fail. */
  lemma SaveCallsAbortAt(script: seq<Reply>, base: nat, writes: seq<DbCall>, k: nat)
    requires ReplyAt(script, base) == Ok && k < |writes|
    requires forall q :: base < q <= base + k ==> ReplyAt(script, q) == Ok
    requires ReplyAt(script, base + 1 + k) != Ok
    ensures SaveCalls(script, base, writes) == [Begin] + writes[..k + 1] + [Abort]
  {
    var p := FirstFailed(script, base + 1, base + 1 + |writes|);
    assert p == base + 1 + k;
  }

  /** The save when every write succeeds. */
  lemma SaveCallsCommit(script: seq<Reply>, base: nat, writes: seq<DbCall>)
    requires ReplyAt(script, base) == Ok
    requires forall q :: base < q <= base + |writes| ==> ReplyAt(script, q) == Ok
    ensures SaveCalls(script, base, writes) == [Begin] + writes + [Commit]
  {
  }

  /** Taking one more element of a sequence appends it. */
  lemma TakeOneMore<T>(s: seq<T>, i: nat)
    requires i < |s|
    ensures s[..i + 1] == s[..i] + [s[i]]
  {
  }

  /** A log holding the first i writes, followed by write number i, holds the first i + 1. */
  lemma Extend<T>(p: seq<T>, s: seq<T>, i: nat)
    requires i < |s|
    ensures p + s[..i] + [s[i]] == p + s[..i + 1]
  {
    TakeOneMore(s, i);
  }

  /** The regrouping of a log that ends a save: a prefix, the begin, the writes and the last call. */
  lemma Closed<T>(p: seq<T>, b: T, ws: seq<T>, c: T)
    ensures p + [b] + ws + [c] == p + ([b] + ws + [c])
  {
  }

  /** The regrouping of a log whose writes end with one or two trailing writes. */
  lemma ClosedAfter<T>(p: seq<T>, b: T, ws: seq<T>, x: T, y: T, c: T)
    ensures p + [b] + ws + [x] + [c] == p + ([b] + (ws + [x]) + [c])
    ensures p + [b] + ws + [x] + [y] + [c] == p + ([b] + (ws + [x, y]) + [c])
  {
  }

  /** The save when the write of entry number k is the first to fail. */
  lemma AbortAtEntry(script: seq<Reply>, prior: seq<DbCall>, keys: seq<Uint256>, n: int64, loc: BlockLocator, k: nat)
    requires k < |keys|
    requires forall q :: |prior| <= q <= |prior| + k ==> ReplyAt(script, q) == Ok
    requires ReplyAt(script, |prior| + 1 + k) != Ok
    ensures prior + [Begin] + TxWrites(keys)[..k + 1] + [Abort]
         == prior + SaveCalls(script, |prior|, SaveWrites(keys, n, loc))
  {
    var writes := SaveWrites(keys, n, loc);
    SaveCallsAbortAt(script, |prior|, writes, k);
    assert writes[..k + 1] == TxWrites(keys)[..k + 1];
    Closed(prior, Begin, writes[..k + 1], Abort);
  }

  /** The save when the entries succeed and the witness cache size write fails. */
  lemma AbortAtWitnessCacheSize(script: seq<Reply>, prior: seq<DbCall>, keys: seq<Uint256>, n: int64, loc: BlockLocator)
    requires forall q :: |prior| <= q <= |prior| + |keys| ==> ReplyAt(script, q) == Ok
    requires ReplyAt(script, |prior| + 1 + |keys|) != Ok
    ensures prior + [Begin] + TxWrites(keys) + [WitnessCacheSizeWrite(n)] + [Abort]
         == prior + SaveCalls(script, |prior|, SaveWrites(keys, n, loc))
  {
    var writes := SaveWrites(keys, n, loc);
    SaveCallsAbortAt(script, |prior|, writes, |keys|);
    TakeOneMore(writes, |keys|);
    ClosedAfter(prior, Begin, TxWrites(keys), WitnessCacheSizeWrite(n), BestBlockWrite(loc), Abort);
  }

  /** The save when the entries and the witness cache size succeed and the best block write fails. */
  lemma AbortAtBestBlock(script: seq<Reply>, prior: seq<DbCall>, keys: seq<Uint256>, n: int64, loc: BlockLocator)
    requires forall q :: |prior| <= q <= |prior| + |keys| + 1 ==> ReplyAt(script, q) == Ok
    requires ReplyAt(script, |prior| + 2 + |keys|) != Ok
    ensures prior + [Begin] + TxWrites(keys) + [WitnessCacheSizeWrite(n)] + [BestBlockWrite(loc)] + [Abort]
         == prior + SaveCalls(script, |prior|, SaveWrites(keys, n, loc))
  {
    var writes := SaveWrites(keys, n, loc);
    SaveCallsAbortAt(script, |prior|, writes, |keys| + 1);
    assert writes[..|keys| + 2] == writes;
    ClosedAfter(prior, Begin, TxWrites(keys), WitnessCacheSizeWrite(n), BestBlockWrite(loc), Abort);
  }

  /** The save when every entry and both trailing writes succeed. */
  lemma CommitAfterEntries(script: seq<Reply>, prior: seq<DbCall>, keys: seq<Uint256>, n: int64, loc: BlockLocator)
    requires forall q :: |prior| <= q <= |prior| + |keys| + 2 ==> ReplyAt(script, q) == Ok
    ensures prior + [Begin] + TxWrites(keys) + [WitnessCacheSizeWrite(n)] + [BestBlockWrite(loc)] + [Commit]
         == prior + SaveCalls(script, |prior|, SaveWrites(keys, n, loc))
  {
    SaveCallsCommit(script, |prior|, SaveWrites(keys, n, loc));
    ClosedAfter(prior, Begin, TxWrites(keys), WitnessCacheSizeWrite(n), BestBlockWrite(loc), Commit);
  }

  /** Nothing is written when the transaction cannot be opened, and something is when it can. */
  lemma NothingWrittenWithoutBegin(script: seq<Reply>, base: nat, writes: seq<DbCall>)
    requires |writes| > 0 && forall i :: 0 <= i < |writes| ==> IsWrite(writes[i])
    ensures ReplyAt(script, base) != Ok <==> forall c :: c in SaveCalls(script, base, writes) ==> !IsWrite(c)
  {
    if ReplyAt(script, base) == Ok {
      assert writes[0] in SaveCalls(script, base, writes);
    }
  }

  /** An ordered run of writes holds neither an abort nor a commit. */
  lemma NoClosingCall(ws: seq<DbCall>)
    requires forall i :: 0 <= i < |ws| ==> IsWrite(ws[i])
    ensures Abort !in ws && Commit !in ws && multiset(ws)[Abort] == 0
  {
  }

  /** The commit is reached exactly when the begin and every write succeed. */
  lemma CommitIffAllSucceed(script: seq<Reply>, base: nat, writes: seq<DbCall>)
    requires forall i :: 0 <= i < |writes| ==> IsWrite(writes[i])
    ensures Commit in SaveCalls(script, base, writes)
        <==> ReplyAt(script, base) == Ok && forall q :: base < q <= base + |writes| ==> ReplyAt(script, q) == Ok
  {
    if ReplyAt(script, base) == Ok {
      var p := FirstFailed(script, base + 1, base + 1 + |writes|);
      if p < base + 1 + |writes| {
        NoClosingCall(writes[..p - base]);
      } else {
        assert SaveCalls(script, base, writes) == [Begin] + writes + [Commit];
      }
    }
  }

  /**
   * An abort happens exactly when the begin succeeds and a write fails; it is then
   * the only abort and the last call, and there is no commit.
   */
  lemma AbortOnFirstFailure(script: seq<Reply>, base: nat, writes: seq<DbCall>)
    requires forall i :: 0 <= i < |writes| ==> IsWrite(writes[i])
    ensures var calls := SaveCalls(script, base, writes);
      && ((Abort in calls) <==> (ReplyAt(script, base) == Ok && exists q :: base < q <= base + |writes| && ReplyAt(script, q) != Ok))
      && multiset(calls)[Abort] <= 1
      && (Abort in calls ==> calls[|calls| - 1] == Abort && Commit !in calls)
  {
    var calls := SaveCalls(script, base, writes);
    if ReplyAt(script, base) == Ok {
      var p := FirstFailed(script, base + 1, base + 1 + |writes|);
      if p < base + 1 + |writes| {
        var done := writes[..p - base];
        NoClosingCall(done);
        assert calls == [Begin] + done + [Abort];
        assert ReplyAt(script, p) != Ok;
      } else {
        NoClosingCall(writes);
        assert calls == [Begin] + writes + [Commit];
      }
    }
  }

  /** The calls are the begin, a prefix of the writes in their order, and at most one closing call. */
  lemma WritesInOrder(script: seq<Reply>, base: nat, writes: seq<DbCall>)
    ensures exists n, tail ::
      && 0 <= n <= |writes| && tail in {[], [Abort], [Commit]}
      && SaveCalls(script, base, writes) == [Begin] + writes[..n] + tail
  {
    var calls := SaveCalls(script, base, writes);
    if ReplyAt(script, base) != Ok {
      assert calls == [Begin] + writes[..0] + [];
    } else {
      var p := FirstFailed(script, base + 1, base + 1 + |writes|);
      if p < base + 1 + |writes| {
        assert calls == [Begin] + writes[..p - base] + [Abort];
      } else {
        assert calls == [Begin] + writes[..|writes|] + [Commit];
      }
    }
  }

  // ---------------------------------------------------------------------------

  /** The scalar fields of CWallet, in declaration order. */
  datatype WalletSettings = WalletSettings(
    nWalletVersion: int,
    nWalletMaxVersion: int,
    fFileBacked: bool,
    nMasterKeyMaxID: uint32,
    hasEncryptionDb: bool,
    nOrderPosNext: int64,
    nNextResend: int64,
    nLastResend: int64,
    nTimeFirstKey: int64,
    fBroadcastTransactions: bool,
    nWitnessCacheSize: int64)

  /** CWallet::SetNull: both versions FEATURE_BASE, not file-backed, no encryption database, every counter 0. */
  const NULL_SETTINGS := WalletSettings(10500, 10500, false, 0, false, 0, 0, 0, 0, false, 0)

  class Wallet {
    var nWalletVersion: int
    var nWalletMaxVersion: int
    var fFileBacked: bool
    var strWalletFile: string
    var nMasterKeyMaxID: uint32
    /** pwalletdbEncryption != NULL. */
    var hasEncryptionDb: bool
    var nOrderPosNext: int64
    var nNextResend: int64
    var nLastResend: int64
    var nTimeFirstKey: int64
    var fBroadcastTransactions: bool
    var nWitnessCacheSize: int64
    var mapRequestCount: map<Uint256, int>
    var mapWallet: map<Uint256, WalletEntry>

    /** The scalar state of the wallet, the part SetNull resets. */
    function Settings(): WalletSettings
      reads this
    {
      WalletSettings(nWalletVersion, nWalletMaxVersion, fFileBacked, nMasterKeyMaxID, hasEncryptionDb,
                     nOrderPosNext, nNextResend, nLastResend, nTimeFirstKey, fBroadcastTransactions, nWitnessCacheSize)
    }

    /** The state SetNull leaves. */
    predicate IsNull()
      reads this
    {
      Settings() == NULL_SETTINGS
    }

    /** The default constructor: SetNull, with no file, no entries and no request counters. */
    constructor ()
      ensures IsNull() && strWalletFile == "" && mapWallet == map[] && mapRequestCount == map[]
    {
      strWalletFile := "";
      mapWallet := map[];
      mapRequestCount := map[];
      new;
      SetNull();
    }

    /** The constructor naming a wallet file: SetNull, then the file and fFileBacked. */
    constructor WithFile(strWalletFileIn: string)
      ensures nWalletVersion == FeatureVersion(FeatureBase) && nWalletMaxVersion == FeatureVersion(FeatureBase)
      ensures fFileBacked && strWalletFile == strWalletFileIn
      ensures nMasterKeyMaxID == 0 && !hasEncryptionDb && nOrderPosNext == 0 && nNextResend == 0
      ensures nLastResend == 0 && nTimeFirstKey == 0 && !fBroadcastTransactions && nWitnessCacheSize == 0
      ensures mapWallet == map[] && mapRequestCount == map[]
    {
      mapWallet := map[];
      mapRequestCount := map[];
      new;
      SetNull();
      strWalletFile := strWalletFileIn;
      fFileBacked := true;
    }

    /** SetNull: the scalar fields reset; the file name and the maps are kept. */
    method SetNull()
      modifies this`nWalletVersion, this`nWalletMaxVersion, this`fFileBacked, this`nMasterKeyMaxID
      modifies this`hasEncryptionDb, this`nOrderPosNext, this`nNextResend, this`nLastResend
      modifies this`nTimeFirstKey, this`fBroadcastTransactions, this`nWitnessCacheSize
      ensures IsNull()
    {
      nWalletVersion := FeatureVersion(FeatureBase);
      nWalletMaxVersion := FeatureVersion(FeatureBase);
      fFileBacked := false;
      nMasterKeyMaxID := 0;
      hasEncryptionDb := false;
      nOrderPosNext := 0;
      nNextResend := 0;
      nLastResend := 0;
      nTimeFirstKey := 0;
      fBroadcastTransactions := false;
      nWitnessCacheSize := 0;
    }

    /** CanSupportFeature: the wallet may be upgraded to (or already has) the feature. */
    predicate CanSupportFeature(wf: WalletFeature)
      reads this
      ensures nWalletMaxVersion >= FeatureVersion(FEATURE_LATEST) ==> CanSupportFeature(wf)
      ensures nWalletMaxVersion < FeatureVersion(FeatureBase) ==> !CanSupportFeature(wf)
      ensures IsNull() ==> (CanSupportFeature(wf) <==> wf == FeatureBase)
    {
      nWalletMaxVersion >= FeatureVersion(wf)
    }

    /**
     * LoadMinVersion: the version read from disk becomes the wallet version and
     * raises the maximum version if it is higher; the maximum never decreases, so
     * every feature supported before still is.
     */
    method LoadMinVersion(nVersion: int) returns (ok: bool)
      modifies this`nWalletVersion, this`nWalletMaxVersion
      ensures ok
      ensures nWalletVersion == nVersion
      ensures nWalletMaxVersion == if old(nWalletMaxVersion) >= nVersion then old(nWalletMaxVersion) else nVersion
      ensures nWalletMaxVersion >= old(nWalletMaxVersion) && nWalletMaxVersion >= nVersion
      ensures forall wf :: old(CanSupportFeature(wf)) ==> CanSupportFeature(wf)
      ensures forall wf :: FeatureVersion(wf) <= nVersion ==> CanSupportFeature(wf)
    {
      nWalletVersion := nVersion;
      nWalletMaxVersion := if nWalletMaxVersion >= nVersion then nWalletMaxVersion else nVersion;
      ok := true;
    }

    /** Inventory: a block or transaction already being counted gets one more request. */
    method Inventory(hash: Uint256)
      modifies this`mapRequestCount
      ensures hash in old(mapRequestCount) ==> mapRequestCount == old(mapRequestCount)[hash := old(mapRequestCount)[hash] + 1]
      ensures hash !in old(mapRequestCount) ==> mapRequestCount == old(mapRequestCount)
      ensures mapRequestCount.Keys == old(mapRequestCount).Keys
    {
      if hash in mapRequestCount {
        mapRequestCount := mapRequestCount[hash := mapRequestCount[hash] + 1];
      }
    }

    /**
     * SetBestChainINTERNAL: inside one transaction, every entry of mapWallet in
     * ascending key order, then the witness cache size, then the best block.  When
     * the transaction cannot be opened nothing is written; the first write that
     * fails or throws is followed by one abort and nothing else; otherwise the
     * transaction is committed.  The ascending key order is returned as a ghost.
     */
    method SetBestChainINTERNAL(db: WalletDb, loc: BlockLocator) returns (ghost keys: seq<Uint256>)
      modifies db`log
      ensures IsSortedKeys(keys, mapWallet.Keys)
      ensures db.log == old(db.log) + SaveCalls(db.script, |old(db.log)|, SaveWrites(keys, nWitnessCacheSize, loc))
    {
      keys := SortedOrder(mapWallet.Keys);
      ghost var prior := db.log;
      var ok := db.TxnBegin();
      if ok {
        ghost var k;
        ok, k := WriteEntries(db, mapWallet, keys);
        if ok {
          FinishSave(db, loc, prior, keys);
        } else {
          AbortAtEntry(db.script, prior, keys, nWitnessCacheSize, loc, k);
        }
      }
    }

    /**
     * The end of SetBestChainINTERNAL once every entry is written: the witness cache
     * size and the best block, with an abort at the first failure, else the commit
     * (whose own failure leaves nothing more to do).
     */
    method FinishSave(db: WalletDb, loc: BlockLocator, ghost prior: seq<DbCall>, ghost keys: seq<Uint256>)
      requires db.log == prior + [Begin] + TxWrites(keys)
      requires forall q :: |prior| <= q <= |prior| + |keys| ==> ReplyAt(db.script, q) == Ok
      modifies db`log
      ensures db.log == prior + SaveCalls(db.script, |prior|, SaveWrites(keys, nWitnessCacheSize, loc))
    {
      var r := db.WriteWitnessCacheSize(nWitnessCacheSize);
      if r != Ok {
        db.TxnAbort();
        AbortAtWitnessCacheSize(db.script, prior, keys, nWitnessCacheSize, loc);
      } else {
        r := db.WriteBestBlock(loc);
        if r != Ok {
          db.TxnAbort();
          AbortAtBestBlock(db.script, prior, keys, nWitnessCacheSize, loc);
        } else {
          var committed := db.TxnCommit();
          CommitAfterEntries(db.script, prior, keys, nWitnessCacheSize, loc);
        }
      }
    }
  }

  /**
   * The loop of SetBestChainINTERNAL over the wallet's entries: the entries are written in
   * ascending key order; at the first write that fails or throws the transaction
   * is aborted and the loop stops.  The ghost k counts the writes that succeeded.
   */
  method WriteEntries(db: WalletDb, entries: map<Uint256, WalletEntry>, ghost keys: seq<Uint256>) returns (ok: bool, ghost k: nat)
    requires IsSortedKeys(keys, entries.Keys)
    modifies db`log
    ensures k <= |keys| && forall q :: |old(db.log)| <= q < |old(db.log)| + k ==> ReplyAt(db.script, q) == Ok
    ensures ok ==> k == |keys| && db.log == old(db.log) + TxWrites(keys)
    ensures !ok ==> && k < |keys| && ReplyAt(db.script, |old(db.log)| + k) != Ok
                    && db.log == old(db.log) + TxWrites(keys)[..k + 1] + [Abort]
  {
    ghost var base := |db.log|;
    ghost var writes := TxWrites(keys);
    var remaining := entries.Keys;
    assert remaining == Suffix(keys, 0);
    k := 0;
    while remaining != {}
      invariant k <= |keys| && remaining == Suffix(keys, k)
      invariant db.log == old(db.log) + writes[..k]
      invariant forall q :: base <= q < base + k ==> ReplyAt(db.script, q) == Ok
      decreases |keys| - k
    {
      var hash := PickLeast(remaining);
      NextKey(keys, entries.Keys, k, hash);
      var r := db.WriteTx(hash, entries[hash]);
      Extend(old(db.log), writes, k);
      if r != Ok {
        db.TxnAbort();
        return false, k;
      }
      remaining := remaining - {hash};
      k := k + 1;
    }
    EmptySuffix(keys, k);
    assert writes[..k] == writes;
    ok := true;
  }
}
