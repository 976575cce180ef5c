/**
 * The wallet's ledger entries (CWalletObjBase with its two forms, CWalletTx and
 * CWalletCert): the cached-balance bookkeeping, the certificate defaults, and the
 * packing of the entry metadata into mapValue when an entry is stored and loaded.
 * The embedded transaction or certificate and its Merkle branch are not part of
 * this model.
 */
module WalletObj {
  import opened Common
  import opened Bytes
  import opened Decimal
  import opened OrderPos
  import opened Notes

  /** Which of the two ledger-entry classes an object is. */
  datatype ObjKind = WalletTx | WalletCert

  /** The identity of the owning wallet; None stands for a null pwallet. */
  type WalletId = nat

  /** isminefilter: which kinds of address count. */
  type IsMineFilter = nat

  const FROM_ACCOUNT_KEY: string := "fromaccount"
  const TIME_SMART_KEY: string := "timesmart"

  /** The keys the entry metadata occupies in mapValue while an entry is stored. */
  const RESERVED_KEYS: set<string> := {FROM_ACCOUNT_KEY, "version", "spent", ORDER_POS_KEY, TIME_SMART_KEY}

  /** The fields of one stored entry after the embedded transaction or certificate. */
  datatype Record = Record(
    mapValue: MapValue,
    mapNoteData: map<JSOutPoint, NoteData>,
    vOrderForm: seq<(string, string)>,
    fTimeReceivedIsTxTime: uint32,
    nTimeReceived: uint32,
    fFromMe: bool,
    fSpent: bool)

  /**
   * The map that is stored: the account under "fromaccount", the order position under
   * "n" (unless unknown), and a nonzero smart time in decimal under "timesmart".
   */
  function PackMetadata(mapValue: MapValue, strFromAccount: string, nOrderPos: int64, nTimeSmart: uint32): (m: MapValue)
    ensures FROM_ACCOUNT_KEY in m && m[FROM_ACCOUNT_KEY] == strFromAccount
    ensures TIME_SMART_KEY in m <==> nTimeSmart != 0 || TIME_SMART_KEY in mapValue
    ensures forall k :: k !in RESERVED_KEYS ==> (k in m <==> k in mapValue)
    ensures forall k :: k !in RESERVED_KEYS && k in mapValue ==> m[k] == mapValue[k]
  {
    var withAccount := mapValue[FROM_ACCOUNT_KEY := strFromAccount];
    var withPos := WriteOrderPos(nOrderPos, withAccount);
    if nTimeSmart != 0 then withPos[TIME_SMART_KEY := NatToStr(nTimeSmart)] else withPos
  }

  /** The metadata recovered from a stored map, and what remains of the map. */
  datatype Metadata = Metadata(strFromAccount: string, nOrderPos: int64, nTimeSmart: uint32, mapValue: MapValue)

  /**
   * Loading: the account ("" when absent), the order position (-1 when absent), the
   * smart time (0 when absent, otherwise atoi64 cast to unsigned int), and the map
   * without the reserved keys.
   */
  function UnpackMetadata(m: MapValue): (md: Metadata)
    ensures md.mapValue.Keys !! RESERVED_KEYS
    ensures FROM_ACCOUNT_KEY !in m ==> md.strFromAccount == ""
    ensures ORDER_POS_KEY !in m ==> md.nOrderPos == -1
    ensures TIME_SMART_KEY !in m ==> md.nTimeSmart == 0
    ensures md.mapValue.Keys == m.Keys - RESERVED_KEYS
  {
    Metadata(
      if FROM_ACCOUNT_KEY in m then m[FROM_ACCOUNT_KEY] else "",
      ReadOrderPos(m),
      if TIME_SMART_KEY in m then Atoi64(m[TIME_SMART_KEY]) % 0x1_0000_0000 else 0,
      m - RESERVED_KEYS)
  }

  /** The stored map reads back the order position. */
  lemma PackedOrderPos(mapValue: MapValue, strFromAccount: string, nOrderPos: int64, nTimeSmart: uint32)
    requires ORDER_POS_KEY !in mapValue
    ensures ReadOrderPos(PackMetadata(mapValue, strFromAccount, nOrderPos, nTimeSmart)) == nOrderPos
  {
    assert |FROM_ACCOUNT_KEY| != |ORDER_POS_KEY| && |TIME_SMART_KEY| != |ORDER_POS_KEY|;
    var withAccount := mapValue[FROM_ACCOUNT_KEY := strFromAccount];
    var withPos := WriteOrderPos(nOrderPos, withAccount);
    var packed := PackMetadata(mapValue, strFromAccount, nOrderPos, nTimeSmart);
    ReadAfterWrite(nOrderPos, withAccount);
    assert ORDER_POS_KEY in packed <==> ORDER_POS_KEY in withPos;
    if ORDER_POS_KEY in withPos {
      assert packed[ORDER_POS_KEY] == withPos[ORDER_POS_KEY];
    }
  }

  /** The stored map reads back the smart time. */
  lemma PackedTimeSmart(mapValue: MapValue, strFromAccount: string, nOrderPos: int64, nTimeSmart: uint32)
    requires TIME_SMART_KEY !in mapValue
    ensures var packed := PackMetadata(mapValue, strFromAccount, nOrderPos, nTimeSmart);
      (if TIME_SMART_KEY in packed then Atoi64(packed[TIME_SMART_KEY]) % 0x1_0000_0000 else 0) == nTimeSmart
  {
    var packed := PackMetadata(mapValue, strFromAccount, nOrderPos, nTimeSmart);
    if nTimeSmart != 0 {
      Atoi64OfNatToStr(nTimeSmart);
      assert packed[TIME_SMART_KEY] == NatToStr(nTimeSmart);
    }
  }

  /** Removing the reserved keys from the stored map leaves the entry's own map. */
  lemma PackedRest(mapValue: MapValue, strFromAccount: string, nOrderPos: int64, nTimeSmart: uint32)
    requires mapValue.Keys !! RESERVED_KEYS
    ensures PackMetadata(mapValue, strFromAccount, nOrderPos, nTimeSmart) - RESERVED_KEYS == mapValue
  {
    var packed := PackMetadata(mapValue, strFromAccount, nOrderPos, nTimeSmart);
    forall k | k in mapValue
      ensures k in packed - RESERVED_KEYS && (packed - RESERVED_KEYS)[k] == mapValue[k]
    {
      assert k !in RESERVED_KEYS;
    }
  }

  /**
   * Loading what was stored restores the account, order position, smart time and the
   * rest of the map, for a map that holds no reserved key (as every entry's map does
   * after it has been stored or loaded once).
   */
  lemma MetadataRoundTrip(mapValue: MapValue, strFromAccount: string, nOrderPos: int64, nTimeSmart: uint32)
    requires mapValue.Keys !! RESERVED_KEYS
    ensures UnpackMetadata(PackMetadata(mapValue, strFromAccount, nOrderPos, nTimeSmart))
         == Metadata(strFromAccount, nOrderPos, nTimeSmart, mapValue)
  {
    assert ORDER_POS_KEY in RESERVED_KEYS && TIME_SMART_KEY in RESERVED_KEYS;
    PackedOrderPos(mapValue, strFromAccount, nOrderPos, nTimeSmart);
    PackedTimeSmart(mapValue, strFromAccount, nOrderPos, nTimeSmart);
    PackedRest(mapValue, strFromAccount, nOrderPos, nTimeSmart);
  }

  /** One cached balance: whether it is valid (the f...Cached flag) and its amount. */
  datatype Cached = Cached(valid: bool, amount: int)

  const EMPTY_CACHE: Cached := Cached(false, 0)

  /** The nine cached balances of a ledger entry, in declaration order. */
  datatype BalanceCaches = BalanceCaches(
    debit: Cached,
    credit: Cached,
    immatureCredit: Cached,
    availableCredit: Cached,
    watchDebit: Cached,
    watchCredit: Cached,
    immatureWatchCredit: Cached,
    availableWatchCredit: Cached,
    change: Cached)

  /** The nine flags, in declaration order. */
  function Flags(c: BalanceCaches): (f: seq<bool>)
    ensures |f| == 9
  {
    [c.debit.valid, c.credit.valid, c.immatureCredit.valid, c.availableCredit.valid, c.watchDebit.valid,
     c.watchCredit.valid, c.immatureWatchCredit.valid, c.availableWatchCredit.valid, c.change.valid]
  }

  /** The nine amounts, in declaration order. */
  function Amounts(c: BalanceCaches): (a: seq<int>)
    ensures |a| == 9
  {
    [c.debit.amount, c.credit.amount, c.immatureCredit.amount, c.availableCredit.amount, c.watchDebit.amount,
     c.watchCredit.amount, c.immatureWatchCredit.amount, c.availableWatchCredit.amount, c.change.amount]
  }

  /** What Init leaves: every flag false and every amount 0. */
  const CLEARED_CACHES: BalanceCaches := BalanceCaches(
    EMPTY_CACHE, EMPTY_CACHE, EMPTY_CACHE, EMPTY_CACHE, EMPTY_CACHE,
    EMPTY_CACHE, EMPTY_CACHE, EMPTY_CACHE, EMPTY_CACHE)

  /** Invalidates one cached balance, keeping its amount. */
  function Invalidate(c: Cached): (r: Cached)
    ensures !r.valid && r.amount == c.amount
  {
    c.(valid := false)
  }

  /**
   * The caches after MarkDirty: every flag but the immature-credit one is cleared;
   * the amounts stay.
   */
  function Dirtied(c: BalanceCaches): (r: BalanceCaches)
    ensures Flags(r) == [false, false, c.immatureCredit.valid, false, false, false, false, false, false]
    ensures Amounts(r) == Amounts(c)
  {
    c.(debit := Invalidate(c.debit), credit := Invalidate(c.credit),
       availableCredit := Invalidate(c.availableCredit), watchDebit := Invalidate(c.watchDebit),
       watchCredit := Invalidate(c.watchCredit), immatureWatchCredit := Invalidate(c.immatureWatchCredit),
       availableWatchCredit := Invalidate(c.availableWatchCredit), change := Invalidate(c.change))
  }

  /** Marking dirty twice is marking dirty once. */
  lemma DirtiedIdempotent(c: BalanceCaches)
    ensures Dirtied(Dirtied(c)) == Dirtied(c)
  {
  }

  class WalletEntry {
    const kind: ObjKind
    var pwallet: Option<WalletId>

    /** The memory-only cached balances (fDebitCached/nDebitCached and the eight other pairs). */
    var caches: BalanceCaches

    var mapValue: MapValue
    var vOrderForm: seq<(string, string)>
    var fTimeReceivedIsTxTime: uint32
    var nTimeReceived: uint32
    var nTimeSmart: uint32
    var fFromMe: bool
    var strFromAccount: string
    var nOrderPos: int64

    /** The notes of a CWalletTx; a CWalletCert has none. */
    var mapNoteData: map<JSOutPoint, NoteData>

    /** Everything but the caches, the owner and the metadata kept in mapValue while stored. */
    function Contents(): Record
      reads this
    {
      Record(mapValue, mapNoteData, vOrderForm, fTimeReceivedIsTxTime, nTimeReceived, fFromMe, false)
    }

    /** Only a CWalletTx carries notes. */
    predicate Valid()
      reads this
    {
      kind == WalletCert ==> mapNoteData == map[]
    }

    /** The state Init leaves behind (mapNoteData aside). */
    predicate Initialized(w: Option<WalletId>)
      reads this
    {
      && pwallet == w
      && mapValue == map[] && vOrderForm == []
      && fTimeReceivedIsTxTime == 0 && nTimeReceived == 0 && nTimeSmart == 0
      && !fFromMe && strFromAccount == ""
      && caches == CLEARED_CACHES
      && nOrderPos == -1
    }

    /** The CWalletTx / CWalletCert constructors taking an owning wallet (or none). */
    constructor (k: ObjKind, w: Option<WalletId>)
      ensures kind == k && Initialized(w) && mapNoteData == map[] && Valid()
    {
      kind := k;
      mapNoteData := map[];
      new;
      Init(w);
    }

    /** CWalletObjBase::Init: owner set, metadata emptied, every cache cleared and zeroed. */
    method Init(w: Option<WalletId>)
      modifies this`pwallet, this`caches, this`mapValue, this`vOrderForm, this`fTimeReceivedIsTxTime
      modifies this`nTimeReceived, this`nTimeSmart, this`fFromMe, this`strFromAccount, this`nOrderPos
      ensures Initialized(w)
    {
      pwallet := w;
      mapValue := map[];
      vOrderForm := [];
      fTimeReceivedIsTxTime := 0;
      nTimeReceived := 0;
      nTimeSmart := 0;
      fFromMe := false;
      strFromAccount := "";
      caches := CLEARED_CACHES;
      nOrderPos := -1;
    }

    /**
     * CWalletObjBase::MarkDirty: clears eight of the nine cache flags; the immature
     * credit flag and every cached amount are left as they were.
     */
    method MarkDirty()
      modifies this
      ensures caches == Dirtied(old(caches))
      ensures Contents() == old(Contents()) && pwallet == old(pwallet)
      ensures nTimeSmart == old(nTimeSmart) && strFromAccount == old(strFromAccount) && nOrderPos == old(nOrderPos)
    {
      caches := Dirtied(caches);
    }

    /** BindWallet: a new owner, then MarkDirty. */
    method BindWallet(w: Option<WalletId>)
      modifies this
      ensures pwallet == w
      ensures caches == Dirtied(old(caches))
      ensures Contents() == old(Contents())
      ensures nTimeSmart == old(nTimeSmart) && strFromAccount == old(strFromAccount) && nOrderPos == old(nOrderPos)
    {
      pwallet := w;
      MarkDirty();
    }

    /**
     * GetDebit: 0 for a certificate (the base definition: certificates have no
     * inputs).  The CWalletTx override is not part of this model and enters as txDebit.
     */
    function GetDebit(filter: IsMineFilter, txDebit: int): (d: int)
      ensures kind == WalletCert ==> d == 0
      ensures kind == WalletTx ==> d == txDebit
    {
      if kind == WalletCert then 0 else txDebit
    }

    /** IsFromMe: the entry spends something of ours, i.e. its debit is positive. */
    predicate IsFromMe(filter: IsMineFilter, txDebit: int)
      ensures IsFromMe(filter, txDebit) <==> kind == WalletTx && txDebit > 0
    {
      GetDebit(filter, txDebit) > 0
    }

    /**
     * GetConflicts: empty for a certificate (the base definition); the CWalletTx
     * override is not part of this model and enters as txConflicts.
     */
    function GetConflicts(txConflicts: set<Uint256>): (c: set<Uint256>)
      ensures kind == WalletCert ==> c == {}
      ensures kind == WalletTx ==> c == txConflicts
    {
      if kind == WalletCert then {} else txConflicts
    }

    /**
     * SerializationOp when storing: the record written carries the metadata packed
     * into mapValue; afterwards the entry's own map has lost every reserved key, and
     * no other field changes.
     */
    method Store() returns (rec: Record)
      modifies this`mapValue
      ensures rec.mapValue == PackMetadata(old(mapValue), strFromAccount, nOrderPos, nTimeSmart)
      ensures rec.mapNoteData == mapNoteData && rec.vOrderForm == vOrderForm && !rec.fSpent
      ensures rec.fTimeReceivedIsTxTime == fTimeReceivedIsTxTime && rec.nTimeReceived == nTimeReceived && rec.fFromMe == fFromMe
      ensures mapValue == old(mapValue) - RESERVED_KEYS
    {
      var packed := mapValue[FROM_ACCOUNT_KEY := strFromAccount];
      packed := WriteOrderPos(nOrderPos, packed);
      if nTimeSmart != 0 {
        packed := packed[TIME_SMART_KEY := NatToStr(nTimeSmart)];
      }
      rec := Record(packed, mapNoteData, vOrderForm, fTimeReceivedIsTxTime, nTimeReceived, fFromMe, false);
      assert packed - RESERVED_KEYS == mapValue - RESERVED_KEYS;
      mapValue := packed - RESERVED_KEYS;
    }

    /**
     * SerializationOp when loading: Init with no owner, the stored fields (the notes
     * only for a CWalletTx), then the metadata unpacked from the stored map.
     */
    method Load(rec: Record)
      modifies this
      ensures pwallet == None && caches == CLEARED_CACHES
      ensures Metadata(strFromAccount, nOrderPos, nTimeSmart, mapValue) == UnpackMetadata(rec.mapValue)
      ensures mapNoteData == (if kind == WalletTx then rec.mapNoteData else old(mapNoteData))
      ensures vOrderForm == rec.vOrderForm && fFromMe == rec.fFromMe
      ensures fTimeReceivedIsTxTime == rec.fTimeReceivedIsTxTime && nTimeReceived == rec.nTimeReceived
    {
      Init(None);
      ReadStoredFields(rec);
    }

    /** The part of loading after Init: the stored fields, then the unpacked metadata. */
    method ReadStoredFields(rec: Record)
      modifies this`mapNoteData, this`mapValue, this`vOrderForm, this`fTimeReceivedIsTxTime
      modifies this`nTimeReceived, this`nTimeSmart, this`fFromMe, this`strFromAccount, this`nOrderPos
      ensures Metadata(strFromAccount, nOrderPos, nTimeSmart, mapValue) == UnpackMetadata(rec.mapValue)
      ensures mapNoteData == (if kind == WalletTx then rec.mapNoteData else old(mapNoteData))
      ensures vOrderForm == rec.vOrderForm && fFromMe == rec.fFromMe
      ensures fTimeReceivedIsTxTime == rec.fTimeReceivedIsTxTime && nTimeReceived == rec.nTimeReceived
    {
      if kind == WalletTx {
        mapNoteData := rec.mapNoteData;
      }
      vOrderForm := rec.vOrderForm;
      fTimeReceivedIsTxTime := rec.fTimeReceivedIsTxTime;
      nTimeReceived := rec.nTimeReceived;
      fFromMe := rec.fFromMe;
      var md := UnpackMetadata(rec.mapValue);
      strFromAccount := md.strFromAccount;
      nOrderPos := md.nOrderPos;
      nTimeSmart := md.nTimeSmart;
      mapValue := md.mapValue;
    }
  }

  /** A certificate never counts as spending the wallet's funds, whatever the filter. */
  lemma CertificateIsNeverFromMe(e: WalletEntry, filter: IsMineFilter, txDebit: int)
    requires e.kind == WalletCert
    ensures !e.IsFromMe(filter, txDebit)
    ensures forall txConflicts :: e.GetConflicts(txConflicts) == {}
  {
  }

  /**
   * Storing an entry and loading the record into another entry of the same kind
   * restores its metadata and its map, once the entry's map holds no reserved key.
   */
  method StoreThenLoad(e: WalletEntry, f: WalletEntry)
    requires e != f && e.kind == f.kind && e.Valid() && f.Valid()
    requires e.mapValue.Keys !! RESERVED_KEYS
    modifies e, f
    ensures Metadata(f.strFromAccount, f.nOrderPos, f.nTimeSmart, f.mapValue)
         == Metadata(old(e.strFromAccount), old(e.nOrderPos), old(e.nTimeSmart), old(e.mapValue))
    ensures f.Contents() == e.Contents() == old(e.Contents())
    ensures e.Valid() && f.Valid()
  {
    var rec := e.Store();
    f.Load(rec);
    MetadataRoundTrip(old(e.mapValue), e.strFromAccount, e.nOrderPos, e.nTimeSmart);
  }
}
