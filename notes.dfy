/**
 * Shielded notes held by the wallet: the note outpoint (JSOutPoint) with its
 * ordering, and the per-note data (CNoteData) with its constructors, ordering and
 * equality.
 */
module Notes {
  import opened Common
  import opened Bytes

  /** A note outpoint: transaction hash, joinsplit index and output index within it. */
  datatype JSOutPoint = JSOutPoint(hash: Uint256, js: uint64, n: uint8)

  /** JSOutPoint::IsNull: only the hash is consulted. */
  predicate IsNullJSOutPoint(p: JSOutPoint)
  {
    IsZero(p.hash)
  }

  /**
   * JSOutPoint::SetNull: the hash becomes zero and js and n keep their values.  The
   * default constructor calls it on fields it leaves uninitialised, so a
   * default-constructed outpoint is this function of arbitrary js and n.
   */
  function SetNullJSOutPoint(p: JSOutPoint): (q: JSOutPoint)
    ensures IsNullJSOutPoint(q)
    ensures q.js == p.js && q.n == p.n
  {
    p.(hash := ZERO_256)
  }

  /** A null outpoint sorts before every outpoint that is not null. */
  lemma NullJSOutPointSortsFirst(p: JSOutPoint, q: JSOutPoint)
    requires IsNullJSOutPoint(p) && !IsNullJSOutPoint(q)
    ensures JSOutPointLess(p, q)
  {
    ZeroIsLeast(p.hash, q.hash);
  }

  /** operator< on JSOutPoint: by hash, then js, then n. */
  predicate JSOutPointLess(a: JSOutPoint, b: JSOutPoint)
    ensures LexLess(a.hash, b.hash) ==> JSOutPointLess(a, b)
    ensures JSOutPointLess(a, b) ==> !LexLess(b.hash, a.hash)
  {
    LexLessTrichotomy(a.hash, b.hash);
    LexLessIrreflexive(a.hash);
    LexLess(a.hash, b.hash)
    || (a.hash == b.hash && a.js < b.js)
    || (a.hash == b.hash && a.js == b.js && a.n < b.n)
  }

  lemma JSOutPointLessIrreflexive(a: JSOutPoint)
    ensures !JSOutPointLess(a, a)
  {
    LexLessIrreflexive(a.hash);
  }

  lemma JSOutPointLessTransitive(a: JSOutPoint, b: JSOutPoint, c: JSOutPoint)
    requires JSOutPointLess(a, b) && JSOutPointLess(b, c)
    ensures JSOutPointLess(a, c)
  {
    if LexLess(a.hash, b.hash) && LexLess(b.hash, c.hash) {
      LexLessTransitive(a.hash, b.hash, c.hash);
    }
  }

  /** Exactly one of a < b, a == b (operator==, field-wise) and b < a holds. */
  lemma JSOutPointLessTrichotomy(a: JSOutPoint, b: JSOutPoint)
    ensures JSOutPointLess(a, b) || a == b || JSOutPointLess(b, a)
    ensures !(JSOutPointLess(a, b) && a == b)
    ensures !(JSOutPointLess(a, b) && JSOutPointLess(b, a))
  {
    LexLessTrichotomy(a.hash, b.hash);
    LexLessIrreflexive(a.hash);
    LexLessIrreflexive(b.hash);
  }

  /** A shielded payment address (libzcash::PaymentAddress): a_pk and pk_enc. */
  datatype PaymentAddress = PaymentAddress(aPk: Uint256, pkEnc: Uint256)

  /** operator< on PaymentAddress: by a_pk, then pk_enc. */
  predicate AddressLess(a: PaymentAddress, b: PaymentAddress)
  {
    LexLess(a.aPk, b.aPk) || (a.aPk == b.aPk && LexLess(a.pkEnc, b.pkEnc))
  }

  /** An incremental Merkle witness, reduced to its authentication path. */
  datatype IncrementalWitness = IncrementalWitness(path: seq<Uint256>)

  /**
   * CNoteData: the address, the cached nullifier (absent while it could not be
   * derived), the cached witnesses (most recent first) and the witness height.
   */
  datatype NoteData = NoteData(
    address: PaymentAddress,
    nullifier: Option<Uint256>,
    witnesses: seq<IncrementalWitness>,
    witnessHeight: int)

  /** CNoteData(): the default address, no nullifier, no witnesses, height -1. */
  function NewNoteData(): (d: NoteData)
    ensures d.address == PaymentAddress(ZERO_256, ZERO_256)
    ensures d.nullifier.None? && d.witnesses == [] && d.witnessHeight == -1
  {
    NoteData(PaymentAddress(ZERO_256, ZERO_256), None, [], -1)
  }

  /** CNoteData(a): the given address, no nullifier, no witnesses, height -1. */
  function NoteDataFor(a: PaymentAddress): (d: NoteData)
    ensures d.address == a && d.nullifier.None? && d.witnesses == [] && d.witnessHeight == -1
  {
    NoteData(a, None, [], -1)
  }

  /** CNoteData(a, nf): the given address and nullifier, no witnesses, height -1. */
  function NoteDataWithNullifier(a: PaymentAddress, nf: Uint256): (d: NoteData)
    ensures d.address == a && d.nullifier == Some(nf) && d.witnesses == [] && d.witnessHeight == -1
  {
    NoteData(a, Some(nf), [], -1)
  }

  /** boost::optional's operator<: an absent value is below every present one. */
  predicate OptionLess(a: Option<Uint256>, b: Option<Uint256>)
  {
    b.Some? && (a.None? || LexLess(a.value, b.value))
  }

  lemma OptionLessIrreflexive(o: Option<Uint256>)
    ensures !OptionLess(o, o)
  {
    if o.Some? {
      LexLessIrreflexive(o.value);
    }
  }

  /** operator< on CNoteData: by address, then by nullifier; the witnesses play no part. */
  predicate NoteDataLess(a: NoteData, b: NoteData)
    ensures AddressLess(a.address, b.address) ==> NoteDataLess(a, b)
    ensures NoteDataLess(a, b) ==> !NoteDataEq(a, b) && !AddressLess(b.address, a.address)
  {
    AddressLessTrichotomy(a.address, b.address);
    OptionLessIrreflexive(a.nullifier);
    AddressLess(a.address, b.address) || (a.address == b.address && OptionLess(a.nullifier, b.nullifier))
  }

  /** operator== on CNoteData: same address and same nullifier. */
  predicate NoteDataEq(a: NoteData, b: NoteData)
    ensures a == b ==> NoteDataEq(a, b)
    ensures NoteDataEq(a, b) ==> b == a.(witnesses := b.witnesses, witnessHeight := b.witnessHeight)
  {
    a.address == b.address && a.nullifier == b.nullifier
  }

  /** Note data that differ only in witnesses or witness height compare equal and unordered. */
  lemma NoteDataIgnoresWitnesses(a: NoteData, ws: seq<IncrementalWitness>, h: int)
    ensures NoteDataEq(a, a.(witnesses := ws, witnessHeight := h))
    ensures !NoteDataLess(a, a.(witnesses := ws, witnessHeight := h))
  {
    LexLessIrreflexive(a.address.aPk);
    LexLessIrreflexive(a.address.pkEnc);
    if a.nullifier.Some? {
      LexLessIrreflexive(a.nullifier.value);
    }
  }

  lemma AddressLessTrichotomy(a: PaymentAddress, b: PaymentAddress)
    ensures AddressLess(a, b) || a == b || AddressLess(b, a)
    ensures !(AddressLess(a, b) && AddressLess(b, a))
    ensures !AddressLess(a, a)
  {
    LexLessTrichotomy(a.aPk, b.aPk);
    LexLessTrichotomy(a.pkEnc, b.pkEnc);
    LexLessIrreflexive(a.aPk);
    LexLessIrreflexive(a.pkEnc);
    LexLessIrreflexive(b.aPk);
  }

  /**
   * The CNoteData order is a strict weak order whose equivalence is operator==:
   * exactly one of a < b, a == b and b < a holds, and < is transitive.
   */
  lemma NoteDataLessTrichotomy(a: NoteData, b: NoteData)
    ensures NoteDataLess(a, b) || NoteDataEq(a, b) || NoteDataLess(b, a)
    ensures !(NoteDataLess(a, b) && NoteDataEq(a, b))
    ensures !(NoteDataLess(a, b) && NoteDataLess(b, a))
  {
    AddressLessTrichotomy(a.address, b.address);
    if a.nullifier.Some? && b.nullifier.Some? {
      LexLessTrichotomy(a.nullifier.value, b.nullifier.value);
      LexLessIrreflexive(a.nullifier.value);
    }
  }

  lemma NoteDataLessTransitive(a: NoteData, b: NoteData, c: NoteData)
    requires NoteDataLess(a, b) && NoteDataLess(b, c)
    ensures NoteDataLess(a, c)
  {
    var x, y, z := a.address, b.address, c.address;
    if AddressLess(x, y) && AddressLess(y, z) {
      if LexLess(x.aPk, y.aPk) && LexLess(y.aPk, z.aPk) {
        LexLessTransitive(x.aPk, y.aPk, z.aPk);
      } else if x.aPk == y.aPk && y.aPk == z.aPk {
        LexLessTransitive(x.pkEnc, y.pkEnc, z.pkEnc);
      }
    }
    if x == y && y == z && a.nullifier.Some? && b.nullifier.Some? && c.nullifier.Some?
      && LexLess(a.nullifier.value, b.nullifier.value) && LexLess(b.nullifier.value, c.nullifier.value)
    {
      LexLessTransitive(a.nullifier.value, b.nullifier.value, c.nullifier.value);
    }
  }
}
