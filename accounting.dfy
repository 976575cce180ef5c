/**
 * CAccountingEntry: an internal transfer between accounts of the wallet.  Its
 * metadata map and any extra bytes travel inside the comment string, after a
 * NUL separator.
 */
module Accounting {
  import opened Common
  import opened Bytes
  import opened Decimal
  import opened OrderPos
  import opened StreamCodec

  const NUL: char := '\0'

  /** LIMITED_STRING(..., 65536): the longest string the reader accepts. */
  const STRING_LIMIT: nat := 65536
  const LIMIT_EXCEEDED := "String length limit exceeded"

  /**
   * The serialised fields of an entry (the account name is part of the database
   * key; the version and the encoding of the integers are not modelled).
   */
  datatype AccountingRecord = AccountingRecord(
    nCreditDebit: int,
    nTime: int64,
    strOtherAccount: string,
    strComment: string)

  /**
   * The comment as written: unchanged when there is neither metadata nor extra
   * data, otherwise followed by a NUL, the encoded map and the extra bytes.
   */
  function PackComment(comment: string, m: MapValue, extra: Stream, order: seq<string>): (s: string)
    requires IsKeyOrder(m, order)
    ensures m == map[] && extra == [] ==> s == comment
    ensures !(m == map[] && extra == []) ==> |s| > |comment| && s[..|comment|] == comment && s[|comment|] == NUL
  {
    if m == map[] && extra == [] then comment else comment + [NUL] + (WriteMap(m, order) + extra)
  }

  /** What a read comment splits into: the text, and the decoded map and extra bytes if a NUL is present. */
  datatype CommentParts = CommentParts(comment: string, trailer: Option<(MapValue, Stream)>)

  /**
   * Splitting a read comment at its first NUL and decoding the map after it; a
   * malformed map is an error.
   */
  function UnpackComment(s: string): (r: Result<CommentParts>)
    ensures NUL !in s ==> r == Success(CommentParts(s, None))
    ensures r.Success? ==> NUL !in r.value.comment && r.value.comment <= s
  {
    var sep := FindFirst(s, NUL);
    if sep == |s| then Success(CommentParts(s, None))
    else
      var decoded := ReadMap(s[sep + 1..]);
      if decoded.Failure? then Failure(decoded.error)
      else Success(CommentParts(s[..sep], Some(decoded.value)))
  }

  /** When a holds no NUL, the first NUL of a + [NUL] + b is the separator at index |a|. */
  lemma FirstSeparator(a: string, b: string)
    requires NUL !in a
    ensures FindFirst(a + [NUL] + b, NUL) == |a|
  {
    var s := a + [NUL] + b;
    assert s[|a|] == NUL;
    assert forall j :: 0 <= j < |a| ==> s[j] == a[j];
  }

  /** A comment followed by a NUL splits at that NUL, and what follows is decoded as the map. */
  lemma UnpackSeparated(comment: string, tail: Stream)
    requires NUL !in comment
    ensures UnpackComment(comment + [NUL] + tail)
         == if ReadMap(tail).Failure? then Failure(ReadMap(tail).error)
            else Success(CommentParts(comment, Some(ReadMap(tail).value)))
  {
    var s := comment + [NUL] + tail;
    FirstSeparator(comment, tail);
    assert s[|comment| + 1..] == tail;
    assert s[..|comment|] == comment;
  }

  /** Unpacking a packed comment gives back the comment, the map and the extra bytes. */
  lemma UnpackOfPack(comment: string, m: MapValue, extra: Stream, order: seq<string>)
    requires NUL !in comment && IsKeyOrder(m, order) && SizesInRange(m)
    ensures UnpackComment(PackComment(comment, m, extra, order))
         == Success(CommentParts(comment, if m == map[] && extra == [] then None else Some((m, extra))))
  {
    if !(m == map[] && extra == []) {
      var tail := WriteMap(m, order) + extra;
      assert PackComment(comment, m, extra, order) == comment + [NUL] + tail;
      UnpackSeparated(comment, tail);
      ReadMapOfWrite(m, order, extra);
    }
  }

  class AccountingEntry {
    var strAccount: string
    var nCreditDebit: int
    var nTime: int64
    var strOtherAccount: string
    var strComment: string
    var mapValue: MapValue
    var nOrderPos: int64
    var nEntryNo: uint64
    /** _ssExtra: bytes after the map in the comment, kept for forward compatibility. */
    var ssExtra: Stream

    /** The constructor: SetNull, with an empty map and no extra bytes. */
    constructor ()
      ensures nCreditDebit == 0 && nTime == 0 && nOrderPos == -1 && nEntryNo == 0
      ensures strAccount == [] && strOtherAccount == [] && strComment == []
      ensures mapValue == map[] && ssExtra == []
    {
      mapValue := map[];
      ssExtra := [];
      new;
      SetNull();
    }

    /** SetNull clears the scalar and string fields; the map and the extra bytes are kept. */
    method SetNull()
      modifies this
      ensures nCreditDebit == 0 && nTime == 0 && nOrderPos == -1 && nEntryNo == 0
      ensures strAccount == [] && strOtherAccount == [] && strComment == []
      ensures mapValue == old(mapValue) && ssExtra == old(ssExtra)
    {
      nCreditDebit := 0;
      nTime := 0;
      strAccount := [];
      strOtherAccount := [];
      strComment := [];
      nOrderPos := -1;
      nEntryNo := 0;
    }

    /**
     * Serialising for writing.  The order position is folded into the map, the
     * packed comment is what is written, and afterwards the comment is cut at its
     * first NUL and the key "n" is dropped from the map.  The key order of the
     * written map is returned as a ghost.
     */
    method Store() returns (rec: AccountingRecord, ghost order: seq<string>)
      modifies this
      ensures IsKeyOrder(WriteOrderPos(old(nOrderPos), old(mapValue)), order)
      ensures rec == AccountingRecord(old(nCreditDebit), old(nTime), old(strOtherAccount),
                                      PackComment(old(strComment), WriteOrderPos(old(nOrderPos), old(mapValue)), old(ssExtra), order))
      ensures strComment == old(strComment)[..FindFirst(old(strComment), NUL)]
      ensures mapValue == old(mapValue) - {ORDER_POS_KEY}
      ensures strAccount == old(strAccount) && nCreditDebit == old(nCreditDebit) && nTime == old(nTime)
      ensures strOtherAccount == old(strOtherAccount) && nOrderPos == old(nOrderPos)
      ensures nEntryNo == old(nEntryNo) && ssExtra == old(ssExtra)
    {
      ghost var comment, m := strComment, mapValue;
      order := AppendTrailer();
      rec := AccountingRecord(nCreditDebit, nTime, strOtherAccount, strComment);
      StripOfPack(comment, mapValue, ssExtra, order);
      StripTrailer();
      EraseTwice(m, nOrderPos);
    }

    /** The write half of the serialiser: "n" is set in the map and the trailer is appended to the comment. */
    method AppendTrailer() returns (ghost order: seq<string>)
      modifies this
      ensures mapValue == WriteOrderPos(old(nOrderPos), old(mapValue)) && IsKeyOrder(mapValue, order)
      ensures strComment == PackComment(old(strComment), mapValue, ssExtra, order)
      ensures strAccount == old(strAccount) && nCreditDebit == old(nCreditDebit) && nTime == old(nTime)
      ensures strOtherAccount == old(strOtherAccount) && nOrderPos == old(nOrderPos)
      ensures nEntryNo == old(nEntryNo) && ssExtra == old(ssExtra)
    {
      mapValue := WriteOrderPos(nOrderPos, mapValue);
      if !(mapValue == map[] && ssExtra == []) {
        var keys := KeyOrder(mapValue);
        order := keys;
        strComment := strComment + [NUL] + (WriteMap(mapValue, keys) + ssExtra);
      } else {
        order := [];
      }
    }

    /** The common tail of the serialiser: the comment is cut at its first NUL and "n" is erased. */
    method StripTrailer()
      modifies this
      ensures strComment == old(strComment)[..FindFirst(old(strComment), NUL)] && NUL !in strComment
      ensures mapValue == old(mapValue) - {ORDER_POS_KEY}
      ensures strAccount == old(strAccount) && nCreditDebit == old(nCreditDebit) && nTime == old(nTime)
      ensures strOtherAccount == old(strOtherAccount) && nOrderPos == old(nOrderPos)
      ensures nEntryNo == old(nEntryNo) && ssExtra == old(ssExtra)
    {
      var sep := FindFirst(strComment, NUL);
      if sep < |strComment| {
        strComment := strComment[..sep];
      }
      mapValue := mapValue - {ORDER_POS_KEY};
    }

    /**
     * Deserialising.  Either string over the limit, or a malformed map after the
     * NUL, is an error.  Without a NUL the map is empty and the extra bytes are
     * left as they were.
     */
    method Load(rec: AccountingRecord) returns (r: Result<()>)
      modifies this
      ensures r.Failure? <==>
        || |rec.strOtherAccount| > STRING_LIMIT || |rec.strComment| > STRING_LIMIT
        || UnpackComment(rec.strComment).Failure?
      ensures r.Success? ==>
        && nCreditDebit == rec.nCreditDebit && nTime == rec.nTime && strOtherAccount == rec.strOtherAccount
        && Unpacked(UnpackComment(rec.strComment).value, old(ssExtra))
        && strAccount == old(strAccount) && nEntryNo == old(nEntryNo)
    {
      nCreditDebit := rec.nCreditDebit;
      nTime := rec.nTime;
      if |rec.strOtherAccount| > STRING_LIMIT {
        return Failure(LIMIT_EXCEEDED);
      }
      strOtherAccount := rec.strOtherAccount;
      if |rec.strComment| > STRING_LIMIT {
        return Failure(LIMIT_EXCEEDED);
      }
      r := ReadComment(rec.strComment);
    }

    /**
     * The state the reader leaves from the parts of a comment: the text before the
     * NUL; the decoded map without "n", the order position read from it and the
     * extra bytes; or, without a NUL, an empty map, position -1 and the extra bytes
     * previously held.
     */
    predicate Unpacked(parts: CommentParts, previousExtra: Stream)
      reads this
    {
      && strComment == parts.comment
      && (parts.trailer.None? ==> mapValue == map[] && nOrderPos == -1 && ssExtra == previousExtra)
      && (parts.trailer.Some? ==>
            && mapValue == parts.trailer.value.0 - {ORDER_POS_KEY}
            && nOrderPos == ReadOrderPos(parts.trailer.value.0)
            && ssExtra == parts.trailer.value.1)
    }

    /** The read half of the serialiser for the comment: split at the NUL, decode the map, read "n". */
    method ReadComment(s: string) returns (r: Result<()>)
      modifies this
      ensures r.Failure? <==> UnpackComment(s).Failure?
      ensures r.Success? ==> Unpacked(UnpackComment(s).value, old(ssExtra))
      ensures strAccount == old(strAccount) && nCreditDebit == old(nCreditDebit) && nTime == old(nTime)
      ensures strOtherAccount == old(strOtherAccount) && nEntryNo == old(nEntryNo)
    {
      var sep := FindFirst(s, NUL);
      var m: MapValue := map[];
      var extra := ssExtra;
      if sep < |s| {
        var decoded := ReadMap(s[sep + 1..]);
        if decoded.Failure? {
          strComment, mapValue := s, map[];
          return Failure(decoded.error);
        }
        m, extra := decoded.value.0, decoded.value.1;
      }
      strComment := if sep < |s| then s[..sep] else s;
      nOrderPos := ReadOrderPos(m);
      mapValue := m - {ORDER_POS_KEY};
      ssExtra := extra;
      r := Success(());
    }
  }

  /** Erasing "n" twice is erasing it once, which is all of WriteOrderPos that survives. */
  lemma EraseTwice(m: MapValue, nOrderPos: int64)
    ensures WriteOrderPos(nOrderPos, m) - {ORDER_POS_KEY} == m - {ORDER_POS_KEY}
  {
  }

  /** Cutting a packed comment at its first NUL cuts the original comment at its first NUL. */
  lemma StripOfPack(comment: string, m: MapValue, extra: Stream, order: seq<string>)
    requires IsKeyOrder(m, order)
    ensures var p := PackComment(comment, m, extra, order);
            p[..FindFirst(p, NUL)] == comment[..FindFirst(comment, NUL)]
  {
    var p := PackComment(comment, m, extra, order);
    if p != comment {
      if FindFirst(comment, NUL) == |comment| {
        FirstSeparator(comment, WriteMap(m, order) + extra);
      } else {
        FirstIn(comment, p[|comment|..]);
        assert p == comment + p[|comment|..];
      }
    }
  }

  /** When a has a NUL, the first NUL of a + b is the first NUL of a. */
  lemma FirstIn(a: string, b: string)
    requires FindFirst(a, NUL) < |a|
    ensures FindFirst(a + b, NUL) == FindFirst(a, NUL)
  {
    var s, i := a + b, FindFirst(a, NUL);
    assert s[i] == NUL;
    assert forall j :: 0 <= j < i ==> s[j] == a[j];
  }

  /**
   * An entry written by one object and read into another comes back whole: the
   * read fails only when the written strings exceed the limit, and otherwise
   * returns the comment, the map and the order position.  Requires the state
   * that Store and Load leave behind: no NUL in the comment and no "n" in the map.
   */
  method StoreThenLoad(e: AccountingEntry, f: AccountingEntry) returns (rec: AccountingRecord, r: Result<()>)
    requires e != f
    requires NUL !in e.strComment && ORDER_POS_KEY !in e.mapValue
    requires SizesInRange(WriteOrderPos(e.nOrderPos, e.mapValue))
    modifies e, f
    ensures r.Failure? <==> |rec.strOtherAccount| > STRING_LIMIT || |rec.strComment| > STRING_LIMIT
    ensures r.Success? ==>
      && f.nCreditDebit == old(e.nCreditDebit) && f.nTime == old(e.nTime)
      && f.strOtherAccount == old(e.strOtherAccount) && f.strComment == old(e.strComment)
      && f.mapValue == old(e.mapValue) && f.nOrderPos == old(e.nOrderPos)
      && f.ssExtra == (if old(e.mapValue) == map[] && old(e.nOrderPos) == -1 && old(e.ssExtra) == []
                       then old(f.ssExtra) else old(e.ssExtra))
  {
    ghost var m0, pos, extra := e.mapValue, e.nOrderPos, e.ssExtra;
    ghost var order;
    rec, order := e.Store();
    UnpackOfPack(old(e.strComment), WriteOrderPos(pos, m0), extra, order);
    r := f.Load(rec);
    ReadAfterWrite(pos, m0);
    EraseAfterWrite(pos, m0);
  }
}
