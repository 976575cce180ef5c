/**
 * The data-stream encoding the accounting entry uses for its packed map: the
 * compact-size integer, length-prefixed strings and std::map<string, string>
 * (a compact-size count followed by key and value of each entry).  A stream is a
 * sequence of characters, each one byte of the stream.
 */
module StreamCodec {
  import opened Common

  type Stream = seq<char>

  /** The largest size ReadCompactSize accepts. */
  const MAX_SIZE: nat := 0x0200_0000

  const END_OF_DATA := "CDataStream::read(): end of data"
  const NON_CANONICAL := "non-canonical ReadCompactSize()"
  const SIZE_TOO_LARGE := "ReadCompactSize(): size too large"

  predicate IsByte(c: char)
  {
    c as int < 256
  }

  predicate AllBytes(s: Stream)
  {
    forall i :: 0 <= i < |s| ==> IsByte(s[i])
  }

  function Pow256(k: nat): nat
  {
    if k == 0 then 1 else 256 * Pow256(k - 1)
  }

  /** The k low-order bytes of n, least significant first. */
  function LittleEndian(n: nat, k: nat): (s: Stream)
    ensures |s| == k && AllBytes(s)
  {
    if k == 0 then [] else [(n % 256) as char] + LittleEndian(n / 256, k - 1)
  }

  /** The number a little-endian byte string denotes. */
  function LittleEndianValue(s: Stream): nat
    requires AllBytes(s)
  {
    if |s| == 0 then 0 else s[0] as int + 256 * LittleEndianValue(s[1..])
  }

  lemma {:induction false} LittleEndianRoundTrip(n: nat, k: nat)
    requires n < Pow256(k)
    ensures LittleEndianValue(LittleEndian(n, k)) == n
  {
    if k > 0 {
      LittleEndianRoundTrip(n / 256, k - 1);
      assert LittleEndian(n, k)[1..] == LittleEndian(n / 256, k - 1);
    }
  }

  /**
   * WriteCompactSize: one byte below 253, else a marker byte and 2, 4 or 8
   * little-endian bytes (a size_t holds at most 64 bits).
   */
  function WriteCompactSize(n: nat): (s: Stream)
    ensures 1 <= |s| <= 9 && AllBytes(s)
  {
    if n < 253 then [n as char]
    else if n <= 0xFFFF then [253 as char] + LittleEndian(n, 2)
    else if n <= 0xFFFF_FFFF then [254 as char] + LittleEndian(n, 4)
    else [255 as char] + LittleEndian(n, 8)
  }

  /**
   * ReadCompactSize: the value and the number of bytes it took.  Fails at the end of
   * the data, on a value that a shorter form could have held, and on a value above
   * MAX_SIZE.  (A character that is not a byte cannot occur in a real stream; it is
   * treated as missing data.)
   */
  function ReadCompactSize(s: Stream): (r: Result<(nat, nat)>)
    ensures r.Success? ==> r.value.0 <= MAX_SIZE && 1 <= r.value.1 <= |s|
  {
    if |s| == 0 || !IsByte(s[0]) then Failure(END_OF_DATA)
    else
      var tag := s[0] as int;
      if tag < 253 then Success((tag, 1))
      else
        var k := if tag == 253 then 2 else if tag == 254 then 4 else 8;
        var least := if tag == 253 then 253 else if tag == 254 then 0x1_0000 else 0x1_0000_0000;
        if |s| < 1 + k || !AllBytes(s[1..1 + k]) then Failure(END_OF_DATA)
        else
          var v := LittleEndianValue(s[1..1 + k]);
          if v < least then Failure(NON_CANONICAL)
          else if v > MAX_SIZE then Failure(SIZE_TOO_LARGE)
          else Success((v, 1 + k))
  }

  /** Every size up to MAX_SIZE reads back, whatever follows it. */
  lemma ReadCompactSizeOfWrite(n: nat, rest: Stream)
    requires n <= MAX_SIZE
    ensures ReadCompactSize(WriteCompactSize(n) + rest) == Success((n, |WriteCompactSize(n)|))
  {
    var w := WriteCompactSize(n);
    var s := w + rest;
    if n >= 253 {
      var k := if n <= 0xFFFF then 2 else 4;
      assert Pow256(2) == 0x1_0000;
      assert Pow256(4) == 0x1_0000_0000;
      LittleEndianRoundTrip(n, k);
      assert s[1..1 + k] == w[1..] == LittleEndian(n, k);
    }
  }

  /** A string: its length as a compact size, then its characters. */
  function WriteString(str: string): (s: Stream)
  {
    WriteCompactSize(|str|) + str
  }

  /** Reads a string; the result holds the string and the number of bytes it took. */
  function ReadString(s: Stream): (r: Result<(string, nat)>)
    ensures r.Success? ==> r.value.1 <= |s|
  {
    var size := ReadCompactSize(s);
    if size.Failure? then Failure(size.error)
    else
      var n := size.value.0;
      var used := size.value.1;
      if |s| < used + n then Failure(END_OF_DATA) else Success((s[used..used + n], used + n))
  }

  lemma ReadStringOfWrite(str: string, rest: Stream)
    requires |str| <= MAX_SIZE
    ensures ReadString(WriteString(str) + rest) == Success((str, |WriteString(str)|))
  {
    var c := WriteCompactSize(|str|);
    ReadCompactSizeOfWrite(|str|, str + rest);
    assert WriteString(str) + rest == c + (str + rest);
    assert (c + (str + rest))[|c|..|c| + |str|] == str;
  }

  /** The key and value of each pair, one after the other. */
  function WritePairs(ps: seq<(string, string)>): Stream
  {
    if |ps| == 0 then [] else WriteString(ps[0].0) + (WriteString(ps[0].1) + WritePairs(ps[1..]))
  }

  /** Every key and value, and the number of entries, fit a compact size that reads back. */
  predicate SizesInRange(m: map<string, string>)
  {
    |m| <= MAX_SIZE && forall k :: k in m ==> |k| <= MAX_SIZE && |m[k]| <= MAX_SIZE
  }

  /** An enumeration of the keys of m: each key exactly once. */
  predicate IsKeyOrder(m: map<string, string>, order: seq<string>)
  {
    && |order| == |m| && Distinct(order)
    && (forall i :: 0 <= i < |order| ==> order[i] in m)
    && (forall k :: k in m ==> k in order)
  }

  /** The pairs of m in the given key order. */
  function PairsInOrder(m: map<string, string>, order: seq<string>): (ps: seq<(string, string)>)
    requires forall i :: 0 <= i < |order| ==> order[i] in m
    ensures |ps| == |order| && forall i :: 0 <= i < |order| ==> ps[i] == (order[i], m[order[i]])
  {
    seq(|order|, i requires 0 <= i < |order| => (order[i], m[order[i]]))
  }

  /** operator<< on std::map<string, string>: the entry count, then the entries in the given key order. */
  function WriteMap(m: map<string, string>, order: seq<string>): Stream
    requires IsKeyOrder(m, order)
  {
    WriteCompactSize(|m|) + WritePairs(PairsInOrder(m, order))
  }

  /** Reads one key and one value; the result holds both and the number of bytes they took. */
  function ReadPair(s: Stream): (r: Result<(string, string, nat)>)
    ensures r.Success? ==> r.value.2 <= |s|
  {
    var key := ReadString(s);
    if key.Failure? then Failure(key.error)
    else
      var value := ReadString(s[key.value.1..]);
      if value.Failure? then Failure(value.error)
      else Success((key.value.0, value.value.0, key.value.1 + value.value.1))
  }

  /** std::map::insert: an existing key keeps its value. */
  function Insert(acc: map<string, string>, k: string, v: string): map<string, string>
  {
    if k in acc then acc else acc[k := v]
  }

  /**
   * Reads count pairs, inserting each into acc (the first value of a key wins);
   * the result holds the map and the unread rest.
   */
  function ReadPairs(s: Stream, count: nat, acc: map<string, string>): Result<(map<string, string>, Stream)>
    decreases count
  {
    if count == 0 then Success((acc, s))
    else
      var pair := ReadPair(s);
      if pair.Failure? then Failure(pair.error)
      else ReadPairs(s[pair.value.2..], count - 1, Insert(acc, pair.value.0, pair.value.1))
  }

  /** operator>> on std::map<string, string>: the count, then that many pairs; the result holds the map and the rest. */
  function ReadMap(s: Stream): Result<(map<string, string>, Stream)>
  {
    var count := ReadCompactSize(s);
    if count.Failure? then Failure(count.error)
    else ReadPairs(s[count.value.1..], count.value.0, map[])
  }

  /** The map that inserting the pairs one by one into acc yields (an existing key keeps its value). */
  function InsertAll(acc: map<string, string>, ps: seq<(string, string)>): map<string, string>
    decreases |ps|
  {
    if |ps| == 0 then acc
    else InsertAll(Insert(acc, ps[0].0, ps[0].1), ps[1..])
  }

  /** A written key and value read back as that pair, taking exactly the bytes written. */
  lemma ReadPairOfWrite(k: string, v: string, tail: Stream)
    requires |k| <= MAX_SIZE && |v| <= MAX_SIZE
    ensures ReadPair(WriteString(k) + (WriteString(v) + tail))
         == Success((k, v, |WriteString(k)| + |WriteString(v)|))
  {
    var wk, wv := WriteString(k), WriteString(v);
    var s := wk + (wv + tail);
    ReadStringOfWrite(k, wv + tail);
    assert s[|wk|..] == wv + tail;
    ReadStringOfWrite(v, tail);
  }

  /** One successful pair read is one insertion, and reading goes on after it. */
  lemma ReadPairsStep(s: Stream, count: nat, acc: map<string, string>, k: string, v: string, n: nat)
    requires count > 0 && ReadPair(s) == Success((k, v, n))
    ensures n <= |s|
    ensures ReadPairs(s, count, acc) == ReadPairs(s[n..], count - 1, Insert(acc, k, v))
  {
  }

  /** Regrouping a concatenation of four streams. */
  lemma Regroup(a: Stream, b: Stream, c: Stream, d: Stream)
    ensures (a + (b + c)) + d == a + (b + (c + d))
  {
  }

  /** Regrouping a concatenation of three streams, and what follows the first. */
  lemma Regroup2(a: Stream, b: Stream, d: Stream)
    ensures (a + b) + d == a + (b + d) && (a + (b + d))[|a|..] == b + d
  {
  }

  /** What follows two leading streams. */
  lemma DropTwo(a: Stream, b: Stream, t: Stream)
    ensures (a + (b + t))[|a| + |b|..] == t
  {
  }

  /** The first written pair is read first, and reading goes on at the pairs after it. */
  lemma ReadFirstPair(ps: seq<(string, string)>, rest: Stream) returns (n: nat)
    requires |ps| > 0 && |ps[0].0| <= MAX_SIZE && |ps[0].1| <= MAX_SIZE
    ensures ReadPair(WritePairs(ps) + rest) == Success((ps[0].0, ps[0].1, n))
    ensures n <= |WritePairs(ps) + rest| && (WritePairs(ps) + rest)[n..] == WritePairs(ps[1..]) + rest
  {
    var wk, wv, tail := WriteString(ps[0].0), WriteString(ps[0].1), WritePairs(ps[1..]) + rest;
    n := |wk| + |wv|;
    Regroup(wk, wv, WritePairs(ps[1..]), rest);
    DropTwo(wk, wv, tail);
    ReadPairOfWrite(ps[0].0, ps[0].1, tail);
  }

  /** Reading written pairs inserts exactly those pairs and stops where they end. */
  lemma {:induction false} ReadPairsOfWrite(ps: seq<(string, string)>, rest: Stream, acc: map<string, string>)
    requires forall i :: 0 <= i < |ps| ==> |ps[i].0| <= MAX_SIZE && |ps[i].1| <= MAX_SIZE
    ensures ReadPairs(WritePairs(ps) + rest, |ps|, acc) == Success((InsertAll(acc, ps), rest))
  {
    if |ps| > 0 {
      var n := ReadFirstPair(ps, rest);
      var acc' := Insert(acc, ps[0].0, ps[0].1);
      ReadPairsStep(WritePairs(ps) + rest, |ps|, acc, ps[0].0, ps[0].1, n);
      ReadPairsOfWrite(ps[1..], rest, acc');
      assert InsertAll(acc, ps) == InsertAll(acc', ps[1..]);
    } else {
      assert WritePairs(ps) + rest == rest;
    }
  }

  /** Inserting the pairs of m in a key order, none of whose keys acc holds, adds them all. */
  lemma {:induction false} InsertAllInOrder(acc: map<string, string>, m: map<string, string>, order: seq<string>)
    requires Distinct(order)
    requires forall i :: 0 <= i < |order| ==> order[i] in m && order[i] !in acc
    ensures var r := InsertAll(acc, PairsInOrder(m, order));
      && (forall k :: k in r <==> k in acc || k in order)
      && (forall k :: k in acc ==> r[k] == acc[k])
      && (forall k :: k in order ==> r[k] == m[k])
    decreases |order|
  {
    if |order| > 0 {
      var ps := PairsInOrder(m, order);
      var rest := order[1..];
      assert ps[1..] == PairsInOrder(m, rest);
      var acc' := Insert(acc, order[0], m[order[0]]);
      forall i | 0 <= i < |rest|
        ensures rest[i] in m && rest[i] !in acc'
      {
        assert rest[i] == order[i + 1];
      }
      assert InsertAll(acc, ps) == InsertAll(acc', ps[1..]);
      InsertAllInOrder(acc', m, rest);
      assert order[0] !in rest;
      assert forall k :: k in order <==> k == order[0] || k in rest;
    }
  }

  /** Inserting all pairs of m, in any key order, into an empty map rebuilds m. */
  lemma InsertAllRebuilds(m: map<string, string>, order: seq<string>)
    requires IsKeyOrder(m, order)
    ensures InsertAll(map[], PairsInOrder(m, order)) == m
  {
    InsertAllInOrder(map[], m, order);
  }

  /** The map reader consumes the count and then the pairs the writer emitted. */
  lemma ReadMapOfWritePairs(m: map<string, string>, order: seq<string>, rest: Stream)
    requires IsKeyOrder(m, order) && SizesInRange(m)
    ensures ReadMap(WriteMap(m, order) + rest) == Success((InsertAll(map[], PairsInOrder(m, order)), rest))
  {
    var ps := PairsInOrder(m, order);
    var c := WriteCompactSize(|m|);
    var body := WritePairs(ps) + rest;
    assert WriteMap(m, order) + rest == c + body && (c + body)[|c|..] == body by {
      Regroup2(c, WritePairs(ps), rest);
    }
    ReadCompactSizeOfWrite(|m|, body);
    forall i | 0 <= i < |ps|
      ensures |ps[i].0| <= MAX_SIZE && |ps[i].1| <= MAX_SIZE
    {
      assert ps[i] == (order[i], m[order[i]]);
    }
    ReadPairsOfWrite(ps, rest, map[]);
  }

  /** What operator<< writes, operator>> reads back, in any key order, leaving what follows untouched. */
  lemma ReadMapOfWrite(m: map<string, string>, order: seq<string>, rest: Stream)
    requires IsKeyOrder(m, order) && SizesInRange(m)
    ensures ReadMap(WriteMap(m, order) + rest) == Success((m, rest))
  {
    ReadMapOfWritePairs(m, order, rest);
    InsertAllRebuilds(m, order);
  }

  /** Lists the keys of m in some order (std::map enumerates them sorted; the order is not fixed here). */
  method KeyOrder(m: map<string, string>) returns (order: seq<string>)
    ensures IsKeyOrder(m, order)
  {
    order := [];
    var remaining := m.Keys;
    while remaining != {}
      invariant remaining <= m.Keys
      invariant |order| + |remaining| == |m.Keys|
      invariant Distinct(order)
      invariant forall k :: k in m <==> k in order || k in remaining
      invariant forall i :: 0 <= i < |order| ==> order[i] !in remaining
      decreases |remaining|
    {
      var k :| k in remaining;
      order := order + [k];
      remaining := remaining - {k};
    }
  }
}
