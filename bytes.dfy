/**
 * Fixed-width integers and byte strings.  uint256 and uint160 are stored as byte
 * strings; their ordering (base_blob::operator<) is memcmp over the stored bytes.
 */
module Bytes {

  type byte = x: int | 0 <= x < 256
  type uint8 = byte
  type uint32 = x: int | 0 <= x < 0x1_0000_0000
  type uint64 = x: int | 0 <= x < 0x1_0000_0000_0000_0000

  const UINT32_MAX: uint32 := 0xFFFF_FFFF

  const ZERO_256: seq<byte> := [
    0, 0, 0, 0, 0, 0, 0, 0, 0, 0, 0, 0, 0, 0, 0, 0,
    0, 0, 0, 0, 0, 0, 0, 0, 0, 0, 0, 0, 0, 0, 0, 0]
  const ZERO_160: seq<byte> := [
    0, 0, 0, 0, 0, 0, 0, 0, 0, 0, 0, 0, 0, 0, 0, 0, 0, 0, 0, 0]

  /** A uint256: 32 bytes. */
  type Uint256 = s: seq<byte> | |s| == 32 witness ZERO_256

  /** A uint160: 20 bytes. */
  type Uint160 = s: seq<byte> | |s| == 20 witness ZERO_160

  /** uint256::IsNull: every byte is zero. */
  predicate IsZero(s: seq<byte>)
  {
    forall i :: 0 <= i < |s| ==> s[i] == 0
  }

  /** memcmp order: the first differing byte decides; a proper prefix comes first. */
  predicate LexLess(a: seq<byte>, b: seq<byte>)
    decreases |a|
  {
    |b| > 0 && (|a| == 0 || a[0] < b[0] || (a[0] == b[0] && LexLess(a[1..], b[1..])))
  }

  lemma {:induction false} LexLessIrreflexive(a: seq<byte>)
    ensures !LexLess(a, a)
    decreases |a|
  {
    if |a| > 0 {
      LexLessIrreflexive(a[1..]);
    }
  }

  lemma {:induction false} LexLessTransitive(a: seq<byte>, b: seq<byte>, c: seq<byte>)
    requires LexLess(a, b) && LexLess(b, c)
    ensures LexLess(a, c)
    decreases |a|
  {
    if |a| > 0 && a[0] == b[0] && b[0] == c[0] {
      LexLessTransitive(a[1..], b[1..], c[1..]);
    }
  }

  /** Exactly one of a < b, a == b, b < a holds. */
  lemma {:induction false} LexLessTrichotomy(a: seq<byte>, b: seq<byte>)
    ensures LexLess(a, b) || a == b || LexLess(b, a)
    ensures !(LexLess(a, b) && LexLess(b, a))
    decreases |a|
  {
    if |a| > 0 && |b| > 0 && a[0] == b[0] {
      LexLessTrichotomy(a[1..], b[1..]);
      if a[1..] == b[1..] {
        assert a == [a[0]] + a[1..] && b == [b[0]] + b[1..];
      }
    }
    if LexLess(a, b) && LexLess(b, a) {
      LexLessTransitive(a, b, a);
      LexLessIrreflexive(a);
    }
  }

  /** The all-zero value (uint256::SetNull) is below every other value of its width. */
  lemma {:induction false} ZeroIsLeast(a: seq<byte>, b: seq<byte>)
    requires |a| == |b| && IsZero(a) && !IsZero(b)
    ensures LexLess(a, b)
    decreases |a|
  {
    if b[0] == 0 {
      assert IsZero(a[1..]);
      assert !IsZero(b[1..]) by {
        var i :| 0 <= i < |b| && b[i] != 0;
        assert b[1..][i - 1] == b[i];
      }
      ZeroIsLeast(a[1..], b[1..]);
    }
  }

  /**
   * std::find: the index of the first element equal to x, or |s| when there is none.
   */
  function FindFirst<T(==)>(s: seq<T>, x: T): (i: nat)
    ensures i <= |s|
    ensures i < |s| ==> s[i] == x
    ensures forall j :: 0 <= j < i ==> s[j] != x
  {
    if |s| == 0 then 0
    else if s[0] == x then 0
    else 1 + FindFirst(s[1..], x)
  }
}
