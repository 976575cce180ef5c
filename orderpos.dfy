/**
 * The order position of a ledger entry, kept in its string map under the key "n".
 */
module OrderPos {
  import opened Decimal

  /** mapValue_t: the string-to-string metadata map of a ledger entry. */
  type MapValue = map<string, string>

  const ORDER_POS_KEY: string := "n"

  /** ReadOrderPos: the value stored under "n", or -1 (unknown) when there is none. */
  function ReadOrderPos(mapValue: MapValue): (nOrderPos: int64)
    ensures ORDER_POS_KEY !in mapValue ==> nOrderPos == -1
    ensures ORDER_POS_KEY in mapValue ==> nOrderPos == Atoi64(mapValue[ORDER_POS_KEY])
  {
    if ORDER_POS_KEY !in mapValue then -1 else Atoi64(mapValue[ORDER_POS_KEY])
  }

  /**
   * WriteOrderPos: the unknown position -1 is not stored; any other position replaces
   * the value under "n".  No other key is touched.
   */
  function WriteOrderPos(nOrderPos: int64, mapValue: MapValue): (r: MapValue)
    ensures nOrderPos == -1 ==> r == mapValue
    ensures nOrderPos != -1 ==> ORDER_POS_KEY in r
    ensures forall k :: k != ORDER_POS_KEY ==> (k in r <==> k in mapValue)
    ensures forall k :: k != ORDER_POS_KEY && k in mapValue ==> r[k] == mapValue[k]
  {
    if nOrderPos == -1 then mapValue else mapValue[ORDER_POS_KEY := I64ToStr(nOrderPos)]
  }

  /**
   * Reading after writing gives back the position, provided the map does not already
   * hold a stale "n" when the unknown position -1 is written.
   */
  lemma ReadAfterWrite(nOrderPos: int64, mapValue: MapValue)
    requires nOrderPos != -1 || ORDER_POS_KEY !in mapValue
    ensures ReadOrderPos(WriteOrderPos(nOrderPos, mapValue)) == nOrderPos
  {
    if nOrderPos != -1 {
      Atoi64OfI64ToStr(nOrderPos);
    }
  }

  /** Writing then erasing "n" restores a map that held no "n"; an empty result means nothing was stored. */
  lemma EraseAfterWrite(nOrderPos: int64, mapValue: MapValue)
    requires ORDER_POS_KEY !in mapValue
    ensures WriteOrderPos(nOrderPos, mapValue) - {ORDER_POS_KEY} == mapValue
    ensures WriteOrderPos(nOrderPos, mapValue) == map[] <==> nOrderPos == -1 && mapValue == map[]
  {
    var r := WriteOrderPos(nOrderPos, mapValue);
    if nOrderPos != -1 {
      assert ORDER_POS_KEY in r;
    }
  }
}
