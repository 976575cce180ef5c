/**
 * Value accounting of a transaction: output and input totals with their range checks
 * (which throw std::runtime_error in the source: Failure here), the modified size
 * used for priority, and the crosschain amount accumulator.
 */
module TxValues {
  import opened Common
  import opened Bytes
  import opened Money
  import opened Tx

  const BASE_VALUE_OUT_ERROR := "CTransactionBase::GetValueOut(): value out of range"
  const VALUE_OUT_ERROR := "CTransaction::GetValueOut(): value out of range"
  const JOINSPLIT_VALUE_IN_ERROR := "CTransaction::GetJoinSplitValueIn(): value out of range"

  /** Every value and every running total of xs stays within the money range. */
  predicate ValuesAndTotalsInRange(xs: seq<int>)
  {
    AllInRange(xs) && RunningTotalInRange(xs)
  }

  /**
   * CTransactionBase::GetValueOut: the total of the transparent outputs; throws as
   * soon as a value or the running total leaves the money range.
   */
  method GetValueOutBase(vout: seq<TxOut>) returns (r: Result<int>)
    ensures r.Success? <==> ValuesAndTotalsInRange(OutValues(vout))
    ensures r.Success? ==> r.value == Sum(OutValues(vout))
    ensures r.Failure? ==> r.error == BASE_VALUE_OUT_ERROR
  {
    ghost var vals := OutValues(vout);
    var total := 0;
    var i := 0;
    while i < |vout|
      invariant 0 <= i <= |vout|
      invariant total == Sum(vals[..i])
      invariant forall k :: 0 <= k < i ==> MoneyRange(vals[k]) && MoneyRange(Sum(vals[..k + 1]))
    {
      SumPrefixStep(vals, i);
      total := total + vout[i].nValue;
      if !MoneyRange(vout[i].nValue) || !MoneyRange(total) {
        return Failure(BASE_VALUE_OUT_ERROR);
      }
      i := i + 1;
    }
    forall k | 0 < k <= |vals|
      ensures MoneyRange(Sum(vals[..k]))
    {
      assert MoneyRange(Sum(vals[..(k - 1) + 1]));
    }
    assert vals[..i] == vals;
    return Success(total);
  }

  /**
   * The range condition under which CTransaction::GetValueOut returns: every output
   * value and vpub_old is in range and so is the running total over the output values
   * followed by the vpub_old values.
   */
  predicate ValueOutInRange(tx: Transaction)
  {
    var vals := OutValues(tx.vout);
    var olds := VpubOlds(tx.vjoinsplit);
    AllInRange(vals) && AllInRange(olds) && RunningTotalInRange(vals + olds)
  }

  /** The crosschain part of the value out, added without any range check. */
  function CrosschainValueOut(tx: Transaction): int
  {
    GetValueCcOut(tx.vscCcout) + GetValueCcOut(tx.vclCcout) + GetValueCcOut(tx.vftCcout)
  }

  /**
   * CTransaction::GetValueOut: output total plus vpub_old total plus the crosschain
   * totals.  It throws (with the base message when the outputs alone are at fault)
   * iff a value or running total of the first two parts leaves range; the crosschain
   * addition is unchecked.
   */
  method GetValueOut(tx: Transaction) returns (r: Result<int>)
    ensures r.Success? <==> ValueOutInRange(tx)
    ensures r.Success? ==> r.value == Sum(OutValues(tx.vout)) + Sum(VpubOlds(tx.vjoinsplit)) + CrosschainValueOut(tx)
    ensures r.Failure? ==> r.error == (if ValuesAndTotalsInRange(OutValues(tx.vout)) then VALUE_OUT_ERROR else BASE_VALUE_OUT_ERROR)
  {
    ghost var vals := OutValues(tx.vout);
    ghost var olds := VpubOlds(tx.vjoinsplit);
    forall k | 0 < k <= |vals|
      ensures Sum((vals + olds)[..k]) == Sum(vals[..k])
    {
      ConcatPrefixSum(vals, olds, k);
    }
    var base := GetValueOutBase(tx.vout);
    if base.Failure? {
      return base;
    }
    var total := base.value;
    var j := 0;
    while j < |tx.vjoinsplit|
      invariant 0 <= j <= |tx.vjoinsplit|
      invariant total == Sum(vals) + Sum(olds[..j])
      invariant forall k :: 0 <= k < j ==> MoneyRange(olds[k]) && MoneyRange(Sum(vals) + Sum(olds[..k + 1]))
    {
      SumPrefixStep(olds, j);
      total := total + tx.vjoinsplit[j].vpubOld;
      if !MoneyRange(tx.vjoinsplit[j].vpubOld) || !MoneyRange(total) {
        ConcatPrefixSum(vals, olds, |vals| + j + 1);
        return Failure(VALUE_OUT_ERROR);
      }
      j := j + 1;
    }
    forall k | 0 < k <= |vals + olds|
      ensures MoneyRange(Sum((vals + olds)[..k]))
    {
      ConcatPrefixSum(vals, olds, k);
      if k > |vals| {
        assert MoneyRange(Sum(vals) + Sum(olds[..(k - |vals| - 1) + 1]));
      }
    }
    assert olds[..j] == olds;
    total := total + (GetValueCcOut(tx.vscCcout) + GetValueCcOut(tx.vclCcout) + GetValueCcOut(tx.vftCcout));
    return Success(total);
  }

  /** When GetValueOut returns, its checked part (outputs plus vpub_old) is itself a valid amount. */
  lemma ValueOutCheckedPartInRange(tx: Transaction)
    requires ValueOutInRange(tx)
    ensures MoneyRange(Sum(OutValues(tx.vout)) + Sum(VpubOlds(tx.vjoinsplit)))
  {
    var vals := OutValues(tx.vout);
    var olds := VpubOlds(tx.vjoinsplit);
    SumConcat(vals, olds);
    FinalTotalInRange(vals + olds);
  }

  /**
   * CTransaction::GetJoinSplitValueIn: the total of the vpub_new values; throws iff a
   * value or running total leaves the money range.
   */
  method GetJoinSplitValueIn(tx: Transaction) returns (r: Result<int>)
    ensures r.Success? <==> ValuesAndTotalsInRange(VpubNews(tx.vjoinsplit))
    ensures r.Success? ==> r.value == Sum(VpubNews(tx.vjoinsplit))
    ensures r.Failure? ==> r.error == JOINSPLIT_VALUE_IN_ERROR
  {
    ghost var news := VpubNews(tx.vjoinsplit);
    var total := 0;
    var j := 0;
    while j < |tx.vjoinsplit|
      invariant 0 <= j <= |tx.vjoinsplit|
      invariant total == Sum(news[..j])
      invariant forall k :: 0 <= k < j ==> MoneyRange(news[k]) && MoneyRange(Sum(news[..k + 1]))
    {
      SumPrefixStep(news, j);
      total := total + tx.vjoinsplit[j].vpubNew;
      if !MoneyRange(tx.vjoinsplit[j].vpubNew) || !MoneyRange(total) {
        return Failure(JOINSPLIT_VALUE_IN_ERROR);
      }
      j := j + 1;
    }
    forall k | 0 < k <= |news|
      ensures MoneyRange(Sum(news[..k]))
    {
      assert MoneyRange(Sum(news[..(k - 1) + 1]));
    }
    assert news[..j] == news;
    return Success(total);
  }

  /** The values of the outputs the inputs spend, as the coins view reports them. */
  function SpentValues(view: map<OutPoint, TxOut>, vin: seq<TxIn>): (r: seq<int>)
    requires forall i :: 0 <= i < |vin| ==> vin[i].prevout in view
    ensures |r| == |vin| && forall i :: 0 <= i < |vin| ==> r[i] == view[vin[i].prevout].nValue
  {
    seq(|vin|, i requires 0 <= i < |vin| => view[vin[i].prevout].nValue)
  }

  /**
   * CTransaction::GetValueIn: zero for a coinbase; otherwise the (unchecked) total of
   * the spent outputs plus GetJoinSplitValueIn, whose exception propagates.  The coins
   * view is a map that must hold every outpoint a non-coinbase spends (GetOutputFor
   * asserts this); a coinbase returns before the view is consulted.
   */
  method GetValueIn(tx: Transaction, view: map<OutPoint, TxOut>) returns (r: Result<int>)
    requires !IsCoinBase(tx) ==> forall i :: 0 <= i < |tx.vin| ==> tx.vin[i].prevout in view
    ensures IsCoinBase(tx) ==> r == Success(0)
    ensures !IsCoinBase(tx) ==> (r.Success? <==> ValuesAndTotalsInRange(VpubNews(tx.vjoinsplit)))
    ensures !IsCoinBase(tx) && r.Success? ==> r.value == Sum(SpentValues(view, tx.vin)) + Sum(VpubNews(tx.vjoinsplit))
    ensures r.Failure? ==> r.error == JOINSPLIT_VALUE_IN_ERROR
  {
    if IsCoinBase(tx) {
      return Success(0);
    }
    ghost var spent := SpentValues(view, tx.vin);
    var total := 0;
    var i := 0;
    while i < |tx.vin|
      invariant 0 <= i <= |tx.vin|
      invariant total == Sum(spent[..i])
    {
      SumPrefixStep(spent, i);
      total := total + view[tx.vin[i].prevout].nValue;
      i := i + 1;
    }
    assert spent[..i] == spent;
    var js := GetJoinSplitValueIn(tx);
    if js.Failure? {
      return js;
    }
    return Success(total + js.value);
  }

  // ---------------------------------------------------------------- CalculateModifiedSize

  /** The part of an input that priority does not count: 41 bytes plus up to 110 of scriptSig. */
  function InputOffset(txin: TxIn): nat
  {
    41 + (if |txin.scriptSig| < 110 then |txin.scriptSig| else 110)
  }

  /** The sum of the offsets of all inputs. */
  function TotalOffset(vin: seq<TxIn>): nat
  {
    if |vin| == 0 then 0 else InputOffset(vin[0]) + TotalOffset(vin[1..])
  }

  /**
   * The modified size: each input, in order, subtracts its offset from the size only
   * when the size strictly exceeds that offset.
   */
  function ModifiedSize(size: nat, vin: seq<TxIn>): nat
  {
    if |vin| == 0 then size
    else ModifiedSize(if size > InputOffset(vin[0]) then size - InputOffset(vin[0]) else size, vin[1..])
  }

  /** The modified size never exceeds the size, and a positive size stays positive. */
  lemma {:induction false} ModifiedSizeBounds(size: nat, vin: seq<TxIn>)
    ensures ModifiedSize(size, vin) <= size
    ensures size >= 1 ==> ModifiedSize(size, vin) >= 1
  {
    if |vin| > 0 {
      var off := InputOffset(vin[0]);
      ModifiedSizeBounds(if size > off then size - off else size, vin[1..]);
    }
  }

  /** No input removes more than its offset: the modified size is at least size minus all offsets. */
  lemma {:induction false} ModifiedSizeLowerBound(size: nat, vin: seq<TxIn>)
    ensures ModifiedSize(size, vin) >= size - TotalOffset(vin)
  {
    if |vin| > 0 {
      var off := InputOffset(vin[0]);
      ModifiedSizeLowerBound(if size > off then size - off else size, vin[1..]);
    }
  }

  /** When the size exceeds the offsets of all inputs together, every offset is removed. */
  lemma {:induction false} ModifiedSizeExact(size: nat, vin: seq<TxIn>)
    requires size > TotalOffset(vin)
    ensures ModifiedSize(size, vin) == size - TotalOffset(vin)
  {
    if |vin| > 0 {
      ModifiedSizeExact(size - InputOffset(vin[0]), vin[1..]);
    }
  }

  /**
   * CTransaction::CalculateModifiedSize.  A zero nTxSize is replaced by the serialized
   * size (CalculateSize, which is outside this model and enters as serializedSize).
   * The unsigned arithmetic never wraps: the result never exceeds the starting size
   * and a positive starting size yields a positive result.
   */
  method CalculateModifiedSize(tx: Transaction, nTxSize: uint32, serializedSize: uint32) returns (r: uint32)
    ensures r == ModifiedSize(if nTxSize == 0 then serializedSize else nTxSize, tx.vin)
    ensures r <= (if nTxSize == 0 then serializedSize else nTxSize)
    ensures nTxSize > 0 ==> r >= 1
  {
    var size: uint32 := nTxSize;
    if size == 0 {
      size := serializedSize;
    }
    ghost var start := size;
    var i := 0;
    while i < |tx.vin|
      invariant 0 <= i <= |tx.vin|
      invariant size <= start
      invariant ModifiedSize(size, tx.vin[i..]) == ModifiedSize(start, tx.vin)
    {
      var sigSize := |tx.vin[i].scriptSig|;
      var offset := 41 + (if sigSize < 110 then sigSize else 110);
      assert tx.vin[i..][1..] == tx.vin[i + 1..];
      if size > offset {
        size := size - offset;
      }
      i := i + 1;
    }
    ModifiedSizeBounds(start, tx.vin);
    return size;
  }

  // ---------------------------------------------------------------- CheckAmountRange

  /**
   * CTxCrosschainOut::CheckAmountRange: a zero or out-of-range value fails without
   * touching the accumulator; otherwise the value is added and the check fails iff
   * the new total is out of range.
   */
  method CheckAmountRange(out: CrosschainOut, cumulatedAmount: int) returns (ok: bool, newAmount: int)
    ensures (out.nValue == 0 || !MoneyRange(out.nValue)) ==> !ok && newAmount == cumulatedAmount
    ensures out.nValue != 0 && MoneyRange(out.nValue) ==> newAmount == cumulatedAmount + out.nValue && (ok <==> MoneyRange(newAmount))
  {
    newAmount := cumulatedAmount;
    if out.nValue == 0 || !MoneyRange(out.nValue) {
      return false, newAmount;
    }
    newAmount := newAmount + out.nValue;
    if !MoneyRange(newAmount) {
      return false, newAmount;
    }
    return true, newAmount;
  }
}
