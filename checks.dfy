/**
 * Context-free transaction checks (CTransactionBase / CTransaction Check* members).
 * Every check either accepts or rejects with the DoS score and reject reason the
 * source passes to CValidationState::DoS; every rejection carries REJECT_INVALID.
 */
module TxChecks {
  import opened Common
  import opened Bytes
  import opened Money
  import opened Tx

  datatype Verdict = Accept | Reject(dos: nat, reason: string)

  // ---------------------------------------------------------------- CheckOutputsAmount

  /** The reject reason the i-th transparent output raises, given the values of all outputs. */
  function VoutFault(vals: seq<int>, i: nat): Option<string>
    requires i < |vals|
  {
    if vals[i] < 0 then Some("bad-txns-vout-negative")
    else if vals[i] > MAX_MONEY then Some("bad-txns-vout-toolarge")
    else if !MoneyRange(Sum(vals[..i + 1])) then Some("bad-txns-txouttotal-toolarge")
    else None
  }

  /**
   * The reject reason the j-th joinsplit raises when the running total of the
   * outputs before it is base.
   */
  function JoinSplitOutFault(base: int, js: seq<JoinSplit>, j: nat): Option<string>
    requires j < |js|
  {
    var d := js[j];
    if d.vpubOld < 0 then Some("bad-txns-vpub_old-negative")
    else if d.vpubNew < 0 then Some("bad-txns-vpub_new-negative")
    else if d.vpubOld > MAX_MONEY then Some("bad-txns-vpub_old-toolarge")
    else if d.vpubNew > MAX_MONEY then Some("bad-txns-vpub_new-toolarge")
    else if d.vpubNew != 0 && d.vpubOld != 0 then Some("bad-txns-vpubs-both-nonzero")
    else if !MoneyRange(base + Sum(VpubOlds(js)[..j + 1])) then Some("bad-txns-txouttotal-toolarge")
    else None
  }

  /** No output and no joinsplit raises a fault. */
  ghost predicate OutputsAmountFaultFree(tx: Transaction)
  {
    var vals := OutValues(tx.vout);
    && (forall i :: 0 <= i < |vals| ==> VoutFault(vals, i) == None)
    && (forall j :: 0 <= j < |tx.vjoinsplit| ==> JoinSplitOutFault(Sum(vals), tx.vjoinsplit, j) == None)
  }

  /**
   * reason is the fault of the first offending item in source order: the outputs
   * are examined first, then the joinsplits.
   */
  ghost predicate IsFirstOutputsAmountFault(tx: Transaction, reason: string)
  {
    var vals := OutValues(tx.vout);
    || (exists i :: 0 <= i < |vals| && VoutFault(vals, i) == Some(reason)
          && forall i' :: 0 <= i' < i ==> VoutFault(vals, i') == None)
    || ((forall i :: 0 <= i < |vals| ==> VoutFault(vals, i) == None)
          && exists j :: 0 <= j < |tx.vjoinsplit| && JoinSplitOutFault(Sum(vals), tx.vjoinsplit, j) == Some(reason)
               && forall j' :: 0 <= j' < j ==> JoinSplitOutFault(Sum(vals), tx.vjoinsplit, j') == None)
  }

  /**
   * The declarative acceptance condition of CheckOutputsAmount: every output value
   * and every vpub is in range, no joinsplit has both vpubs nonzero, and the running
   * total over the output values followed by the vpub_old values never leaves range.
   */
  ghost predicate OutputsAmountWellFormed(tx: Transaction)
  {
    var vals := OutValues(tx.vout);
    var olds := VpubOlds(tx.vjoinsplit);
    && AllInRange(vals)
    && AllInRange(olds)
    && AllInRange(VpubNews(tx.vjoinsplit))
    && (forall j :: 0 <= j < |tx.vjoinsplit| ==> tx.vjoinsplit[j].vpubOld == 0 || tx.vjoinsplit[j].vpubNew == 0)
    && RunningTotalInRange(vals + olds)
  }

  /** Both directions: no item raises a fault exactly when the transaction is well formed. */
  lemma OutputsAmountFaultFreeIff(tx: Transaction)
    ensures OutputsAmountFaultFree(tx) <==> OutputsAmountWellFormed(tx)
  {
    var vals := OutValues(tx.vout);
    var olds := VpubOlds(tx.vjoinsplit);
    var js := tx.vjoinsplit;
    if OutputsAmountFaultFree(tx) {
      forall k | 0 < k <= |vals + olds|
        ensures MoneyRange(Sum((vals + olds)[..k]))
      {
        ConcatPrefixSum(vals, olds, k);
        if k <= |vals| {
          assert VoutFault(vals, k - 1) == None;
        } else {
          assert JoinSplitOutFault(Sum(vals), js, k - |vals| - 1) == None;
        }
      }
      forall i | 0 <= i < |vals|
        ensures MoneyRange(vals[i])
      {
        assert VoutFault(vals, i) == None;
      }
      forall j | 0 <= j < |js|
        ensures MoneyRange(olds[j]) && MoneyRange(VpubNews(js)[j])
        ensures js[j].vpubOld == 0 || js[j].vpubNew == 0
      {
        assert JoinSplitOutFault(Sum(vals), js, j) == None;
      }
    }
    if OutputsAmountWellFormed(tx) {
      forall i | 0 <= i < |vals|
        ensures VoutFault(vals, i) == None
      {
        ConcatPrefixSum(vals, olds, i + 1);
        assert MoneyRange(vals[i]);
      }
      forall j | 0 <= j < |js|
        ensures JoinSplitOutFault(Sum(vals), js, j) == None
      {
        ConcatPrefixSum(vals, olds, |vals| + j + 1);
        assert MoneyRange(olds[j]) && MoneyRange(VpubNews(js)[j]);
      }
    }
  }

  /**
   * CTransactionBase::CheckOutputsAmount: accepts exactly the well-formed
   * transactions; otherwise rejects with DoS 100 and the reason of the first
   * offending item.
   */
  method CheckOutputsAmount(tx: Transaction) returns (v: Verdict)
    ensures v.Accept? <==> OutputsAmountWellFormed(tx)
    ensures v.Reject? ==> v.dos == 100 && IsFirstOutputsAmountFault(tx, v.reason)
  {
    OutputsAmountFaultFreeIff(tx);
    var fault, i, total := ScanOutputValues(tx);
    if fault.Some? {
      return Reject(100, fault.value);
    }
    var jsFault, j := ScanJoinSplitOuts(tx, total);
    if jsFault.Some? {
      return Reject(100, jsFault.value);
    }
    return Accept;
  }

  /**
   * The loop of CheckOutputsAmount over the outputs: the fault of the first output
   * that raises one (its number is i), else none and the output total.
   */
  method ScanOutputValues(tx: Transaction) returns (fault: Option<string>, i: nat, total: int)
    ensures var vals := OutValues(tx.vout);
      && (fault.Some? ==> i < |vals| && VoutFault(vals, i) == fault && forall i' :: 0 <= i' < i ==> VoutFault(vals, i') == None)
      && (fault.None? ==> total == Sum(vals) && forall i' :: 0 <= i' < |vals| ==> VoutFault(vals, i') == None)
  {
    ghost var vals := OutValues(tx.vout);
    total := 0;
    i := 0;
    while i < |tx.vout|
      invariant 0 <= i <= |tx.vout|
      invariant total == Sum(vals[..i])
      invariant forall i' :: 0 <= i' < i ==> VoutFault(vals, i') == None
    {
      var value := tx.vout[i].nValue;
      SumPrefixStep(vals, i);
      if value < 0 {
        return Some("bad-txns-vout-negative"), i, total;
      }
      if value > MAX_MONEY {
        return Some("bad-txns-vout-toolarge"), i, total;
      }
      total := total + value;
      if !MoneyRange(total) {
        return Some("bad-txns-txouttotal-toolarge"), i, total;
      }
      i := i + 1;
    }
    assert vals[..i] == vals;
    fault := None;
  }

  /**
   * The loop of CheckOutputsAmount over the joinsplits, starting from the output
   * total base: the fault of the first joinsplit that raises one (its number is j),
   * else none.
   */
  method ScanJoinSplitOuts(tx: Transaction, base: int) returns (fault: Option<string>, j: nat)
    ensures fault.Some? ==> j < |tx.vjoinsplit| && JoinSplitOutFault(base, tx.vjoinsplit, j) == fault
                            && forall j' :: 0 <= j' < j ==> JoinSplitOutFault(base, tx.vjoinsplit, j') == None
    ensures fault.None? ==> forall j' :: 0 <= j' < |tx.vjoinsplit| ==> JoinSplitOutFault(base, tx.vjoinsplit, j') == None
  {
    ghost var olds := VpubOlds(tx.vjoinsplit);
    var total := base;
    j := 0;
    while j < |tx.vjoinsplit|
      invariant 0 <= j <= |tx.vjoinsplit|
      invariant total == base + Sum(olds[..j])
      invariant forall j' :: 0 <= j' < j ==> JoinSplitOutFault(base, tx.vjoinsplit, j') == None
    {
      var d := tx.vjoinsplit[j];
      SumPrefixStep(olds, j);
      if d.vpubOld < 0 {
        return Some("bad-txns-vpub_old-negative"), j;
      }
      if d.vpubNew < 0 {
        return Some("bad-txns-vpub_new-negative"), j;
      }
      if d.vpubOld > MAX_MONEY {
        return Some("bad-txns-vpub_old-toolarge"), j;
      }
      if d.vpubNew > MAX_MONEY {
        return Some("bad-txns-vpub_new-toolarge"), j;
      }
      if d.vpubNew != 0 && d.vpubOld != 0 {
        return Some("bad-txns-vpubs-both-nonzero"), j;
      }
      total := total + d.vpubOld;
      if !MoneyRange(total) {
        return Some("bad-txns-txouttotal-toolarge"), j;
      }
      j := j + 1;
    }
    fault := None;
  }

  // ---------------------------------------------------------------- CheckInputsAmount

  /**
   * CTransactionBase::CheckInputsAmount: the joinsplits' vpub_new values must each be
   * in range and their running total must never leave range.
   */
  method CheckInputsAmount(tx: Transaction) returns (v: Verdict)
    ensures v.Accept? <==> AllInRange(VpubNews(tx.vjoinsplit)) && RunningTotalInRange(VpubNews(tx.vjoinsplit))
    ensures v.Reject? ==> v == Reject(100, "bad-txns-txintotal-toolarge")
  {
    ghost var news := VpubNews(tx.vjoinsplit);
    var total := 0;
    var j := 0;
    while j < |tx.vjoinsplit|
      invariant 0 <= j <= |tx.vjoinsplit|
      invariant total == Sum(news[..j])
      invariant forall k :: 0 <= k < j ==> MoneyRange(news[k])
      invariant forall k :: 0 < k <= j ==> MoneyRange(Sum(news[..k]))
    {
      SumPrefixStep(news, j);
      total := total + tx.vjoinsplit[j].vpubNew;
      if !MoneyRange(tx.vjoinsplit[j].vpubNew) || !MoneyRange(total) {
        assert !MoneyRange(news[j]) || !MoneyRange(Sum(news[..j + 1]));
        return Reject(100, "bad-txns-txintotal-toolarge");
      }
      j := j + 1;
    }
    return Accept;
  }

  // ---------------------------------------------------------------- CheckInputsDuplication

  /** The nullifiers of a prefix of the joinsplits are a prefix of all their nullifiers. */
  lemma {:induction false} AllNullifiersPrefix(js: seq<JoinSplit>, j: nat)
    requires j <= |js|
    ensures AllNullifiers(js[..j]) <= AllNullifiers(js)
    decreases |js| - j
  {
    if j == |js| {
      assert js[..j] == js;
    } else {
      AllNullifiersPrefix(js, j + 1);
      assert js[..j + 1][..j] == js[..j];
    }
  }

  /** The elements held in a sequence, as a set. */
  function Elements<T>(s: seq<T>): set<T>
  {
    set x | x in s
  }

  /** The first loop of CheckInputsDuplication: grows the set of seen prevouts until one repeats. */
  method HasDuplicatePrevout(vin: seq<TxIn>) returns (dup: bool)
    ensures dup <==> !Distinct(Prevouts(vin))
  {
    ghost var prevouts := Prevouts(vin);
    var seen: set<OutPoint> := {};
    var i := 0;
    while i < |vin|
      invariant 0 <= i <= |vin|
      invariant seen == Elements(prevouts[..i])
      invariant Distinct(prevouts[..i])
    {
      var p := vin[i].prevout;
      if p in seen {
        assert p in prevouts[..i];
        return true;
      }
      assert prevouts[..i + 1] == prevouts[..i] + [p];
      seen := seen + {p};
      i := i + 1;
    }
    assert prevouts[..i] == prevouts;
    return false;
  }

  /**
   * The inner loop of CheckInputsDuplication over one joinsplit's nullifiers, given
   * the set of nullifiers of the joinsplits before it.
   */
  method ScanNullifiers(js: seq<JoinSplit>, j: nat, seenIn: set<Uint256>) returns (dup: bool, seen: set<Uint256>)
    requires j < |js|
    requires seenIn == Elements(AllNullifiers(js[..j])) && Distinct(AllNullifiers(js[..j]))
    ensures dup ==> !Distinct(AllNullifiers(js))
    ensures !dup ==> seen == Elements(AllNullifiers(js[..j + 1])) && Distinct(AllNullifiers(js[..j + 1]))
  {
    var nfs := js[j].nullifiers;
    ghost var done := AllNullifiers(js[..j]);
    assert js[..j + 1][..j] == js[..j];
    assert AllNullifiers(js[..j + 1]) == done + nfs;
    AllNullifiersPrefix(js, j + 1);
    seen := seenIn;
    var k := 0;
    while k < |nfs|
      invariant 0 <= k <= |nfs|
      invariant seen == Elements(done + nfs[..k])
      invariant Distinct(done + nfs[..k])
    {
      var nf := nfs[k];
      assert (done + nfs[..k + 1]) == (done + nfs[..k]) + [nf];
      if nf in seen {
        ghost var flat := done + nfs[..k];
        assert nf in flat;
        ghost var p :| 0 <= p < |flat| && flat[p] == nf;
        ghost var all := AllNullifiers(js);
        assert flat + [nf] <= all;
        assert all[p] == nf && all[|flat|] == nf;
        return true, seen;
      }
      seen := seen + {nf};
      k := k + 1;
    }
    assert nfs[..k] == nfs;
    return false, seen;
  }

  /** The second loop of CheckInputsDuplication: looks for a repeated nullifier across all joinsplits. */
  method HasDuplicateNullifier(js: seq<JoinSplit>) returns (dup: bool)
    ensures dup <==> !Distinct(AllNullifiers(js))
  {
    var seen: set<Uint256> := {};
    var j := 0;
    while j < |js|
      invariant 0 <= j <= |js|
      invariant seen == Elements(AllNullifiers(js[..j]))
      invariant Distinct(AllNullifiers(js[..j]))
    {
      dup, seen := ScanNullifiers(js, j, seen);
      if dup {
        return true;
      }
      j := j + 1;
    }
    assert js[..j] == js;
    return false;
  }

  /**
   * CTransactionBase::CheckInputsDuplication: the inputs must spend pairwise distinct
   * outpoints, and the nullifiers of all joinsplits taken together (also those of a
   * single joinsplit) must be pairwise distinct.  Duplicate inputs are reported first.
   */
  method CheckInputsDuplication(tx: Transaction) returns (v: Verdict)
    ensures v.Accept? <==> Distinct(Prevouts(tx.vin)) && Distinct(AllNullifiers(tx.vjoinsplit))
    ensures v.Reject? ==> v.dos == 100
    ensures v.Reject? && !Distinct(Prevouts(tx.vin)) ==> v.reason == "bad-txns-inputs-duplicate"
    ensures v.Reject? && Distinct(Prevouts(tx.vin)) ==> v.reason == "bad-joinsplits-nullifiers-duplicate"
  {
    var dupIn := HasDuplicatePrevout(tx.vin);
    if dupIn {
      return Reject(100, "bad-txns-inputs-duplicate");
    }
    var dupNf := HasDuplicateNullifier(tx.vjoinsplit);
    if dupNf {
      return Reject(100, "bad-joinsplits-nullifiers-duplicate");
    }
    return Accept;
  }

  // ---------------------------------------------------------------- CheckInputsInteraction

  /** A coinbase's scriptSig length is acceptable. */
  predicate CoinbaseScriptSizeOk(tx: Transaction)
    requires IsCoinBase(tx)
  {
    2 <= |tx.vin[0].scriptSig| <= 100
  }

  /**
   * CTransactionBase::CheckInputsInteraction: a coinbase may carry no joinsplit and its
   * scriptSig must be 2 to 100 bytes long (DoS 100); any other transaction must not
   * spend the null outpoint (DoS 10).
   */
  method CheckInputsInteraction(tx: Transaction) returns (v: Verdict)
    ensures IsCoinBase(tx) ==> (v.Accept? <==> tx.vjoinsplit == [] && CoinbaseScriptSizeOk(tx))
    ensures IsCoinBase(tx) && tx.vjoinsplit != [] ==> v == Reject(100, "bad-cb-has-joinsplits")
    ensures IsCoinBase(tx) && tx.vjoinsplit == [] && !CoinbaseScriptSizeOk(tx) ==> v == Reject(100, "bad-cb-length")
    ensures !IsCoinBase(tx) ==> (v.Accept? <==> forall i :: 0 <= i < |tx.vin| ==> !IsNullOutPoint(tx.vin[i].prevout))
    ensures !IsCoinBase(tx) && v.Reject? ==> v == Reject(10, "bad-txns-prevout-null")
  {
    if IsCoinBase(tx) {
      if |tx.vjoinsplit| > 0 {
        return Reject(100, "bad-cb-has-joinsplits");
      }
      if |tx.vin[0].scriptSig| < 2 || |tx.vin[0].scriptSig| > 100 {
        return Reject(100, "bad-cb-length");
      }
    } else {
      var i := 0;
      while i < |tx.vin|
        invariant 0 <= i <= |tx.vin|
        invariant forall i' :: 0 <= i' < i ==> !IsNullOutPoint(tx.vin[i'].prevout)
      {
        if IsNullOutPoint(tx.vin[i].prevout) {
          return Reject(10, "bad-txns-prevout-null");
        }
        i := i + 1;
      }
    }
    return Accept;
  }

  // ---------------------------------------------------------------- single-condition checks

  /**
   * CTransaction::CheckVersionBasic: versions below MIN_OLD_TX_VERSION are refused
   * unless they are the Groth or the sidechain version.
   */
  function CheckVersionBasic(tx: Transaction): (v: Verdict)
    ensures v.Accept? <==> tx.nVersion >= MIN_OLD_TX_VERSION || tx.nVersion == GROTH_TX_VERSION || IsScVersion(tx)
    ensures v.Reject? ==> v == Reject(100, "bad-txns-version-too-low")
  {
    if tx.nVersion < MIN_OLD_TX_VERSION && tx.nVersion != GROTH_TX_VERSION && !IsScVersion(tx) then
      Reject(100, "bad-txns-version-too-low")
    else
      Accept
  }

  /** CTransaction::CheckInputsAvailability: a transaction needs an input or a joinsplit. */
  function CheckInputsAvailability(tx: Transaction): (v: Verdict)
    ensures v.Reject? <==> tx.vin == [] && tx.vjoinsplit == []
    ensures v.Reject? ==> v == Reject(10, "bad-txns-vin-empty")
  {
    if |tx.vin| == 0 && |tx.vjoinsplit| == 0 then Reject(10, "bad-txns-vin-empty") else Accept
  }

  /**
   * CTransaction::CheckOutputsAvailability: a transaction needs an output, a joinsplit
   * or a crosschain output.
   */
  function CheckOutputsAvailability(tx: Transaction): (v: Verdict)
    ensures v.Reject? <==> tx.vout == [] && tx.vjoinsplit == [] && CcIsNull(tx)
    ensures v.Reject? ==> v == Reject(10, "bad-txns-vout-empty")
  {
    if |tx.vout| == 0 && |tx.vjoinsplit| == 0 && CcIsNull(tx) then Reject(10, "bad-txns-vout-empty") else Accept
  }

  /**
   * CTransaction::CheckInputsLimit: with a positive limit, n receives the number of
   * inputs and the check fails when that exceeds the limit; a zero limit disables the
   * check and leaves n as it was.
   */
  function CheckInputsLimit(tx: Transaction, limit: nat, n: nat): (r: (bool, nat))
    ensures !r.0 <==> limit > 0 && |tx.vin| > limit
    ensures r.1 == if limit > 0 then |tx.vin| else n
  {
    if limit > 0 then (|tx.vin| <= limit, |tx.vin|) else (true, n)
  }

  /** A coinbase always has an input, so it passes the inputs-availability check. */
  lemma CoinbaseHasInputs(tx: Transaction)
    requires IsCoinBase(tx)
    ensures CheckInputsAvailability(tx) == Accept
  {
  }

  /**
   * The well-formed coinbase accepted by CheckInputsInteraction carries no joinsplit,
   * so CheckOutputsAmount and CheckInputsAmount reduce to conditions on its outputs.
   */
  lemma CoinbaseAmountsOnlyOnOutputs(tx: Transaction)
    requires IsCoinBase(tx) && tx.vjoinsplit == []
    ensures OutputsAmountWellFormed(tx) <==> AllInRange(OutValues(tx.vout)) && RunningTotalInRange(OutValues(tx.vout))
    ensures AllInRange(VpubNews(tx.vjoinsplit)) && RunningTotalInRange(VpubNews(tx.vjoinsplit))
  {
    assert OutValues(tx.vout) + VpubOlds(tx.vjoinsplit) == OutValues(tx.vout);
  }
}
