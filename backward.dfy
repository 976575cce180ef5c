/**
 * Backward transfers: the conversion between a backward-transfer output (an amount
 * paid to a 160-bit public-key hash) and the ordinary pay-to-public-key-hash output
 * that carries it.
 */
module BackwardTransfer {
  import opened Bytes
  import opened Tx

  const OP_DUP: byte := 0x76
  const OP_HASH160: byte := 0xa9
  const OP_EQUALVERIFY: byte := 0x88
  const OP_CHECKSIG: byte := 0xac

  datatype BackwardTransferOut = BackwardTransferOut(nValue: int, pubKeyHash: Uint160)

  /**
   * OP_DUP OP_HASH160 <push of the 20-byte hash> OP_EQUALVERIFY OP_CHECKSIG.  A push of
   * fewer than 76 bytes is its length byte followed by the bytes.
   */
  function P2PKHScript(pkh: Uint160): (s: Script)
    ensures |s| == 25
  {
    [OP_DUP, OP_HASH160, 20] + pkh + [OP_EQUALVERIFY, OP_CHECKSIG]
  }

  /** CTxOut(const CBackwardTransferOut&): the amount is kept and the output is flagged. */
  function ToTxOut(bt: BackwardTransferOut): (o: TxOut)
    ensures o.nValue == bt.nValue && o.isFromBackwardTransfer && |o.scriptPubKey| == 25
    ensures o.scriptPubKey[..3] == [OP_DUP, OP_HASH160, 20]
    ensures o.scriptPubKey[3..23] == bt.pubKeyHash
    ensures o.scriptPubKey[23..] == [OP_EQUALVERIFY, OP_CHECKSIG]
  {
    TxOut(bt.nValue, P2PKHScript(bt.pubKeyHash), true)
  }

  /**
   * What CBackwardTransferOut(const CTxOut&) asserts of the script: it holds an
   * OP_HASH160, the byte after the first one is 20, and 20 bytes follow that.
   */
  predicate IsDecodable(script: Script)
  {
    var i := FindFirst(script, OP_HASH160);
    i + 22 <= |script| && script[i + 1] == 20
  }

  /**
   * CBackwardTransferOut(const CTxOut&): the amount, and the 20 bytes after the
   * length byte that follows the first OP_HASH160 in the script.
   */
  function FromTxOut(o: TxOut): (bt: BackwardTransferOut)
    requires IsDecodable(o.scriptPubKey)
    ensures bt.nValue == o.nValue
    ensures exists i ::
              && 0 <= i && i + 22 <= |o.scriptPubKey| && o.scriptPubKey[i] == OP_HASH160
              && (forall k :: 0 <= k < i ==> o.scriptPubKey[k] != OP_HASH160)
              && bt.pubKeyHash == o.scriptPubKey[i + 2..i + 22]
  {
    var i := FindFirst(o.scriptPubKey, OP_HASH160);
    BackwardTransferOut(o.nValue, o.scriptPubKey[i + 2..i + 22])
  }

  /** Every converted output can be converted back. */
  lemma EncodedIsDecodable(bt: BackwardTransferOut)
    ensures IsDecodable(ToTxOut(bt).scriptPubKey)
  {
    var s := ToTxOut(bt).scriptPubKey;
    assert s[1] == OP_HASH160 && s[0] != OP_HASH160;
    assert FindFirst(s, OP_HASH160) == 1;
  }

  /** Converting to an output and back recovers the amount and the public-key hash. */
  lemma RoundTrip(bt: BackwardTransferOut)
    ensures IsDecodable(ToTxOut(bt).scriptPubKey)
    ensures FromTxOut(ToTxOut(bt)) == bt
  {
    EncodedIsDecodable(bt);
    var s := ToTxOut(bt).scriptPubKey;
    assert FindFirst(s, OP_HASH160) == 1;
    assert s[3..23] == bt.pubKeyHash;
  }

  /** A flagged pay-to-public-key-hash output survives the conversion back and forth unchanged. */
  lemma RoundTripFromOutput(o: TxOut, pkh: Uint160)
    requires o.scriptPubKey == P2PKHScript(pkh) && o.isFromBackwardTransfer
    ensures IsDecodable(o.scriptPubKey)
    ensures ToTxOut(FromTxOut(o)) == o
  {
    var bt := BackwardTransferOut(o.nValue, pkh);
    RoundTrip(bt);
    assert ToTxOut(bt) == o;
  }
}
