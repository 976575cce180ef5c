/**
 * The transaction data model of src/primitives: outpoints, inputs, outputs,
 * joinsplit descriptions, crosschain outputs and the transaction itself, with the
 * small header-defined helpers (IsNull, IsCoinBase, ccIsNull, GetValueCcOut) that
 * the validation code relies on.
 */
module Tx {
  import opened Common
  import opened Bytes
  import opened Money

  /** A CScript is a byte string. */
  type Script = seq<byte>

  /** A reference to output n of the transaction with the given hash. */
  datatype OutPoint = OutPoint(hash: Uint256, n: uint32)

  /** COutPoint::IsNull: the all-zero hash together with index 0xFFFFFFFF (the coinbase marker). */
  predicate IsNullOutPoint(p: OutPoint)
  {
    IsZero(p.hash) && p.n == UINT32_MAX
  }

  datatype TxIn = TxIn(prevout: OutPoint, scriptSig: Script, nSequence: uint32)

  /** A transparent output; isFromBackwardTransfer marks outputs built from a backward transfer. */
  datatype TxOut = TxOut(nValue: int, scriptPubKey: Script, isFromBackwardTransfer: bool)

  /**
   * A joinsplit description, reduced to the fields the core reads: the value it takes
   * from (vpub_old) and gives to (vpub_new) the transparent pool, the nullifiers it
   * reveals and the note commitments it creates.  Proofs, keys and ciphertexts are
   * not modelled.
   */
  datatype JoinSplit = JoinSplit(vpubOld: int, vpubNew: int, nullifiers: seq<Uint256>, commitments: seq<Uint256>)

  /** The three kinds of crosschain output (CTxCrosschainOut descendants). */
  datatype CrosschainOut =
    | ScCreation(scId: Uint256, nValue: int, address: Uint256, withdrawalEpochLength: int, customData: seq<byte>)
    | CertifierLock(scId: Uint256, nValue: int, address: Uint256, activeFromWithdrawalEpoch: int)
    | ForwardTransfer(scId: Uint256, nValue: int, address: Uint256)

  /** CTransaction: an immutable transaction value. */
  datatype Transaction = Transaction(
    nVersion: int,
    vin: seq<TxIn>,
    vout: seq<TxOut>,
    vscCcout: seq<CrosschainOut>,
    vclCcout: seq<CrosschainOut>,
    vftCcout: seq<CrosschainOut>,
    nLockTime: uint32,
    vjoinsplit: seq<JoinSplit>)

  // Transaction version numbers (primitives/transaction.h and consensus headers, not part
  // of this model; the values follow those headers).
  const TRANSPARENT_TX_VERSION: int := 1
  const MIN_OLD_TX_VERSION: int := 1
  const GROTH_TX_VERSION: int := -3
  const SC_TX_VERSION: int := -4

  /** IsScVersion: the transaction uses the sidechain-aware format. */
  predicate IsScVersion(tx: Transaction)
  {
    tx.nVersion == SC_TX_VERSION
  }

  /** CTransaction::IsCoinBase: a single input spending the null outpoint. */
  predicate IsCoinBase(tx: Transaction)
  {
    |tx.vin| == 1 && IsNullOutPoint(tx.vin[0].prevout)
  }

  /** ccIsNull: the transaction has no crosschain output of any kind. */
  predicate CcIsNull(tx: Transaction)
  {
    tx.vscCcout == [] && tx.vclCcout == [] && tx.vftCcout == []
  }

  /** The nValue of every output, in order. */
  function OutValues(vout: seq<TxOut>): (r: seq<int>)
    ensures |r| == |vout| && forall i :: 0 <= i < |vout| ==> r[i] == vout[i].nValue
  {
    seq(|vout|, i requires 0 <= i < |vout| => vout[i].nValue)
  }

  /** The vpub_old of every joinsplit, in order. */
  function VpubOlds(js: seq<JoinSplit>): (r: seq<int>)
    ensures |r| == |js| && forall i :: 0 <= i < |js| ==> r[i] == js[i].vpubOld
  {
    seq(|js|, i requires 0 <= i < |js| => js[i].vpubOld)
  }

  /** The vpub_new of every joinsplit, in order. */
  function VpubNews(js: seq<JoinSplit>): (r: seq<int>)
    ensures |r| == |js| && forall i :: 0 <= i < |js| ==> r[i] == js[i].vpubNew
  {
    seq(|js|, i requires 0 <= i < |js| => js[i].vpubNew)
  }

  /** The nValue of every crosschain output, in order. */
  function CcValues(outs: seq<CrosschainOut>): seq<int>
  {
    seq(|outs|, i requires 0 <= i < |outs| => outs[i].nValue)
  }

  /** GetValueCcOut: the (unchecked) total of a vector of crosschain outputs. */
  function GetValueCcOut(outs: seq<CrosschainOut>): int
  {
    Sum(CcValues(outs))
  }

  /** The nullifiers of all joinsplits, flattened in order. */
  function AllNullifiers(js: seq<JoinSplit>): seq<Uint256>
  {
    if |js| == 0 then [] else AllNullifiers(js[..|js| - 1]) + js[|js| - 1].nullifiers
  }

  /** The note commitments of all joinsplits, flattened in order. */
  function AllCommitments(js: seq<JoinSplit>): seq<Uint256>
  {
    if |js| == 0 then [] else AllCommitments(js[..|js| - 1]) + js[|js| - 1].commitments
  }

  /** The prevouts of the inputs, in order. */
  function Prevouts(vin: seq<TxIn>): (r: seq<OutPoint>)
    ensures |r| == |vin| && forall i :: 0 <= i < |vin| ==> r[i] == vin[i].prevout
  {
    seq(|vin|, i requires 0 <= i < |vin| => vin[i].prevout)
  }
}
