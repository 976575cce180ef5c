/**
 * The mutable transaction under construction, and the commitment tree that a
 * transaction's joinsplit commitments are appended to.
 */
module MutableTx {
  import opened Bytes
  import opened Tx
  import opened TxChecks

  class MutableTransaction {
    var nVersion: int
    var vin: seq<TxIn>
    var vout: seq<TxOut>
    var vscCcout: seq<CrosschainOut>
    var vclCcout: seq<CrosschainOut>
    var vftCcout: seq<CrosschainOut>
    var nLockTime: uint32
    var vjoinsplit: seq<JoinSplit>

    /** The immutable transaction built from this one, CTransaction(const CMutableTransaction&). */
    function Freeze(): (tx: Transaction)
      reads this
      ensures tx.nVersion == nVersion && tx.vin == vin && tx.vout == vout && tx.vjoinsplit == vjoinsplit
      ensures tx.vscCcout == vscCcout && tx.vclCcout == vclCcout && tx.vftCcout == vftCcout && tx.nLockTime == nLockTime
    {
      Transaction(nVersion, vin, vout, vscCcout, vclCcout, vftCcout, nLockTime, vjoinsplit)
    }

    /** CMutableTransaction(): a transparent-version transaction with nothing in it. */
    constructor ()
      ensures nVersion == TRANSPARENT_TX_VERSION && nLockTime == 0
      ensures vin == [] && vout == [] && vjoinsplit == []
      ensures vscCcout == [] && vclCcout == [] && vftCcout == []
    {
      nVersion := TRANSPARENT_TX_VERSION;
      vin := [];
      vout := [];
      vscCcout := [];
      vclCcout := [];
      vftCcout := [];
      nLockTime := 0;
      vjoinsplit := [];
    }

    /** CMutableTransaction(const CTransaction&): a copy that freezes back to the same transaction. */
    constructor FromTransaction(tx: Transaction)
      ensures Freeze() == tx
    {
      nVersion := tx.nVersion;
      vin := tx.vin;
      vout := tx.vout;
      vscCcout := tx.vscCcout;
      vclCcout := tx.vclCcout;
      vftCcout := tx.vftCcout;
      nLockTime := tx.nLockTime;
      vjoinsplit := tx.vjoinsplit;
    }

    /**
     * CMutableTransaction::add, one overload per kind of crosschain output: the output
     * is appended to the vector of its kind, nothing else changes, and the result is
     * always true.  Afterwards the transaction has outputs.
     */
    method Add(out: CrosschainOut) returns (ok: bool)
      modifies this
      ensures ok
      ensures vscCcout == old(vscCcout) + (if out.ScCreation? then [out] else [])
      ensures vclCcout == old(vclCcout) + (if out.CertifierLock? then [out] else [])
      ensures vftCcout == old(vftCcout) + (if out.ForwardTransfer? then [out] else [])
      ensures nVersion == old(nVersion) && vin == old(vin) && vout == old(vout)
      ensures nLockTime == old(nLockTime) && vjoinsplit == old(vjoinsplit)
      ensures CheckOutputsAvailability(Freeze()) == Accept
    {
      match out {
      case ScCreation(_, _, _, _, _) =>
        vscCcout := vscCcout + [out];
      case CertifierLock(_, _, _, _) =>
        vclCcout := vclCcout + [out];
      case ForwardTransfer(_, _, _) =>
        vftCcout := vftCcout + [out];
      }
      ok := true;
    }
  }

  /** The note commitment tree, modelled as the sequence of leaves appended so far. */
  class CommitmentTree {
    var leaves: seq<Uint256>

    constructor ()
      ensures leaves == []
    {
      leaves := [];
    }

    method Append(cm: Uint256)
      modifies this
      ensures leaves == old(leaves) + [cm]
    {
      leaves := leaves + [cm];
    }
  }

  /**
   * CTransaction::HandleJoinSplitCommittments: every commitment of every joinsplit is
   * appended to the tree, joinsplit by joinsplit and in order within each.
   */
  method HandleJoinSplitCommitments(tx: Transaction, tree: CommitmentTree)
    modifies tree
    ensures tree.leaves == old(tree.leaves) + AllCommitments(tx.vjoinsplit)
  {
    var js := tx.vjoinsplit;
    var j := 0;
    while j < |js|
      invariant 0 <= j <= |js|
      invariant tree.leaves == old(tree.leaves) + AllCommitments(js[..j])
    {
      var cms := js[j].commitments;
      var k := 0;
      while k < |cms|
        invariant 0 <= k <= |cms|
        invariant tree.leaves == old(tree.leaves) + AllCommitments(js[..j]) + cms[..k]
      {
        tree.Append(cms[k]);
        assert cms[..k + 1] == cms[..k] + [cms[k]];
        k := k + 1;
      }
      assert js[..j + 1][..j] == js[..j];
      assert cms[..k] == cms;
      j := j + 1;
    }
    assert js[..j] == js;
  }
}
