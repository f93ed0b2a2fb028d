/** Whose money it is: how it gets into the pool, who can open it later, and whose signature every spend carries. */
module ShieldedOwners {
  import opened Numbers
  import opened Options
  import opened ShieldedTree
  import opened ShieldedPool
  import opened ShieldedRun

  // ---- spending ------------------------------------------------------------------------------------

  lemma AcceptedInput(r: Rules, s: State, t: Transfer, j: nat)
    requires Accepts(s, t.p, t.proof, r.sigOk, r.depth) && j < |t.p.nullifiers|
    ensures |t.proof.inputs| == |t.p.nullifiers|
    ensures NullifierOf(t.proof.inputs[j]) == t.p.nullifiers[j]
    ensures r.sigOk(t.proof.inputs[j].sig, Sighash(t.p), t.proof.inputs[j].pubkey)
  {
    hide PathOk;
    assert InputOk(t.p, t.proof.inputs[j], t.p.nullifiers[j], r.sigOk, r.depth);
  }

  /** Every nullifier on record was put there by one accepted transfer, which its owner's key signed and which spent a
    * note of that owner that was in the tree. */
  lemma {:induction false} SpendAuthorised(r: Rules, ts: seq<Transfer>, pubkey: Term, rho: Term)
    returns (i: nat, j: nat)
    requires r.window >= 1 && Nf(pubkey, rho) in After(r, ts).nullifiers
    ensures i < |ts| && AcceptedLast(r, ts[..i + 1])
    ensures j < |ts[i].proof.inputs| == |ts[i].p.nullifiers| && ts[i].p.nullifiers[j] == Nf(pubkey, rho)
    ensures var w := ts[i].proof.inputs[j];
            && w.pubkey == pubkey && w.rho == rho && r.sigOk(w.sig, Sighash(ts[i].p), pubkey)
            && Cm(w.value, OwnerOf(pubkey), rho) in After(r, ts[..i]).commitments
    decreases |ts|
  {
    hide Root, TransferOk;
    var n := |ts| - 1;
    var before := ts[..n];
    if Nf(pubkey, rho) in After(r, before).nullifiers {
      i, j := SpendAuthorised(r, before, pubkey, rho);
      assert before[..i + 1] == ts[..i + 1] && before[..i] == ts[..i];
    } else {
      assert ts[..n + 1] == ts;
      i := n;
      j :| 0 <= j < |ts[n].p.nullifiers| && ts[n].p.nullifiers[j] == Nf(pubkey, rho);
      AcceptedInput(r, After(r, before), ts[n], j);
      ReachableTidy(r, before);
      InputWasMinted(r, After(r, before), ts[n], j);
    }
  }

  // ---- paying in -----------------------------------------------------------------------------------

  /** A transfer that spends nothing needs no anchor: it is accepted exactly when its outputs open and are paid for,
    * with the fee, from outside. */
  lemma DepositExactly(s: State, p: Public, proof: Proof, sigOk: SigCheck, depth: nat)
    requires proof.inputs == []
    ensures Accepts(s, p, proof, sigOk, depth) <==>
              && p.nullifiers == [] && |p.outCommitments| == |proof.outputs| && p.fee >= 0
              && (forall j :: 0 <= j < |proof.outputs| ==> OutputOk(proof.outputs[j], p.outCommitments[j]))
              && p.publicValue == OutSum(proof.outputs) + p.fee
  {
  }

  /** Public value let in, and fees, over the accepted transfers. */
  function LetIn(r: Rules, ts: seq<Transfer>): int {
    if ts == [] then 0
    else LetIn(r, ts[..|ts| - 1]) + if AcceptedLast(r, ts) then ts[|ts| - 1].p.publicValue else 0
  }

  function Fees(r: Rules, ts: seq<Transfer>): int {
    if ts == [] then 0
    else Fees(r, ts[..|ts| - 1]) + if AcceptedLast(r, ts) then ts[|ts| - 1].p.fee else 0
  }

  lemma {:induction false} NetOfFees(r: Rules, ts: seq<Transfer>)
    ensures Balance(r, ts) == LetIn(r, ts) - Fees(r, ts) && Fees(r, ts) >= 0
    decreases |ts|
  {
    hide After;
    if ts != [] { NetOfFees(r, ts[..|ts| - 1]); }
  }

  /** What was let in, less what was let out, always covers the fees burned. */
  lemma FeesCovered(r: Rules, ts: seq<Transfer>)
    requires r.window >= 1
    ensures LetIn(r, ts) >= Fees(r, ts) >= 0
  {
    Solvency(r, ts);
    NetOfFees(r, ts);
  }

  // ---- receiving -----------------------------------------------------------------------------------

  lemma {:induction false} CommitmentsGrow(r: Rules, ts: seq<Transfer>, more: seq<Transfer>)
    ensures var was, now := After(r, ts).commitments, After(r, ts + more).commitments;
            |was| <= |now| && now[..|was|] == was
    decreases |more|
  {
    hide Accepts, Root;
    if more == [] {
      assert ts + more == ts;
    } else {
      assert (ts + more)[..|ts + more| - 1] == ts + more[..|more| - 1];
      CommitmentsGrow(r, ts, more[..|more| - 1]);
    }
  }

  lemma OutputsAppend(r: Rules, ts: seq<Transfer>, j: nat)
    requires ts != [] && AcceptedLast(r, ts) && j < |ts[|ts| - 1].proof.outputs|
    ensures var at, w := |After(r, ts[..|ts| - 1]).commitments| + j, ts[|ts| - 1].proof.outputs[j];
            && at < |After(r, ts).commitments| && w.value >= 0
            && After(r, ts).commitments[at] == Cm(w.value, w.owner, w.rho)
  {
    hide Root, PathOk;
    var t := ts[|ts| - 1];
    assert OutputOk(t.proof.outputs[j], t.p.outCommitments[j]);
  }

  /** Whoever an output was made for can open it for good: in every later tree, with the value and nonce of the output,
    * the owner's key and that tree's path. */
  lemma ReceivedOpens(r: Rules, ts: seq<Transfer>, more: seq<Transfer>, j: nat, w: Input)
    requires ts != [] && AcceptedLast(r, ts) && j < |ts[|ts| - 1].proof.outputs|
    requires var out := ts[|ts| - 1].proof.outputs[j];
             w.value == out.value && OwnerOf(w.pubkey) == out.owner && w.rho == out.rho
    requires w.pos == |After(r, ts[..|ts| - 1]).commitments| + j && w.pos < Pow2(r.depth)
    requires w.path == Siblings(After(r, ts + more).commitments, 0, w.pos, r.depth)
    ensures Honest(After(r, ts + more), w, r.depth)
  {
    hide After, Siblings, Pow2, AcceptedLast;
    OutputsAppend(r, ts, j);
    CommitmentsGrow(r, ts, more);
    var was, now := After(r, ts).commitments, After(r, ts + more).commitments;
    assert now[w.pos] == now[..|was|][w.pos];
  }
}
