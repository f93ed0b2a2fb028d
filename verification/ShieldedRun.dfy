/** Whole runs of the shielded pool: what every reachable pool satisfies, and why it is always solvent. */
module ShieldedRun {
  import opened Numbers
  import opened Options
  import opened ShieldedTree
  import opened ShieldedPool

  datatype Transfer = Transfer(p: Public, proof: Proof)

  /** Deployment parameters: the signature check, the tree depth and the anchor window. */
  datatype Rules = Rules(sigOk: SigCheck, depth: nat, window: nat)

  /** The pool after a sequence of submitted transfers, refused ones included. */
  function After(r: Rules, ts: seq<Transfer>): State {
    if ts == [] then Empty(r.depth, r.window)
    else
      var t := ts[|ts| - 1];
      Apply(After(r, ts[..|ts| - 1]), t.p, t.proof, r.sigOk, r.depth, r.window)
  }

  predicate AcceptedLast(r: Rules, ts: seq<Transfer>)
    requires ts != []
  {
    var t := ts[|ts| - 1];
    Accepts(After(r, ts[..|ts| - 1]), t.p, t.proof, r.sigOk, r.depth)
  }

  /** Public value in minus fees, over the accepted transfers. */
  function Balance(r: Rules, ts: seq<Transfer>): int {
    if ts == [] then 0
    else
      var t := ts[|ts| - 1];
      Balance(r, ts[..|ts| - 1]) + (if AcceptedLast(r, ts) then t.p.publicValue - t.p.fee else 0)
  }

  // ---- anchors -------------------------------------------------------------------------------------

  predicate PastRoot(commitments: seq<Term>, depth: nat, root: Term, k: nat) {
    k <= |commitments| && root == Root(commitments[..k], depth)
  }

  predicate NoteLike(c: Term) {
    c.Cm? && c.value >= 0
  }

  /** What holds of the anchors and commitments of every reachable pool. */
  ghost predicate Tidy(r: Rules, s: State) {
    && (forall c :: c in s.commitments ==> NoteLike(c))
    && |s.anchors| <= r.window && Distinct(s.anchors)
    && Root(s.commitments, r.depth) in s.anchors
    && (forall a :: a in s.anchors ==> exists k: nat :: PastRoot(s.commitments, r.depth, a, k))
  }

  lemma RememberTidy(anchors: seq<Term>, root: Term, window: nat)
    requires window >= 1 && |anchors| <= window && Distinct(anchors)
    ensures var a := Remember(anchors, root, window);
            |a| <= window && Distinct(a) && root in a && forall x :: x in a ==> x == root || x in anchors
  {
    var grown := anchors + [root];
    if root !in anchors {
      assert grown[|grown| - 1] == root;
      if |grown| > window {
        var a := grown[|grown| - window..];
        assert a[|a| - 1] == root;
      }
    }
  }

  lemma PastRootGrows(commitments: seq<Term>, more: seq<Term>, depth: nat, root: Term, k: nat)
    requires PastRoot(commitments, depth, root, k)
    ensures PastRoot(commitments + more, depth, root, k)
  {
    assert (commitments + more)[..k] == commitments[..k];
  }

  lemma ApplyTidy(r: Rules, s: State, t: Transfer)
    requires r.window >= 1 && Tidy(r, s)
    ensures Tidy(r, Apply(s, t.p, t.proof, r.sigOk, r.depth, r.window))
  {
    hide Root, TransferOk;
    if Accepts(s, t.p, t.proof, r.sigOk, r.depth) {
      var s' := Apply(s, t.p, t.proof, r.sigOk, r.depth, r.window);
      var root := Root(s'.commitments, r.depth);
      RememberTidy(s.anchors, root, r.window);
      assert s'.commitments[..|s'.commitments|] == s'.commitments;
      assert PastRoot(s'.commitments, r.depth, root, |s'.commitments|);
      forall a | a in s'.anchors ensures exists k: nat :: PastRoot(s'.commitments, r.depth, a, k) {
        if a in s.anchors {
          var k: nat :| PastRoot(s.commitments, r.depth, a, k);
          PastRootGrows(s.commitments, t.p.outCommitments, r.depth, a, k);
        }
      }
      OutputsAreNotes(s, t, r);
    }
  }

  lemma OutputsAreNotes(s: State, t: Transfer, r: Rules)
    requires TransferOk(t.p, t.proof, s.anchors, r.sigOk, r.depth)
    ensures forall c :: c in t.p.outCommitments ==> NoteLike(c)
  {
    forall c | c in t.p.outCommitments ensures NoteLike(c) {
      var j :| 0 <= j < |t.p.outCommitments| && t.p.outCommitments[j] == c;
      assert OutputOk(t.proof.outputs[j], c);
    }
  }

  /**
   Every reachable pool keeps at most a window of distinct anchors, each one the root the tree had at some earlier
   size, and the current root is among them; so a reachable pool survives from_dict(to_dict()) unchanged.
   */
  lemma {:induction false} ReachableTidy(r: Rules, ts: seq<Transfer>)
    requires r.window >= 1
    ensures Tidy(r, After(r, ts))
    ensures var s := After(r, ts);
            State(s.commitments, s.nullifiers, Remember(s.anchors, Root(s.commitments, r.depth), r.window)) == s
    decreases |ts|
  {
    hide Root;
    if ts == [] {
      RememberTidy([], Root([], r.depth), r.window);
      var none: seq<Term> := [];
      assert none[..0] == none;
      assert PastRoot([], r.depth, Root([], r.depth), 0);
    } else {
      ReachableTidy(r, ts[..|ts| - 1]);
      ApplyTidy(r, After(r, ts[..|ts| - 1]), ts[|ts| - 1]);
    }
  }

  // ---- solvency ------------------------------------------------------------------------------------

  function NoteSum(cs: seq<Term>): int {
    if cs == [] then 0 else NoteSum(cs[..|cs| - 1]) + (if cs[|cs| - 1].Cm? then cs[|cs| - 1].value else 0)
  }

  lemma NoteSumAppend(a: seq<Term>, b: seq<Term>)
    ensures NoteSum(a + b) == NoteSum(a) + NoteSum(b)
    decreases |b|
  {
    if b == [] {
      assert a + b == a;
    } else {
      assert (a + b)[..|a + b| - 1] == a + b[..|b| - 1];
      NoteSumAppend(a, b[..|b| - 1]);
    }
  }

  /** Distinct notes drawn from a list of notes are worth no more than the list. */
  lemma {:induction false} SubSum(xs: seq<Term>, ys: seq<Term>)
    requires Distinct(xs) && (forall x :: x in xs ==> x in ys) && (forall y :: y in ys ==> NoteLike(y))
    ensures NoteSum(xs) <= NoteSum(ys)
    decreases |xs|
  {
    if xs == [] {
      SumNonNegative(ys);
    } else {
      var n := |xs| - 1;
      var x := xs[n];
      assert x in xs;
      var i :| 0 <= i < |ys| && ys[i] == x;
      var rest := ys[..i] + ys[i + 1..];
      assert ys == ys[..i] + [x] + ys[i + 1..];
      NoteSumAppend(ys[..i] + [x], ys[i + 1..]);
      NoteSumAppend(ys[..i], [x]);
      NoteSumAppend(ys[..i], ys[i + 1..]);
      assert [x][..0] == [];
      forall z | z in xs[..n] ensures z in rest {
        assert z in xs && z in ys && z != x;
      }
      SubSum(xs[..n], rest);
    }
  }

  lemma SumNonNegative(ys: seq<Term>)
    requires forall y :: y in ys ==> NoteLike(y)
    ensures NoteSum(ys) >= 0
  {
    if ys != [] {
      assert ys[|ys| - 1] in ys;
      SumNonNegative(ys[..|ys| - 1]);
    }
  }

  /** The notes a transfer spends. */
  function Spent(ins: seq<Input>): seq<Term>
  {
    seq(|ins|, i requires 0 <= i < |ins| => NoteOf(ins[i]))
  }

  lemma {:induction false} SpentSum(ins: seq<Input>)
    ensures NoteSum(Spent(ins)) == InSum(ins)
  {
    if ins != [] {
      SpentSum(ins[..|ins| - 1]);
      assert Spent(ins)[..|ins| - 1] == Spent(ins[..|ins| - 1]);
    }
  }

  lemma MintedSum(p: Public, outs: seq<Output>, cms: seq<Term>)
    requires |cms| == |outs| && forall j :: 0 <= j < |outs| ==> OutputOk(outs[j], cms[j])
    ensures NoteSum(cms) == OutSum(outs)
    decreases |outs|
  {
    if outs != [] {
      var n := |outs| - 1;
      assert OutputOk(outs[n], cms[n]);
      MintedSum(p, outs[..n], cms[..n]);
    }
  }

  /** A verified input is a note the tree held when its anchor was current, hence one it holds now. */
  lemma InputWasMinted(r: Rules, s: State, t: Transfer, i: nat)
    requires Tidy(r, s) && TransferOk(t.p, t.proof, s.anchors, r.sigOk, r.depth) && i < |t.proof.inputs|
    ensures NoteOf(t.proof.inputs[i]) in s.commitments
  {
    hide Root, PathOk, Siblings;
    var w := t.proof.inputs[i];
    assert InputOk(t.p, w, t.p.nullifiers[i], r.sigOk, r.depth);
    var k: nat :| PastRoot(s.commitments, r.depth, t.p.root, k);
    PathBinds(s.commitments[..k], NoteOf(w), w.pos, w.path, r.depth);
  }

  /** The nullifier that spending a note reveals. */
  predicate Revealed(c: Term, nullifiers: set<Term>) {
    c.Cm? && c.owner.OwnerOf? && Nf(c.owner.pubkey, c.rho) in nullifiers
  }

  /** spent lists each note spent so far once, every one an earlier output whose nullifier is on record. */
  ghost predicate Accounts(s: State, spent: seq<Term>, balance: int) {
    && Distinct(spent)
    && (forall c :: c in spent ==> c in s.commitments && Revealed(c, s.nullifiers))
    && balance == NoteSum(s.commitments) - NoteSum(spent)
  }

  /** Distinct fresh nullifiers mean distinct notes not spent before. */
  lemma FreshNotes(r: Rules, s: State, t: Transfer, spent: seq<Term>)
    requires Accepts(s, t.p, t.proof, r.sigOk, r.depth) && Distinct(spent)
    requires forall c :: c in spent ==> Revealed(c, s.nullifiers)
    ensures Distinct(spent + Spent(t.proof.inputs))
  {
    hide PathOk;
    var ins := t.proof.inputs;
    var all := spent + Spent(ins);
    forall i | 0 <= i < |ins|
      ensures Spent(ins)[i] == NoteOf(ins[i]) && NullifierOf(ins[i]) == t.p.nullifiers[i]
      ensures t.p.nullifiers[i] in t.p.nullifiers
    {
      assert InputOk(t.p, ins[i], t.p.nullifiers[i], r.sigOk, r.depth);
    }
    forall i, j | 0 <= i < j < |all| ensures all[i] != all[j] {
      if j >= |spent| {
        var b := ins[j - |spent|];
        if i >= |spent| {
          assert t.p.nullifiers[i - |spent|] != t.p.nullifiers[j - |spent|];
        } else {
          assert spent[i] in spent && NullifierOf(b) !in s.nullifiers;
        }
      }
    }
  }

  lemma {:induction false} ApplyAccounts(r: Rules, s: State, t: Transfer, spent: seq<Term>, balance: int)
    requires Tidy(r, s) && Accounts(s, spent, balance) && Accepts(s, t.p, t.proof, r.sigOk, r.depth)
    ensures Accounts(Apply(s, t.p, t.proof, r.sigOk, r.depth, r.window), spent + Spent(t.proof.inputs),
                     balance + t.p.publicValue - t.p.fee)
  {
    hide Root, PathOk, Remember;
    var ins := t.proof.inputs;
    var s' := Apply(s, t.p, t.proof, r.sigOk, r.depth, r.window);
    FreshNotes(r, s, t, spent);
    NoteSumAppend(s.commitments, t.p.outCommitments);
    NoteSumAppend(spent, Spent(ins));
    SpentSum(ins);
    MintedSum(t.p, t.proof.outputs, t.p.outCommitments);
    forall c | c in spent + Spent(ins) ensures c in s'.commitments && Revealed(c, s'.nullifiers) {
      if c !in spent {
        var i :| 0 <= i < |ins| && Spent(ins)[i] == c;
        InputWasMinted(r, s, t, i);
        assert InputOk(t.p, ins[i], t.p.nullifiers[i], r.sigOk, r.depth);
        assert t.p.nullifiers[i] in t.p.nullifiers;
      }
    }
  }

  /** The notes spent over a run, each once, account for the balance. */
  lemma {:induction false} RunAccounts(r: Rules, ts: seq<Transfer>) returns (spent: seq<Term>)
    requires r.window >= 1
    ensures Accounts(After(r, ts), spent, Balance(r, ts))
    decreases |ts|
  {
    hide Root, Accepts;
    if ts == [] {
      spent := [];
    } else {
      var prev := ts[..|ts| - 1];
      spent := RunAccounts(r, prev);
      ReachableTidy(r, prev);
      if AcceptedLast(r, ts) {
        var t := ts[|ts| - 1];
        ApplyAccounts(r, After(r, prev), t, spent, Balance(r, prev));
        spent := spent + Spent(t.proof.inputs);
      }
    }
  }

  /**
   Whole-run solvency: from the empty pool, whatever is submitted, the public value let in less the fees is never
   negative. It is exactly the value of all notes ever made less the value of the distinct notes spent.
   */
  lemma Solvency(r: Rules, ts: seq<Transfer>)
    requires r.window >= 1
    ensures Balance(r, ts) >= 0
  {
    var spent := RunAccounts(r, ts);
    ReachableTidy(r, ts);
    SubSum(spent, After(r, ts).commitments);
  }

  // ---- no note is spent twice, and honest spends are never refused ---------------------------------

  /** Nullifiers only accumulate. */
  lemma {:induction false} NullifiersGrow(r: Rules, ts: seq<Transfer>, more: seq<Transfer>)
    ensures After(r, ts).nullifiers <= After(r, ts + more).nullifiers
    decreases |more|
  {
    hide Accepts, Root;
    if more == [] {
      assert ts + more == ts;
    } else {
      assert (ts + more)[..|ts + more| - 1] == ts + more[..|more| - 1];
      NullifiersGrow(r, ts, more[..|more| - 1]);
    }
  }

  /** Once a transfer has been accepted, no later transfer revealing any of its nullifiers ever is. */
  lemma NoDoubleSpend(r: Rules, ts: seq<Transfer>, more: seq<Transfer>, t: Transfer, nf: Term)
    requires ts != [] && AcceptedLast(r, ts) && nf in ts[|ts| - 1].p.nullifiers && nf in t.p.nullifiers
    ensures !Accepts(After(r, ts + more), t.p, t.proof, r.sigOk, r.depth)
  {
    hide Root, TransferOk;
    NullifiersGrow(r, ts, more);
    assert nf in Elements(ts[|ts| - 1].p.nullifiers);
  }

  /** An input that opens the note at its position of the current tree, with the tree's own path. */
  predicate Honest(s: State, w: Input, depth: nat) {
    && w.value >= 0 && 0 <= w.pos < |s.commitments| && w.pos < Pow2(depth)
    && s.commitments[w.pos] == NoteOf(w)
    && w.path == Siblings(s.commitments, 0, w.pos, depth)
  }

  /** The transfer opens notes of the tree of one pool, unspent and signed, and balances. */
  ghost predicate Spendable(r: Rules, tree: State, spent: set<Term>, t: Transfer) {
    && t.p.root == Root(tree.commitments, r.depth)
    && |t.p.nullifiers| == |t.proof.inputs| && |t.p.outCommitments| == |t.proof.outputs|
    && t.p.fee >= 0 && Distinct(t.p.nullifiers)
    && (forall i :: 0 <= i < |t.proof.inputs| ==>
          && Honest(tree, t.proof.inputs[i], r.depth)
          && t.p.nullifiers[i] == NullifierOf(t.proof.inputs[i]) && t.p.nullifiers[i] !in spent
          && r.sigOk(t.proof.inputs[i].sig, Sighash(t.p), t.proof.inputs[i].pubkey))
    && (forall j :: 0 <= j < |t.proof.outputs| ==> OutputOk(t.proof.outputs[j], t.p.outCommitments[j]))
    && InSum(t.proof.inputs) + t.p.publicValue == OutSum(t.proof.outputs) + t.p.fee
  }

  /** A transfer against the tree behind any anchor is accepted. */
  lemma AnchoredAccepted(r: Rules, tree: State, s: State, t: Transfer)
    requires Spendable(r, tree, s.nullifiers, t) && t.p.root in s.anchors
    ensures Accepts(s, t.p, t.proof, r.sigOk, r.depth)
  {
    hide Root, Siblings, Pow2, PathOk;
    forall i | 0 <= i < |t.proof.inputs|
      ensures InputOk(t.p, t.proof.inputs[i], t.p.nullifiers[i], r.sigOk, r.depth)
    {
      var w := t.proof.inputs[i];
      assert Honest(tree, w, r.depth);
      PathsVerify(tree.commitments, w.pos, r.depth);
    }
  }

  /**
   Liveness: in every reachable pool, a transfer against the current root whose inputs are honestly opened, signed,
   unspent and distinct, whose outputs open, and whose values balance is accepted.
   */
  lemma HonestAccepted(r: Rules, ts: seq<Transfer>, t: Transfer)
    requires r.window >= 1 && Spendable(r, After(r, ts), After(r, ts).nullifiers, t)
    ensures Accepts(After(r, ts), t.p, t.proof, r.sigOk, r.depth)
  {
    hide Root, After;
    ReachableTidy(r, ts);
    AnchoredAccepted(r, After(r, ts), After(r, ts), t);
  }
}
