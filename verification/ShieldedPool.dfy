/**
 The shielded pool of execnode/shielded.py: an append-only note tree, a spent set and a window of recent roots,
 changed only by verified transfers. Signature checking is an arbitrary predicate (ML-DSA, section 6.3 of FIPS 204).
 Tree depth and window are parameters; the deployed pool uses depth 32 and a window of 128.
 */
module ShieldedPool {
  import opened Options
  import opened ShieldedTree

  // ---- transfers -----------------------------------------------------------------------------------

  datatype Public = Public(root: Term, nullifiers: seq<Term>, outCommitments: seq<Term>, publicValue: int, fee: int,
                           withdrawAddr: string)
  datatype Input = Input(value: int, pubkey: Term, rho: Term, pos: int, path: seq<Term>, sig: string)
  datatype Output = Output(value: int, owner: Term, rho: Term)
  datatype Proof = Proof(inputs: seq<Input>, outputs: seq<Output>)

  /** The signed message: every public part of the transfer, with the lists sorted. */
  datatype Message = Message(nullifiers: multiset<Term>, outCommitments: multiset<Term>, publicValue: int, fee: int,
                             withdrawAddr: string)

  type SigCheck = (string, Message, Term) -> bool

  function Sighash(p: Public): Message {
    Message(multiset(p.nullifiers), multiset(p.outCommitments), p.publicValue, p.fee, p.withdrawAddr)
  }

  /** A signature covers every public part of the transfer but the anchor, and the lists only up to order. */
  lemma SighashBinds(p: Public, q: Public)
    ensures Sighash(p) == Sighash(q) <==>
              && p.publicValue == q.publicValue && p.fee == q.fee && p.withdrawAddr == q.withdrawAddr
              && multiset(p.nullifiers) == multiset(q.nullifiers)
              && multiset(p.outCommitments) == multiset(q.outCommitments)
  {
  }

  function NoteOf(w: Input): Term {
    Cm(w.value, OwnerOf(w.pubkey), w.rho)
  }

  function NullifierOf(w: Input): Term {
    Nf(w.pubkey, w.rho)
  }

  function OutNote(w: Output): Term {
    Cm(w.value, w.owner, w.rho)
  }

  function InSum(ins: seq<Input>): int {
    if ins == [] then 0 else InSum(ins[..|ins| - 1]) + ins[|ins| - 1].value
  }

  function OutSum(outs: seq<Output>): int {
    if outs == [] then 0 else OutSum(outs[..|outs| - 1]) + outs[|outs| - 1].value
  }

  predicate Distinct(s: seq<Term>) {
    forall i, j :: 0 <= i < j < |s| ==> s[i] != s[j]
  }

  predicate InputOk(p: Public, w: Input, nf: Term, sigOk: SigCheck, depth: nat) {
    && w.value >= 0
    && depth <= |w.path| && PathOk(NoteOf(w), w.pos, w.path, p.root, depth)
    && NullifierOf(w) == nf
    && sigOk(w.sig, Sighash(p), w.pubkey)
  }

  predicate OutputOk(w: Output, cm: Term) {
    w.value >= 0 && OutNote(w) == cm
  }

  /** What an accepted transfer satisfies. */
  predicate TransferOk(p: Public, proof: Proof, anchors: seq<Term>, sigOk: SigCheck, depth: nat) {
    && (proof.inputs != [] ==> p.root in anchors)
    && |p.nullifiers| == |proof.inputs| && |p.outCommitments| == |proof.outputs|
    && p.fee >= 0
    && Distinct(p.nullifiers)
    && (forall i :: 0 <= i < |proof.inputs| ==> InputOk(p, proof.inputs[i], p.nullifiers[i], sigOk, depth))
    && (forall j :: 0 <= j < |proof.outputs| ==> OutputOk(proof.outputs[j], p.outCommitments[j]))
    && InSum(proof.inputs) + p.publicValue == OutSum(proof.outputs) + p.fee
  }

  datatype Reason =
    | UnknownAnchor | LengthMismatch | NegativeFee | DuplicateNullifier | BadInput(i: nat) | BadOutput(j: nat)
    | NotConserved | AlreadySpent

  method HasDuplicate(s: seq<Term>) returns (dup: bool)
    ensures dup <==> !Distinct(s)
  {
    var seen: set<Term> := {};
    for i := 0 to |s|
      invariant seen == set k | 0 <= k < i :: s[k]
      invariant Distinct(s[..i])
    {
      if s[i] in seen {
        var k :| 0 <= k < i && s[k] == s[i];
        return true;
      }
      seen := seen + {s[i]};
    }
    assert s[..|s|] == s;
    return false;
  }

  /** Re-check the transparent witness of a transfer; None means accepted. */
  method VerifyTransfer(p: Public, proof: Proof, anchors: seq<Term>, sigOk: SigCheck, depth: nat)
    returns (bad: Option<Reason>)
    ensures bad.None? <==> TransferOk(p, proof, anchors, sigOk, depth)
    ensures bad == Some(UnknownAnchor) <==> proof.inputs != [] && p.root !in anchors
    ensures forall i: nat :: bad == Some(BadInput(i)) ==>
              i < |proof.inputs| == |p.nullifiers| && !InputOk(p, proof.inputs[i], p.nullifiers[i], sigOk, depth)
    ensures forall j: nat :: bad == Some(BadOutput(j)) ==>
              j < |proof.outputs| == |p.outCommitments| && !OutputOk(proof.outputs[j], p.outCommitments[j])
    ensures bad != Some(AlreadySpent)
  {
    if proof.inputs != [] && p.root !in anchors {
      return Some(UnknownAnchor);
    }
    if |p.nullifiers| != |proof.inputs| || |p.outCommitments| != |proof.outputs| {
      return Some(LengthMismatch);
    }
    if p.fee < 0 {
      return Some(NegativeFee);
    }
    var dup := HasDuplicate(p.nullifiers);
    if dup {
      return Some(DuplicateNullifier);
    }
    var inSum := 0;
    for i := 0 to |proof.inputs|
      invariant inSum == InSum(proof.inputs[..i])
      invariant forall k :: 0 <= k < i ==> InputOk(p, proof.inputs[k], p.nullifiers[k], sigOk, depth)
    {
      var w := proof.inputs[i];
      assert proof.inputs[..i + 1][..i] == proof.inputs[..i];
      if w.value < 0 || |w.path| < depth {
        return Some(BadInput(i));
      }
      var inTree := VerifyPath(NoteOf(w), w.pos, w.path, p.root, depth);
      if !inTree || NullifierOf(w) != p.nullifiers[i] || !sigOk(w.sig, Sighash(p), w.pubkey) {
        return Some(BadInput(i));
      }
      inSum := inSum + w.value;
    }
    assert proof.inputs[..|proof.inputs|] == proof.inputs;
    var outSum := 0;
    for j := 0 to |proof.outputs|
      invariant outSum == OutSum(proof.outputs[..j])
      invariant forall k :: 0 <= k < j ==> OutputOk(proof.outputs[k], p.outCommitments[k])
    {
      assert proof.outputs[..j + 1][..j] == proof.outputs[..j];
      if !OutputOk(proof.outputs[j], p.outCommitments[j]) {
        return Some(BadOutput(j));
      }
      outSum := outSum + proof.outputs[j].value;
    }
    assert proof.outputs[..|proof.outputs|] == proof.outputs;
    if inSum + p.publicValue != outSum + p.fee {
      return Some(NotConserved);
    }
    return None;
  }

  // ---- the pool ------------------------------------------------------------------------------------

  datatype State = State(commitments: seq<Term>, nullifiers: set<Term>, anchors: seq<Term>)

  function Elements(s: seq<Term>): set<Term> {
    set x | x in s
  }

  /** Record a root, once, keeping the newest window entries. */
  function Remember(anchors: seq<Term>, root: Term, window: nat): seq<Term> {
    if root in anchors then anchors
    else
      var grown := anchors + [root];
      if |grown| > window then grown[|grown| - window..] else grown
  }

  predicate Accepts(s: State, p: Public, proof: Proof, sigOk: SigCheck, depth: nat) {
    TransferOk(p, proof, s.anchors, sigOk, depth) && forall nf :: nf in p.nullifiers ==> nf !in s.nullifiers
  }

  /** The pool after a transfer: unchanged if it is refused. */
  function Apply(s: State, p: Public, proof: Proof, sigOk: SigCheck, depth: nat, window: nat): State {
    if !Accepts(s, p, proof, sigOk, depth) then s
    else
      var commitments := s.commitments + p.outCommitments;
      State(commitments, s.nullifiers + Elements(p.nullifiers),
            Remember(s.anchors, Root(commitments, depth), window))
  }

  function Empty(depth: nat, window: nat): State {
    State([], {}, Remember([], Root([], depth), window))
  }

  datatype Snapshot = Snapshot(commitments: seq<Term>, nullifiers: seq<Term>, anchors: seq<Term>, root: Term)

  /** The object, with its cached root. */
  class Pool {
    const depth: nat
    const window: nat
    var commitments: seq<Term>
    var nullifiers: set<Term>
    var anchors: seq<Term>
    var cachedRoot: Option<Term>

    /** The cache is empty or exact. */
    ghost predicate Valid()
      reads this
    {
      cachedRoot.Some? ==> cachedRoot.value == ShieldedTree.Root(commitments, depth)
    }

    ghost function Abstract(): State
      reads this
    {
      State(commitments, nullifiers, anchors)
    }

    /** Rebuild from persisted lists and register the current root. */
    constructor (depth: nat, window: nat, commitments: seq<Term>, nullifiers: seq<Term>, anchors: seq<Term>)
      ensures Valid() && this.depth == depth && this.window == window
      ensures Abstract() == State(commitments, Elements(nullifiers),
                                  Remember(anchors, ShieldedTree.Root(commitments, depth), window))
    {
      this.depth, this.window := depth, window;
      this.commitments, this.nullifiers, this.anchors := commitments, Elements(nullifiers), anchors;
      cachedRoot := None;
      new;
      var root := Root();
      RememberAnchor(root);
    }

    /** The current root, recomputed only after an append. */
    method Root() returns (root: Term)
      requires Valid()
      modifies this`cachedRoot
      ensures Valid() && root == ShieldedTree.Root(commitments, depth)
    {
      if cachedRoot.None? {
        var fresh_ := MerkleRoot(commitments, depth);
        cachedRoot := Some(fresh_);
      }
      return cachedRoot.value;
    }

    method AppendCommitment(cm: Term)
      modifies this`commitments, this`cachedRoot
      ensures Valid() && commitments == old(commitments) + [cm]
    {
      commitments := commitments + [cm];
      cachedRoot := None;
    }

    method RememberAnchor(root: Term)
      modifies this`anchors
      ensures anchors == Remember(old(anchors), root, window)
    {
      if |anchors| > 0 && anchors[|anchors| - 1] == root {
        return;
      }
      if root in anchors {
        return;
      }
      anchors := anchors + [root];
      if |anchors| > window {
        anchors := anchors[|anchors| - window..];
      }
    }

    /** Verify, then record nullifiers, append outputs and remember the new root. */
    method ApplyTransfer(p: Public, proof: Proof, sigOk: SigCheck) returns (bad: Option<Reason>)
      requires Valid()
      modifies this
      ensures Valid()
      ensures bad.None? <==> Accepts(old(Abstract()), p, proof, sigOk, depth)
      ensures Abstract() == Apply(old(Abstract()), p, proof, sigOk, depth, window)
    {
      bad := VerifyTransfer(p, proof, anchors, sigOk, depth);
      if bad.Some? {
        return;
      }
      for i := 0 to |p.nullifiers|
        invariant forall k :: 0 <= k < i ==> p.nullifiers[k] !in nullifiers
      {
        if p.nullifiers[i] in nullifiers {
          return Some(AlreadySpent);
        }
      }
      nullifiers := nullifiers + Elements(p.nullifiers);
      for j := 0 to |p.outCommitments|
        invariant Valid()
        invariant commitments == old(commitments) + p.outCommitments[..j]
        invariant anchors == old(anchors) && nullifiers == old(nullifiers) + Elements(p.nullifiers)
      {
        AppendCommitment(p.outCommitments[j]);
      }
      assert p.outCommitments[..|p.outCommitments|] == p.outCommitments;
      var root := Root();
      RememberAnchor(root);
    }

    /** A snapshot; the nullifiers are listed in some order. */
    method ToDict() returns (d: Snapshot)
      requires Valid()
      modifies this`cachedRoot
      ensures Valid() && d.commitments == commitments && d.anchors == anchors
      ensures Elements(d.nullifiers) == nullifiers && d.root == ShieldedTree.Root(commitments, depth)
    {
      var root := Root();
      var listed, left := [], nullifiers;
      while left != {}
        invariant left <= nullifiers && Elements(listed) == nullifiers - left
        decreases left
      {
        var nf :| nf in left;
        assert Elements(listed + [nf]) == Elements(listed) + {nf};
        listed, left := listed + [nf], left - {nf};
      }
      return Snapshot(commitments, listed, anchors, root);
    }

    /** from_dict(to_dict()): the same pool, when the current root is an anchor, as it is in every reachable pool. */
    method Reload() returns (q: Pool)
      requires Valid() && ShieldedTree.Root(commitments, depth) in anchors
      modifies this`cachedRoot
      ensures fresh(q) && q.Valid() && q.depth == depth && q.window == window && q.Abstract() == Abstract()
    {
      var d := ToDict();
      q := new Pool(depth, window, d.commitments, d.nullifiers, d.anchors);
    }
  }
}
