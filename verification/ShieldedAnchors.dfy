/**
 Which roots a spend may be proved against. The pool keeps a list that it trims as it goes; here that list is the newest
 few of all the roots the tree has had, whatever was submitted in between.
 */
module ShieldedAnchors {
  import opened Numbers
  import opened Options
  import opened ShieldedTree
  import opened ShieldedPool
  import opened ShieldedRun

  /** The root of the tree after a run. */
  function RootAfter(r: Rules, ts: seq<Transfer>): Term {
    Root(After(r, ts).commitments, r.depth)
  }

  /** Every root the tree has had, in order, each once. */
  function Trail(r: Rules, ts: seq<Transfer>): (t: seq<Term>)
    ensures t != []
  {
    if ts == [] then [RootAfter(r, [])]
    else
      var before := ts[..|ts| - 1];
      Trail(r, before) + if RootAfter(r, ts) == RootAfter(r, before) then [] else [RootAfter(r, ts)]
  }

  /** How often the root has changed since the first i transfers. */
  function Changes(r: Rules, ts: seq<Transfer>, i: nat): (n: nat)
    requires i <= |ts|
    decreases |ts|
  {
    if i == |ts| then 0
    else
      var before := ts[..|ts| - 1];
      Changes(r, before, i) + if RootAfter(r, ts) == RootAfter(r, before) then 0 else 1
  }

  function Newest(s: seq<Term>, n: nat): seq<Term> {
    if |s| > n then s[|s| - n..] else s
  }

  // ---- roots never come back -----------------------------------------------------------------------

  /** Where the shorter list is padded, the longer one has a note. */
  lemma Gap(long: seq<Term>, short: seq<Term>)
    requires |short| < |long| ==> EmptyLeaf !in long
    ensures |short| < |long| ==> Leaf(long, |short|) != Leaf(short, |short|)
  {
    if |short| < |long| { assert long[|short|] in long; }
  }

  /** A growing list of notes that has an earlier root again has not changed its root since. */
  lemma RootStays(now: seq<Term>, next: seq<Term>, k: nat, depth: nat)
    requires k <= |now| <= |next| && next[..|now|] == now && EmptyLeaf !in next
    requires Root(next, depth) == Root(now[..k], depth)
    ensures Root(next, depth) == Root(now, depth)
  {
    hide Root, Pow2;
    RootsAgreeExactly(next, now[..k], depth);
    Gap(next, now[..k]);
    if k < |next| {
      forall p | 0 <= p < Pow2(depth) ensures Leaf(next, p) == Leaf(now, p) {}
      RootsAgreeExactly(next, now, depth);
    } else {
      assert next == now;
    }
  }

  /** One more transfer: notes are only ever appended. */
  lemma Appends(r: Rules, ts: seq<Transfer>)
    requires ts != [] && r.window >= 1
    ensures var now, next := After(r, ts[..|ts| - 1]).commitments, After(r, ts).commitments;
            |now| <= |next| && next[..|now|] == now && EmptyLeaf !in next
  {
    hide Root, Accepts;
    ReachableTidy(r, ts);
  }

  ghost predicate HadRoot(r: Rules, ts: seq<Transfer>, x: Term, k: nat) {
    PastRoot(After(r, ts).commitments, r.depth, x, k)
  }

  /** A root that differs from the one before has never been seen. */
  lemma {:induction false} TrailTidy(r: Rules, ts: seq<Transfer>)
    requires r.window >= 1
    ensures var t := Trail(r, ts);
            && t[|t| - 1] == RootAfter(r, ts)
            && Distinct(t)
            && forall x :: x in t ==> exists k: nat :: HadRoot(r, ts, x, k)
    decreases |ts|
  {
    hide Root, After;
    if ts == [] {
      var c := After(r, []).commitments;
      assert c[..|c|] == c;
      assert HadRoot(r, [], RootAfter(r, []), |c|);
    } else {
      var before := ts[..|ts| - 1];
      TrailTidy(r, before);
      Appends(r, ts);
      var now, next := After(r, before).commitments, After(r, ts).commitments;
      var old_ := Trail(r, before);
      assert next[..|next|] == next;
      assert HadRoot(r, ts, RootAfter(r, ts), |next|);
      forall x | x in old_ ensures exists k: nat :: HadRoot(r, ts, x, k) {
        var k: nat :| HadRoot(r, before, x, k);
        assert next[..k] == now[..k];
        assert HadRoot(r, ts, x, k);
      }
      if RootAfter(r, ts) in old_ {
        var k: nat :| HadRoot(r, before, RootAfter(r, ts), k);
        RootStays(now, next, k, r.depth);
      }
    }
  }

  // ---- the anchors are the newest roots ------------------------------------------------------------

  /** Remembering the root of the next tree, against a list that already is the newest roots. */
  lemma RememberNewest(trail: seq<Term>, root: Term, window: nat)
    requires window >= 1 && trail != [] && Distinct(trail)
    requires root == trail[|trail| - 1] || root !in trail
    ensures Remember(Newest(trail, window), root, window) ==
            Newest(if root == trail[|trail| - 1] then trail else trail + [root], window)
  {
    var kept := Newest(trail, window);
    assert kept[|kept| - 1] == trail[|trail| - 1];
    if root !in trail {
      assert forall x :: x in kept ==> x in trail;
      PushNewest(trail, root, window);
    }
  }

  lemma PushNewest(trail: seq<Term>, root: Term, window: nat)
    requires window >= 1
    ensures Newest(Newest(trail, window) + [root], window) == Newest(trail + [root], window)
  {
    var kept, all := Newest(trail, window), trail + [root];
    if |trail| > window {
      assert trail == trail[..|trail| - window] + kept;
    }
  }

  /** In every reachable pool the anchors are the newest `window` roots the tree has had, oldest first. */
  lemma {:induction false} AnchorsExactly(r: Rules, ts: seq<Transfer>)
    requires r.window >= 1
    ensures After(r, ts).anchors == Newest(Trail(r, ts), r.window)
    decreases |ts|
  {
    hide Root, Accepts, Trail, After, Remember, Newest, RootAfter;
    if ts == [] {
      FirstAnchor(r);
    } else {
      var before := ts[..|ts| - 1];
      AnchorsExactly(r, before);
      TrailTidy(r, before);
      TrailTidy(r, ts);
      TrailStep(r, ts);
      RememberNewest(Trail(r, before), RootAfter(r, ts), r.window);
      AnchorStep(r, ts);
    }
  }

  lemma FirstAnchor(r: Rules)
    requires r.window >= 1
    ensures After(r, []).anchors == Newest(Trail(r, []), r.window)
  {
    hide Root;
  }

  lemma TrailStep(r: Rules, ts: seq<Transfer>)
    requires ts != [] && r.window >= 1
    ensures var was, now := Trail(r, ts[..|ts| - 1]), RootAfter(r, ts);
            && was[|was| - 1] == RootAfter(r, ts[..|ts| - 1])
            && Trail(r, ts) == (if now == was[|was| - 1] then was else was + [now])
            && (now == was[|was| - 1] || now !in was)
  {
    hide Root, After, RootAfter;
    TrailTidy(r, ts[..|ts| - 1]);
    TrailTidy(r, ts);
    var was, now := Trail(r, ts[..|ts| - 1]), RootAfter(r, ts);
    if now != was[|was| - 1] { LastIsNew(was, now); }
  }

  lemma LastIsNew(was: seq<Term>, now: Term)
    requires Distinct(was + [now])
    ensures now !in was
  {
    forall i | 0 <= i < |was| ensures was[i] != now {
      assert (was + [now])[i] == was[i] && (was + [now])[|was|] == now;
    }
  }

  /** Refused or not, a transfer leaves the root it comes to remembered. */
  lemma AnchorStep(r: Rules, ts: seq<Transfer>)
    requires ts != [] && r.window >= 1
    ensures After(r, ts).anchors == Remember(After(r, ts[..|ts| - 1]).anchors, RootAfter(r, ts), r.window)
  {
    hide Root, Accepts;
    ReachableTidy(r, ts);
    ReachableTidy(r, ts[..|ts| - 1]);
  }

  // ---- older roots ---------------------------------------------------------------------------------

  lemma {:induction false} TrailGrows(r: Rules, ts: seq<Transfer>, i: nat)
    requires i <= |ts|
    ensures var t, was := Trail(r, ts), Trail(r, ts[..i]);
            |t| == |was| + Changes(r, ts, i) && t[..|was|] == was
    decreases |ts|
  {
    hide RootAfter;
    if i == |ts| {
      assert ts[..i] == ts;
    } else {
      assert ts[..|ts| - 1][..i] == ts[..i];
      TrailGrows(r, ts[..|ts| - 1], i);
    }
  }

  lemma NewestHas(t: seq<Term>, n: nat, j: nat)
    requires j < |t| && Distinct(t)
    ensures t[j] in Newest(t, n) <==> |t| - j <= n
  {
    var kept := Newest(t, n);
    var from := |t| - |kept|;
    if j >= from { assert kept[j - from] == t[j]; }
    if t[j] in kept {
      var i :| 0 <= i < |kept| && kept[i] == t[j];
      assert t[from + i] == t[j];
    }
  }

  /** The root of any earlier prefix of a run is still an anchor exactly when it has changed fewer than `window` times
    * since. */
  lemma StaleAnchor(r: Rules, ts: seq<Transfer>, i: nat)
    requires r.window >= 1 && i <= |ts|
    ensures RootAfter(r, ts[..i]) in After(r, ts).anchors <==> Changes(r, ts, i) < r.window
  {
    hide Trail, After, Newest, RootAfter, Changes;
    AnchorsExactly(r, ts);
    TrailTidy(r, ts);
    TrailTidy(r, ts[..i]);
    TrailGrows(r, ts, i);
    var t, was := Trail(r, ts), Trail(r, ts[..i]);
    assert t[|was| - 1] == t[..|was|][|was| - 1];
    NewestHas(t, r.window, |was| - 1);
  }

  /** The root changes exactly when a transfer is accepted that adds a note, with room left in the tree. */
  lemma ChangesExactly(r: Rules, ts: seq<Transfer>)
    requires ts != [] && r.window >= 1
    ensures RootAfter(r, ts) != RootAfter(r, ts[..|ts| - 1]) <==>
              && AcceptedLast(r, ts) && ts[|ts| - 1].p.outCommitments != []
              && |After(r, ts[..|ts| - 1]).commitments| < Pow2(r.depth)
  {
    hide Root, Accepts, Pow2;
    Appends(r, ts);
    var now, next := After(r, ts[..|ts| - 1]).commitments, After(r, ts).commitments;
    RootsAgreeExactly(next, now, r.depth);
    Gap(next, now);
    if |now| == |next| { assert next == now; }
  }

  /** Liveness for stale proofs: a transfer proved against the tree of an earlier prefix, whose root has changed fewer
    * than `window` times since, is accepted if its inputs are still unspent. */
  lemma StaleAccepted(r: Rules, ts: seq<Transfer>, i: nat, t: Transfer)
    requires r.window >= 1 && i <= |ts| && Changes(r, ts, i) < r.window
    requires Spendable(r, After(r, ts[..i]), After(r, ts).nullifiers, t)
    ensures Accepts(After(r, ts), t.p, t.proof, r.sigOk, r.depth)
  {
    hide Root, After, Changes;
    StaleAnchor(r, ts, i);
    AnchoredAccepted(r, After(r, ts[..i]), After(r, ts), t);
  }

  /** And only so long: against an older tree any spend at all is refused. */
  lemma TooStale(r: Rules, ts: seq<Transfer>, i: nat, t: Transfer)
    requires r.window >= 1 && i <= |ts| && Changes(r, ts, i) >= r.window
    requires t.p.root == RootAfter(r, ts[..i]) && t.proof.inputs != []
    ensures !Accepts(After(r, ts), t.p, t.proof, r.sigOk, r.depth)
  {
    hide Root, After, Changes, RootAfter;
    StaleAnchor(r, ts, i);
  }
}
