/**
 When a compiled method keeps every named temporary it reads: definite assignment, checked on the method's text and on
 the registers its lines use. It is exact for control flow, that is up to which way conditional jumps really go.
 */
module ZkPyScope {
  import opened Options
  import opened Field
  import opened ZkVM
  import opened ZkAsm
  import opened ZkPyExpr
  import opened ZkPyEval
  import opened ZkPyMethod
  import P = ZkPyProgram

  // ---- control flow --------------------------------------------------------------------------------

  /** Control may pass from statement i to statement j. */
  predicate Edge(stmts: seq<Stmt>, i: nat, j: nat)
    requires i < |stmts|
  {
    match stmts[i]
    case Return(_) => false
    case Goto(name) => LabelStmt(stmts, name) == Some(j)
    case GotoIf(_, name) => LabelStmt(stmts, name) == Some(j) || j == i + 1
    case _ => j == i + 1
  }

  /** The temporary statement i sets, if it is an m.set. */
  function Sets(stmts: seq<Stmt>, i: nat): set<nat>
    requires i < |stmts|
  {
    if stmts[i].Keep? then {KeptBefore(stmts, i)} else {}
  }

  /** What is still there after statement i, with ts there before it. */
  function Passed(stmts: seq<Stmt>, ts: set<nat>, i: nat): set<nat>
    requires i < |stmts|
  {
    ts + Sets(stmts, i) - P.Clobbered(stmts)[i]
  }

  /** An assignment of temporaries to statements under which every statement reads only what is there whichever way
    * control came. Statements outside the map are never reached. */
  ghost predicate Definite(stmts: seq<Stmt>, d: map<nat, set<nat>>) {
    && (stmts != [] ==> 0 in d && d[0] == {})
    && (forall i :: i in d ==> i < |stmts| && Reads(stmts[i], d[i]))
    && forall i: nat, j: nat :: i in d && i < |stmts| && j < |stmts| && Edge(stmts, i, j) ==>
         j in d && d[j] <= Passed(stmts, d[i], i)
  }

  /** Every jump goes to a place with no more m.set before it than before the jump. */
  ghost predicate NoSkip(stmts: seq<Stmt>) {
    forall i, j :: 0 <= i < |stmts| && 0 <= j < |stmts| && j != i + 1 && Edge(stmts, i, j) ==>
      KeptBefore(stmts, j) <= KeptBefore(stmts, i)
  }

  // ---- no run reads what is not set ----------------------------------------------------------------

  /** A statement's effect sets its own temporary and no other. */
  lemma EffectSets(ctx: ZkVM.Ctx, stmts: seq<Stmt>, i: nat, m: Mem)
    requires i < |stmts| && Effect(ctx, stmts[i], KeptBefore(stmts, i), m).Some?
    ensures Effect(ctx, stmts[i], KeptBefore(stmts, i), m).value.temps.Keys == m.temps.Keys + Sets(stmts, i)
  {
    hide Eval, EvalAddr, EvalAll, Act, KeptBefore;
    var s := stmts[i];
    if Simple(s) {
      var w := EvalAll(ctx, m.Visible(), Operands(s)).value;
      ActSetsNothing(ctx, s, w.xs, m.(io := m.io + w.log));
    }
  }

  lemma ActSetsNothing(ctx: ZkVM.Ctx, s: Stmt, xs: seq<Elem>, m: Mem)
    requires Simple(s) && |xs| == |Operands(s)| && Act(ctx, s, xs, m).Some?
    ensures Act(ctx, s, xs, m).value.temps == m.temps
  {
    hide MintAsset, PayAsset, Spend;
  }

  lemma NextIsEdge(ctx: ZkVM.Ctx, stmts: seq<Stmt>, i: nat, m: Mem)
    requires i < |stmts| && !stmts[i].Return?
    ensures NextStmt(ctx, stmts, i, m).Some? ==>
              NextStmt(ctx, stmts, i, m).value <= |stmts| && Edge(stmts, i, NextStmt(ctx, stmts, i, m).value)
  {
    hide LabelStmt, Operand0;
  }

  /** From a statement reached with at least its assigned temporaries, the run never reads one that is missing. */
  lemma {:induction false} NeverUnset(ctx: ZkVM.Ctx, stmts: seq<Stmt>, d: map<nat, set<nat>>, costs: seq<nat>,
                                      i: nat, m: Mem, gas: nat)
    requires |costs| == |stmts| && Definite(stmts, d)
    requires i < |stmts| ==> i in d && d[i] <= m.temps.Keys
    ensures !SrcRun(ctx, stmts, costs, P.Clobbered(stmts), i, m, gas).Unset?
    decreases gas, if i < |stmts| then |stmts| - i else 0
  {
    hide P.Clobbered, Effect, NextStmt, Reads, Operand0, Edge, LabelStmt, KeptBefore;
    if i < |stmts| {
      if stmts[i].LabelAt? {
        LabelPasses(stmts, d, i);
        NeverUnset(ctx, stmts, d, costs, i + 1, m, gas);
      } else {
        ReadsMono(stmts[i], d[i], m.temps.Keys);
        var e := Effect(ctx, stmts[i], KeptBefore(stmts, i), m);
        if e.Some? && gas >= costs[i] && costs[i] > 0 && !stmts[i].Return? {
          EffectSets(ctx, stmts, i, m);
          NextIsEdge(ctx, stmts, i, m);
          var j := NextStmt(ctx, stmts, i, m);
          if j.Some? {
            NeverUnset(ctx, stmts, d, costs, j.value, Forget(e.value, P.Clobbered(stmts)[i]), gas - costs[i]);
          }
        }
      }
    }
  }

  lemma LabelPasses(stmts: seq<Stmt>, d: map<nat, set<nat>>, i: nat)
    requires Definite(stmts, d) && i in d && stmts[i].LabelAt?
    ensures i + 1 < |stmts| ==> i + 1 in d && d[i + 1] <= d[i]
  {
    if i + 1 < |stmts| { assert Edge(stmts, i, i + 1); }
  }

  /** What a method means: a named temporary is pinned for the whole method. */
  function Meant(ctx: ZkVM.Ctx, stmts: seq<Stmt>, st: map<Elem, Elem>): SrcOutcome {
    SrcRun(ctx, stmts, Costs(stmts), Nothing(stmts), 0, P.Mem0(st), GAS_LIMIT)
  }

  /** Compiler correctness with no condition on the run: a method that passes the check with the registers its own lines
    * touch does, compiled and deployed, exactly what it means, on every call. */
  lemma DefiniteCorrect(ctx: ZkVM.Ctx, stmts: seq<Stmt>, d: map<nat, set<nat>>, prog: seq<Ins>, st: map<Elem, Elem>)
    requires Definite(stmts, d)
    requires Lower(stmts).Some? && Assembled(Lower(stmts).value.lines) == Ok(prog)
    requires P.ImmediatesInField(prog) && |ctx.args| <= MAX_ARGS
    ensures Meant(ctx, stmts, st) == Finished(Run(ctx, prog, st))
  {
    hide Lower, SrcRun, Run, Assembled, P.Clobbered;
    P.CompilerCorrect(ctx, stmts, prog, st);
    NeverUnset(ctx, stmts, d, Costs(stmts), 0, P.Mem0(st), GAS_LIMIT);
    LosingLess(ctx, stmts, Costs(stmts), P.Clobbered(stmts), Nothing(stmts), 0, P.Mem0(st), P.Mem0(st), GAS_LIMIT);
  }

  // ---- the check is exact for control flow ---------------------------------------------------------

  /** A way through the method, from its first statement. */
  ghost predicate Path(stmts: seq<Stmt>, p: seq<nat>) {
    && p != [] && p[0] == 0
    && (forall k :: 0 <= k < |p| ==> p[k] < |stmts|)
    && forall k :: 0 < k < |p| ==> Edge(stmts, p[k - 1], p[k])
  }

  /** What is set on arrival at the end of a way. */
  ghost function SetAlong(stmts: seq<Stmt>, p: seq<nat>): set<nat>
    requires Path(stmts, p)
  {
    var n := |p| - 1;
    if n == 0 then {} else Passed(stmts, SetAlong(stmts, p[..n]), p[n - 1])
  }

  ghost predicate PathTo(stmts: seq<Stmt>, p: seq<nat>, i: nat) {
    Path(stmts, p) && p[|p| - 1] == i
  }

  ghost predicate Reached(stmts: seq<Stmt>, i: nat) {
    exists p :: PathTo(stmts, p, i)
  }

  /** No way through the method reads a temporary that is not set on it. */
  ghost predicate AllPathsSet(stmts: seq<Stmt>) {
    forall p :: Path(stmts, p) ==> Reads(stmts[p[|p| - 1]], SetAlong(stmts, p))
  }

  lemma PathBack(stmts: seq<Stmt>, p: seq<nat>)
    requires Path(stmts, p) && |p| > 1
    ensures Path(stmts, p[..|p| - 1])
  {
  }

  lemma PathOn(stmts: seq<Stmt>, p: seq<nat>, i: nat, j: nat)
    requires PathTo(stmts, p, i) && i < |stmts| && j < |stmts| && Edge(stmts, i, j)
    ensures PathTo(stmts, p + [j], j)
    ensures SetAlong(stmts, p + [j]) == Passed(stmts, SetAlong(stmts, p), i)
  {
    hide Edge, Passed;
    assert (p + [j])[..|p|] == p;
  }

  lemma {:induction false} DefiniteAlong(stmts: seq<Stmt>, d: map<nat, set<nat>>, p: seq<nat>)
    requires Definite(stmts, d) && Path(stmts, p)
    ensures p[|p| - 1] in d && d[p[|p| - 1]] <= SetAlong(stmts, p)
    decreases |p|
  {
    hide Edge, Reads;
    if |p| > 1 {
      PathBack(stmts, p);
      DefiniteAlong(stmts, d, p[..|p| - 1]);
      assert Edge(stmts, p[|p| - 2], p[|p| - 1]);
    }
  }

  /** The temporaries set on every way to i. */
  ghost predicate SetOnAll(stmts: seq<Stmt>, i: nat, t: nat) {
    forall p :: PathTo(stmts, p, i) ==> t in SetAlong(stmts, p)
  }

  ghost function Best(stmts: seq<Stmt>): map<nat, set<nat>> {
    map i: nat | 0 <= i < |stmts| && Reached(stmts, i) ::
      set t | t in Numbered(KeptBefore(stmts, |stmts|)) && SetOnAll(stmts, i, t)
  }

  lemma {:induction false} KeptGrows(stmts: seq<Stmt>, i: nat, j: nat)
    requires i <= j <= |stmts|
    ensures KeptBefore(stmts, i) <= KeptBefore(stmts, j)
    decreases j
  {
    if i < j { KeptGrows(stmts, i, j - 1); }
  }

  /** Some assignment passes the check exactly when no way through the method reads an unset temporary. */
  lemma DefiniteIffPaths(stmts: seq<Stmt>)
    ensures (exists d :: Definite(stmts, d)) <==> AllPathsSet(stmts)
  {
    hide Reads;
    if d :| Definite(stmts, d) {
      forall p | Path(stmts, p) ensures Reads(stmts[p[|p| - 1]], SetAlong(stmts, p)) {
        DefiniteAlong(stmts, d, p);
        ReadsMono(stmts[p[|p| - 1]], d[p[|p| - 1]], SetAlong(stmts, p));
      }
    }
    if AllPathsSet(stmts) { BestDefinite(stmts); }
  }

  /** Every way to i sets all that v reads. */
  ghost predicate ReadsOnAll(stmts: seq<Stmt>, i: nat, v: Val) {
    forall p :: PathTo(stmts, p, i) ==> TempsIn(v, SetAlong(stmts, p))
  }

  lemma {:induction false} SetInRange(stmts: seq<Stmt>, p: seq<nat>)
    requires Path(stmts, p)
    ensures SetAlong(stmts, p) <= Numbered(KeptBefore(stmts, |stmts|))
    decreases |p|
  {
    hide Edge, P.Clobbered;
    if |p| > 1 {
      SetInRange(stmts, p[..|p| - 1]);
      KeptGrows(stmts, p[|p| - 2] + 1, |stmts|);
    }
  }

  lemma {:induction false} BestReads(stmts: seq<Stmt>, i: nat, v: Val)
    requires i in Best(stmts) && ReadsOnAll(stmts, i, v)
    ensures TempsIn(v, Best(stmts)[i])
    decreases v
  {
    hide Best, SetAlong, Path;
    match v
    case Temp(t) => BestHas(stmts, i, t);
    case Const(_) =>
    case Arg(_) =>
    case Ctx(_) =>
    case Actx(_) =>
    case Sload(cell) => BestReads(stmts, i, cell.key);
    case Read(_, a) => BestReads(stmts, i, a);
    case Hash(els) => forall e | e in els ensures TempsIn(e, Best(stmts)[i]) { BestReads(stmts, i, e); }
    case Lo32(a) => BestReads(stmts, i, a);
    case Notb(a) => BestReads(stmts, i, a);
    case Bin(_, a, b) => BestReads(stmts, i, a); BestReads(stmts, i, b);
    case Muldiv(a, b, c) => BestReads(stmts, i, a); BestReads(stmts, i, b); BestReads(stmts, i, c);
    case Mux(k, a, b) => BestReads(stmts, i, k); BestReads(stmts, i, a); BestReads(stmts, i, b);
  }

  lemma BestHas(stmts: seq<Stmt>, i: nat, t: nat)
    requires i in Best(stmts) && ReadsOnAll(stmts, i, Temp(t))
    ensures t in Best(stmts)[i]
  {
    hide Path, SetAlong;
    forall p | PathTo(stmts, p, i) ensures t in SetAlong(stmts, p) {
      assert TempsIn(Temp(t), SetAlong(stmts, p));
    }
    var p :| PathTo(stmts, p, i);
    SetInRange(stmts, p);
  }

  lemma BestStmt(stmts: seq<Stmt>, i: nat)
    requires AllPathsSet(stmts) && i in Best(stmts)
    ensures i < |stmts| && Reads(stmts[i], Best(stmts)[i])
  {
    hide Best, SetAlong, Path, TempsIn, AllPathsSet;
    BestRange(stmts, i);
    EveryWayReads(stmts, i);
    var s := stmts[i];
    if s.Keep? {
      BestReads(stmts, i, s.v);
    } else if s.StoreTo? {
      BestReads(stmts, i, s.v);
      BestReads(stmts, i, s.cell.key);
    } else {
      forall e | e in Operands(s) ensures TempsIn(e, Best(stmts)[i]) { BestReads(stmts, i, e); }
    }
  }

  lemma EveryWayReads(stmts: seq<Stmt>, i: nat)
    requires AllPathsSet(stmts) && i < |stmts|
    ensures forall p :: PathTo(stmts, p, i) ==> Reads(stmts[i], SetAlong(stmts, p))
  {
    hide SetAlong, Reads;
  }

  lemma BestEdge(stmts: seq<Stmt>, i: nat, j: nat)
    requires i in Best(stmts) && j < |stmts| && Edge(stmts, i, j)
    ensures j in Best(stmts) && Best(stmts)[j] <= Passed(stmts, Best(stmts)[i], i)
  {
    hide Path, SetAlong, Passed, Edge;
    var q :| PathTo(stmts, q, i);
    PathOn(stmts, q, i, j);
    forall t | t in Best(stmts)[j] ensures t in Passed(stmts, Best(stmts)[i], i) {
      forall p | PathTo(stmts, p, i) ensures t in Passed(stmts, SetAlong(stmts, p), i) {
        PathOn(stmts, p, i, j);
      }
      PassedOnAll(stmts, i, j, t);
    }
  }

  lemma PassedOnAll(stmts: seq<Stmt>, i: nat, j: nat, t: nat)
    requires i in Best(stmts) && j < |stmts| && t in Numbered(KeptBefore(stmts, |stmts|))
    requires forall p :: PathTo(stmts, p, i) ==> t in Passed(stmts, SetAlong(stmts, p), i)
    ensures t in Passed(stmts, Best(stmts)[i], i)
  {
    hide Path, SetAlong, KeptBefore;
    var q :| PathTo(stmts, q, i);
    assert t in Passed(stmts, SetAlong(stmts, q), i);
    if t !in Sets(stmts, i) {
      forall p | PathTo(stmts, p, i) ensures t in SetAlong(stmts, p) {
        assert t in Passed(stmts, SetAlong(stmts, p), i);
      }
    }
  }

  lemma BestDefinite(stmts: seq<Stmt>)
    requires AllPathsSet(stmts)
    ensures Definite(stmts, Best(stmts))
  {
    hide Best, Reads, Edge, Passed;
    var d := Best(stmts);
    if stmts != [] { BestStart(stmts); }
    forall i | i in d ensures i < |stmts| && Reads(stmts[i], d[i]) {
      BestRange(stmts, i);
      BestStmt(stmts, i);
    }
    forall i: nat, j: nat | i in d && i < |stmts| && j < |stmts| && Edge(stmts, i, j)
      ensures j in d && d[j] <= Passed(stmts, d[i], i)
    {
      BestEdge(stmts, i, j);
    }
  }

  lemma BestRange(stmts: seq<Stmt>, i: nat)
    requires i in Best(stmts)
    ensures i < |stmts|
  {
  }

  lemma BestStart(stmts: seq<Stmt>)
    requires stmts != []
    ensures 0 in Best(stmts) && Best(stmts)[0] == {}
  {
    assert PathTo(stmts, [0], 0);
    assert SetAlong(stmts, [0]) == {};
  }

  // ---- jumps that skip nothing ---------------------------------------------------------------------

  /** Every temporary named so far, at every statement. */
  function Named(stmts: seq<Stmt>): map<nat, set<nat>> {
    map i: nat | 0 <= i < |stmts| :: Numbered(KeptBefore(stmts, i))
  }

  lemma NamedReads(stmts: seq<Stmt>, i: nat)
    requires Lower(stmts).Some? && i < |stmts|
    ensures Reads(stmts[i], Numbered(KeptBefore(stmts, i)))
  {
    hide Lower, LowerStmt, Reads;
    P.LowerAt(stmts, i);
    P.NamesGrow(stmts, i, i);
    var b := Lower(stmts[..i]).value;
    P.LowerReads(stmts[i], b.names, b.free);
  }

  lemma NamedEdge(stmts: seq<Stmt>, i: nat, j: nat)
    requires Lower(stmts).Some? && NoSkip(stmts) && i < |stmts| && j < |stmts| && Edge(stmts, i, j)
    ensures Numbered(KeptBefore(stmts, j)) <= Passed(stmts, Numbered(KeptBefore(stmts, i)), i)
  {
    hide Edge, KeptBefore, Lower, P.Clobbered, P.StmtTouches;
    KeptNext(stmts, i);
    forall t: nat ensures t in P.Clobbered(stmts)[i] ==> t >= KeptBefore(stmts, i + 1) {
      P.ClobberedAt(stmts, i, t);
    }
    if j != i + 1 {
      assert KeptBefore(stmts, j) <= KeptBefore(stmts, i);
    }
  }

  lemma KeptNext(stmts: seq<Stmt>, i: nat)
    requires i < |stmts|
    ensures Numbered(KeptBefore(stmts, i + 1)) == Numbered(KeptBefore(stmts, i)) + Sets(stmts, i)
  {
  }

  /** A method that compiles and whose jumps skip no m.set passes the check. */
  lemma NoSkipDefinite(stmts: seq<Stmt>)
    requires Lower(stmts).Some? && NoSkip(stmts)
    ensures Definite(stmts, Named(stmts))
  {
    hide Lower, Reads, Edge, KeptBefore, NoSkip, Passed, Numbered;
    if stmts != [] { assert Numbered(KeptBefore(stmts, 0)) == {} by { NothingNamed(stmts); } }
    forall i | 0 <= i < |stmts| ensures Reads(stmts[i], Numbered(KeptBefore(stmts, i))) {
      NamedReads(stmts, i);
    }
    forall i: nat, j: nat | i < |stmts| && j < |stmts| && Edge(stmts, i, j)
      ensures Numbered(KeptBefore(stmts, j)) <= Passed(stmts, Numbered(KeptBefore(stmts, i)), i)
    {
      NamedEdge(stmts, i, j);
    }
  }

  /** So such a method does, compiled, exactly what it means on every call. */
  lemma NoSkipCorrect(ctx: ZkVM.Ctx, stmts: seq<Stmt>, prog: seq<Ins>, st: map<Elem, Elem>)
    requires NoSkip(stmts)
    requires Lower(stmts).Some? && Assembled(Lower(stmts).value.lines) == Ok(prog)
    requires P.ImmediatesInField(prog) && |ctx.args| <= MAX_ARGS
    ensures Meant(ctx, stmts, st) == Finished(Run(ctx, prog, st))
  {
    hide Lower, Meant, Run, Assembled, NoSkip, Definite;
    NoSkipDefinite(stmts);
    DefiniteCorrect(ctx, stmts, Named(stmts), prog, st);
  }

  lemma NothingNamed(stmts: seq<Stmt>)
    ensures KeptBefore(stmts, 0) == 0 && Numbered(0) == {}
  {
  }
}
