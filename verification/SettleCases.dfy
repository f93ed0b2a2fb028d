/**
 Three spans that run. The first cannot be proved because a call pays the caller of the one before it, whom its own
 segment does not know; the second because its argument vectors overflow the one segment they are packed into. The
 third is proved, but the verifier rejects what the prover returns.
 */
module SettleCases {
  import opened Options
  import opened Field
  import opened Sums
  import opened ZkVM
  import opened SettleLog
  import opened SettleCall
  import opened SettleSpan
  import opened SettleRoot
  import opened SettleEpoch
  import opened SettleAgree
  import opened SettleSound
  import opened SettleNames
  import A = SettleAssets
  import G = ZkGuards
  import K = SettlePacking
  import R = ZkReplay

  // ---- the span ------------------------------------------------------------------------------------

  function Knock(): seq<Ins> {
    [Ins(RET, 0, 0, 0)]
  }

  /** Pays 1 to the address digest in argument 0. */
  function Tip(): seq<Ins> {
    [Ins(MOVI, 1, 0, 1), Ins(PAY, 0, 1, 0), Ins(RET, 0, 0, 0)]
  }

  function Till(): Contract {
    Contract(map["knock" := Knock(), "tip" := Tip(), "peek" := ReadZero()], true, map[])
  }

  /** Bob has 1 to spend. */
  function Start(reg: Registry): State {
    State(map["till" := Till()], map["bob" := 1], A.Assets(map[], map[]), reg)
  }

  function Visit(): Call {
    Call("till", "knock", Some("alice"), [], 0, 0, None, None)
  }

  /** Bob pays 1 in, for the address whose digest he passes as a number. */
  function Gift(env: Env): Call {
    Call("till", "tip", Some("bob"), [Num(env.digest("alice"))], 1, 0, None, None)
  }

  function Visits(env: Env): seq<Call> {
    [Visit(), Gift(env)]
  }

  function KnockLog(x: Elem): seq<Entry> {
    [Entry(IO_RET, x, 0)]
  }

  function TipLog(to: Elem): seq<Entry> {
    [Entry(IO_PAY, to, 1), Entry(IO_RET, to, 0)]
  }

  // ---- the two methods -----------------------------------------------------------------------------

  lemma KnockRuns(ctx: Ctx)
    requires |ctx.args| <= MAX_ARGS
    ensures var x := ctx.ArgOrZero(0);
            Run(ctx, Knock(), map[]) == Success(x, map[], KnockLog(x)) && K.RunRows(ctx, Knock(), map[]) == 1
  {
    var c := Entry0(ctx, map[]);
    assert StepAt(ctx, Knock(), 0, c) == Halt(c.regs[0], c.Log(IO_RET, c.regs[0], 0));
  }

  lemma TipRuns(ctx: Ctx)
    requires |ctx.args| <= MAX_ARGS
    ensures var x := ctx.ArgOrZero(0);
            Run(ctx, Tip(), map[]) == Success(x, map[], TipLog(x)) && K.RunRows(ctx, Tip(), map[]) == 3
  {
    hide StepAt;
    var c0 := Entry0(ctx, map[]);
    var x := ctx.ArgOrZero(0);
    var c1 := c0.Set(1, 1);
    var c2 := c1.Log(IO_PAY, x, 1);
    var c3 := c2.Log(IO_RET, x, 0);
    TipSteps(ctx, c0);
    assert c3.io == TipLog(x);
    RunThree(ctx, Tip(), c0, c1, c2, x, c3);
  }

  lemma TipSteps(ctx: Ctx, c0: Core)
    requires c0.asel == 0
    ensures var c1 := c0.Set(1, 1);
            var c2 := c1.Log(IO_PAY, c0.regs[0], 1);
            && StepAt(ctx, Tip(), 0, c0) == Go(1, c1)
            && StepAt(ctx, Tip(), 1, c1) == Go(2, c2)
            && StepAt(ctx, Tip(), 2, c2) == Halt(c0.regs[0], c2.Log(IO_RET, c0.regs[0], 0))
  {
  }

  lemma RunThree(ctx: Ctx, prog: seq<Ins>, c0: Core, c1: Core, c2: Core, ret: Elem, c3: Core)
    requires StepAt(ctx, prog, 0, c0) == Go(1, c1) && StepAt(ctx, prog, 1, c1) == Go(2, c2)
    requires StepAt(ctx, prog, 2, c2) == Halt(ret, c3)
    ensures RunFrom(ctx, prog, 0, c0, GAS_LIMIT) == Success(ret, c3.st, c3.io)
    ensures K.Steps(ctx, prog, 0, c0, GAS_LIMIT) == 3
  {
    hide StepAt;
    assert RunFrom(ctx, prog, 2, c2, GAS_LIMIT - 2) == Success(ret, c3.st, c3.io);
    assert RunFrom(ctx, prog, 1, c1, GAS_LIMIT - 1) == Success(ret, c3.st, c3.io);
    assert K.Steps(ctx, prog, 2, c2, GAS_LIMIT - 2) == 1;
    assert K.Steps(ctx, prog, 1, c1, GAS_LIMIT - 1) == 2;
  }

  lemma KnockSplits(reg: Registry, x: Elem)
    ensures Split(reg, KnockLog(x)) == Some(Parsed([], []))
  {
    hide Grammar, Meaning;
    var log := KnockLog(x);
    Unfold(reg, log);
    assert log[1..] == [];
    EmptyLog(reg);
    JoinEmpty(Parsed([], []));
  }

  lemma TipSplits(reg: Registry, to: Elem)
    requires to in reg
    ensures Split(reg, TipLog(to)) == Some(Parsed([(reg[to], 1)], []))
  {
    hide Grammar, Meaning;
    var log := TipLog(to);
    Unfold(reg, log);
    assert log[1..] == KnockLog(to);
    KnockSplits(reg, to);
    JoinEmpty(Parsed([(reg[to], 1)], []));
  }

  // ---- the first pass ------------------------------------------------------------------------------

  lemma VisitStep(env: Env)
    ensures var d := CallStep(env, Start(map[]), Visit());
            && d.Some? && d.value.post == Start(map[env.digest("alice") := "alice"])
            && |d.value.call.ctx.args| == 0 && d.value.call.code == Till().code && d.value.call.slots == map[]
            && d.value.call.pub.cid == "till" && d.value.call.pub.name == "knock"
  {
    hide Run, Split, A.View, Knock, Tip;
    var s, call := Start(map[]), Visit();
    var pub := Publish(env, call);
    var reg: Registry := map[env.digest("alice") := "alice"];
    assert Digest(env.digest, map[], "alice", []) == Some(Statement(reg, []));
    var ctx := Context(env, pub, [], A.View(s.assets, "till"));
    KnockRuns(ctx);
    KnockSplits(reg, ctx.ArgOrZero(0));
    assert s.contracts["till" := Till().(slots := map[])] == s.contracts;
  }

  lemma GiftStep(env: Env)
    ensures var d := CallStep(env, Start(map[env.digest("alice") := "alice"]), Gift(env));
            && d.Some? && d.value.call.ctx.args == [env.digest("alice")]
            && d.value.call.code == Till().code && d.value.call.slots == map[]
            && d.value.call.pub.cid == "till" && d.value.call.pub.name == "tip"
  {
    hide Run, Split, A.View, Knock, Tip, Transfer, ApplyPayouts;
    var alice, bob := env.digest("alice"), env.digest("bob");
    var s, call := Start(map[alice := "alice"]), Gift(env);
    var pub := Publish(env, call);
    var reg: Registry := map[alice := "alice"][bob := "bob"];
    GiftDigest(env);
    var ctx := Context(env, pub, [alice], A.View(s.assets, "till"));
    TipRuns(ctx);
    TipSplits(reg, alice);
    GiftCovered(reg[alice]);
  }

  lemma GiftDigest(env: Env)
    ensures var alice, bob := env.digest("alice"), env.digest("bob");
            Digest(env.digest, map[alice := "alice"], "bob", [Num(alice)]) ==
            Some(Statement(map[alice := "alice"][bob := "bob"], [alice]))
  {
    var alice, bob := env.digest("alice"), env.digest("bob");
    var reg: Registry := map[alice := "alice"][bob := "bob"];
    var args: seq<Arg> := [Num(alice)];
    assert args[0] == Num(alice) && args[1..] == [];
    assert DigestArgs(env.digest, reg, args[1..]) == Some(Statement(reg, []));
    assert [alice] + [] == [alice];
  }

  lemma GiftCovered(to: Addr)
    ensures ApplyPayouts(Transfer(map["bob" := 1], "bob", "till", 1), "till", [(to, 1)]).Some?
  {
    var b: Bridge := map["bob" := 1];
    assert Put(b, "bob", 0) == map[];
    assert Transfer(b, "bob", "till", 1) == map["till" := 1];
    var owed: seq<(Addr, Elem)> := [(to, 1)];
    assert owed[0].1 == 1 && owed[1..] == [];
    assert TotalOwed(owed) == 1;
  }

  // ---- both cuts -----------------------------------------------------------------------------------

  /** What the first pass records of the two calls. */
  ghost predicate Recorded(p: Prover, done: seq<Done>) {
    && |done| == 2
    && CostsOf(p, done) == [K.Cost(1, p.ident("till", "knock"), 1), K.Cost(3, p.ident("till", "tip"), 3)]
    && LogsOf(CallsOf(done)) == [KnockLog(0), TipLog(p.env.digest("alice"))]
    && (forall i :: 0 <= i < 2 ==> done[i].call.code == Till().code && |done[i].call.ctx.args| == i)
    && done[0].call.pub.name == "knock" && done[1].call.pub.name == "tip"
    && done[0].call.pub.cid == "till" && done[1].call.pub.cid == "till"
  }

  lemma VisitsRun(p: Prover)
    ensures var ran := Span(p.env, Start(map[]), Visits(p.env));
            ran.Some? && Recorded(p, ran.value.done)
  {
    hide CallStep, Run, K.RunRows, Knock, Tip;
    VisitStep(p.env);
    GiftStep(p.env);
    var d := CallStep(p.env, Start(map[]), Visit()).value;
    var e := CallStep(p.env, d.post, Gift(p.env)).value;
    var calls := Visits(p.env);
    assert calls[1..] == [Gift(p.env)] && [Gift(p.env)][1..] == [];
    SpanNothing(p.env, e.post);
    assert [e] + [] == [e] && [d] + [e] == [d, e];
    KnockRuns(d.call.ctx);
    TipRuns(e.call.ctx);
    Sizes();
  }

  lemma Sizes()
    ensures |Knock()| == 1 && |Tip()| == 3
  {
  }

  /** Under a limit of 262 rows each call is alone; under 265 they share a segment. */
  lemma TwoCosts(costs: seq<K.Cost>, x: nat, y: nat)
    requires costs == [K.Cost(1, x, 1), K.Cost(3, y, 3)] && x != y
    ensures K.IsPacking(costs, 262, [K.Segment(0, 1), K.Segment(1, 2)])
    ensures K.IsPacking(costs, 265, [K.Segment(0, 2)])
    ensures forall i :: 0 <= i < 2 ==> K.Alone(costs[i], 262)
  {
    assert K.Rows(costs, 0, 1) == 1 && K.Rows(costs, 0, 2) == 4;
    assert !K.Seen(costs, 0, 1, y);
    assert K.Sizes(costs, 0, 1) == 1 && K.Sizes(costs, 0, 2) == 4;
    assert !K.Joins(costs, 0, 1, 262) && K.Joins(costs, 0, 1, 265);
    var two := [K.Segment(0, 1), K.Segment(1, 2)];
    assert K.Follows(two, 1);
  }

  /** The gift names nobody but Bob. */
  lemma GiftNames(env: Env)
    requires env.digest("alice") != env.digest("bob")
    ensures !Names(env, Gift(env), env.digest("alice")) && Names(env, Visit(), env.digest("alice"))
  {
  }

  /** The first pass runs, each call fits a segment by itself, and with the limit that gives each its own segment
    * prove_settlement fails. */
  lemma CutRefuses(p: Prover, r: Option<Bundle>)
    requires p.env.digest("alice") != p.env.digest("bob") && p.ident("till", "knock") != p.ident("till", "tip")
    requires Proved(p, Start(map[]), Visits(p.env), 262, r)
    ensures Cut(p, Start(map[]), Visits(p.env), 262, [K.Segment(0, 1), K.Segment(1, 2)])
    ensures r.None?
  {
    hide Span, Proved, Names, K.Rows, K.Sizes, K.IsPacking, K.Alone, TraceBuilds;
    var s, calls, cuts := Start(map[]), Visits(p.env), [K.Segment(0, 1), K.Segment(1, 2)];
    VisitsRun(p);
    var done := Span(p.env, s, calls).value.done;
    TwoCosts(CostsOf(p, done), p.ident("till", "knock"), p.ident("till", "tip"));
    assert Fresh(s) == s;
    ProvedExact(p, s, calls, 262, cuts, r);
    GiftNames(p.env);
    GiftUncovered(p, done);
  }

  lemma GiftUncovered(p: Prover, done: seq<Done>)
    requires p.env.digest("alice") != p.env.digest("bob") && Recorded(p, done)
    ensures !PartProves(p, Visits(p.env), done, K.Segment(1, 2))
  {
    hide TraceBuilds, Names;
    var alice := p.env.digest("alice");
    var part, logs := Visits(p.env)[1..2], LogsOf(CallsOf(done[1..2]));
    assert part == [Gift(p.env)] && logs[0] == LogsOf(CallsOf(done))[1] == TipLog(alice);
    assert Gives(logs[0][0]);
    GiftNames(p.env);
    assert !NamedBy(p.env, part, 0, alice);
  }

  /** With three rows more both calls are one segment, and the same span is proved. */
  lemma WholeProves(p: Prover, r: Option<Bundle>)
    requires p.env.digest("alice") != p.env.digest("bob") && p.ident("till", "knock") != p.ident("till", "tip")
    requires Proved(p, Start(map[]), Visits(p.env), 265, r)
    ensures r.Some?
  {
    hide Span, Proved, Names, K.Rows, K.Sizes, K.IsPacking, K.Alone, PartNamed, ValidCode, AllCovered;
    var s, calls, cuts := Start(map[]), Visits(p.env), [K.Segment(0, 2)];
    VisitsRun(p);
    var done := Span(p.env, s, calls).value.done;
    TwoCosts(CostsOf(p, done), p.ident("till", "knock"), p.ident("till", "tip"));
    AloneMore(CostsOf(p, done));
    assert Fresh(s) == s;
    TwoTexts(p, done);
    ProvedWhen(p, s, calls, 265, cuts, r);
    TillValid();
    WholeNamed(p, done);
  }

  lemma AloneMore(costs: seq<K.Cost>)
    requires forall i :: 0 <= i < |costs| ==> K.Alone(costs[i], 262)
    ensures forall i :: 0 <= i < |costs| ==> K.Alone(costs[i], 265)
  {
    forall i | 0 <= i < |costs| ensures K.Alone(costs[i], 265) { assert K.Alone(costs[i], 262); }
  }

  lemma TillValid()
    ensures ValidCode(Till().code)
  {
    assert G.ValidMethod(Knock());
    assert G.ValidMethod(Tip());
    ReadZeroValid();
  }

  lemma TwoTexts(p: Prover, done: seq<Done>)
    requires Recorded(p, done) && p.ident("till", "knock") != p.ident("till", "tip")
    ensures OneText(p, CallsOf(done))
  {
    hide Provable;
    var calls := CallsOf(done);
    forall x, y | x in calls && y in calls && IdentOf(p, x) == IdentOf(p, y) && Provable(x) && Provable(y)
      ensures x.code[x.pub.name] == y.code[y.pub.name]
    {
      var i :| 0 <= i < 2 && calls[i] == x;
      var j :| 0 <= j < 2 && calls[j] == y;
      assert i == j;
    }
  }

  lemma WholeNamed(p: Prover, done: seq<Done>)
    requires Recorded(p, done)
    ensures PartNamed(p, Visits(p.env), done, K.Segment(0, 2))
  {
    hide Names;
    var alice := p.env.digest("alice");
    var calls := Visits(p.env);
    assert calls[0..2] == calls && done[0..2] == done;
    var logs := LogsOf(CallsOf(done));
    assert Names(p.env, calls[0], alice) by { VisitNames(p.env); }
    assert NamedBy(p.env, calls, 1, alice);
    ArgsOfTwo(CallsOf(done));
  }

  lemma VisitNames(env: Env)
    ensures Names(env, Visit(), env.digest("alice"))
  {
  }

  lemma ArgsOfTwo(calls: seq<EpochCall>)
    requires |calls| == 2 && |calls[0].ctx.args| == 0 && |calls[1].ctx.args| == 1
    ensures ArgTotal(calls) == 1
  {
    var one := calls[..1];
    assert calls[..|calls| - 1] == one && one[..|one| - 1] == [];
    assert ArgTotal(one) == 0;
  }

  // ---- too many arguments --------------------------------------------------------------------------

  function Zeros(k: nat): seq<Arg> {
    if k == 0 then [] else [Num(0)] + Zeros(k - 1)
  }

  /** Alice knocks with as many arguments as a call can have, n times. */
  function Crowd(n: nat): seq<Call> {
    if n == 0 then [] else [Call("till", "knock", Some("alice"), Zeros(MAX_ARGS), 0, 0, None, None)] + Crowd(n - 1)
  }

  lemma {:induction false} ZerosDigest(digest: Addr -> Elem, reg: Registry, k: nat)
    ensures var r := DigestArgs(digest, reg, Zeros(k));
            r.Some? && r.value.reg == reg && |r.value.args| == k && forall i :: 0 <= i < k ==> r.value.args[i] == 0
  {
    if k > 0 {
      ZerosDigest(digest, reg, k - 1);
      assert Zeros(k)[1..] == Zeros(k - 1);
    }
  }

  /** One call of the crowd, as it is recorded. */
  ghost predicate Knocked(p: Prover, d: Done) {
    && d.call.code == Till().code && d.call.pub.cid == "till" && d.call.pub.name == "knock"
    && |d.call.ctx.args| == MAX_ARGS && LogOf(d.call) == KnockLog(0)
    && CostOf(p, d.call) == K.Cost(1, p.ident("till", "knock"), 1)
  }

  lemma KnockStep(p: Prover, reg: Registry)
    ensures var d := CallStep(p.env, Start(reg), Crowd(1)[0]);
            && d.Some? && d.value.post == Start(reg[p.env.digest("alice") := "alice"])
            && Knocked(p, d.value)
  {
    hide Run, K.RunRows, Split, A.View, Knock, Tip, Zeros;
    var env, s, call := p.env, Start(reg), Crowd(1)[0];
    var pub := Publish(env, call);
    var next := reg[env.digest("alice") := "alice"];
    ZerosDigest(env.digest, next, MAX_ARGS);
    var ctx := Context(env, pub, DigestArgs(env.digest, next, call.args).value.args, A.View(s.assets, "till"));
    KnockRuns(ctx);
    KnockSplits(next, 0);
    Sizes();
    assert s.contracts["till" := Till().(slots := map[])] == s.contracts;
  }

  lemma {:induction false} CrowdRuns(p: Prover, reg: Registry, n: nat)
    ensures |Crowd(n)| == n
    ensures var ran := Span(p.env, Start(reg), Crowd(n));
            ran.Some? && |ran.value.done| == n && forall i :: 0 <= i < n ==> Knocked(p, ran.value.done[i])
    decreases n
  {
    hide CallStep, Knocked;
    if n > 0 {
      KnockStep(p, reg);
      assert Crowd(n)[0] == Crowd(1)[0] && Crowd(n)[1..] == Crowd(n - 1);
      CrowdRuns(p, reg[p.env.digest("alice") := "alice"], n - 1);
    }
  }

  lemma {:induction false} CrowdArgs(p: Prover, calls: seq<EpochCall>)
    requires forall i :: 0 <= i < |calls| ==> |calls[i].ctx.args| == MAX_ARGS
    ensures ArgTotal(calls) == |calls| * MAX_ARGS
  {
    if calls != [] { CrowdArgs(p, calls[..|calls| - 1]); }
  }

  /** 127 such calls are proved under the default limit; one more, and they still run and still are one segment, whose
    * argument table is two elements too long. */
  lemma FullArgsOverflow(p: Prover, n: nat, r: Option<Bundle>)
    requires n <= 128 && Proved(p, Start(map[]), Crowd(n), K.MAX_ROWS, r)
    ensures Cut(p, Start(map[]), Crowd(n), K.MAX_ROWS, [K.Segment(0, n)])
    ensures r.Some? <==> n < 128
  {
    hide Span, Proved, Knocked, K.IsPacking, K.Alone, PartNamed, ValidCode, ArgTotal, Crowd;
    var s, calls, cuts := Start(map[]), Crowd(n), [K.Segment(0, n)];
    CrowdRuns(p, map[], n);
    var done := Span(p.env, s, calls).value.done;
    assert Fresh(s) == s;
    CrowdCosts(p, done);
    K.UniformPacks(CostsOf(p, done), p.ident("till", "knock"));
    ProvedWhen(p, s, calls, K.MAX_ROWS, cuts, r);
    TillValid();
    CrowdNamed(p, calls, done);
    assert AllValid(done);
    assert r.Some? <==> PartNamed(p, calls, done, cuts[0]);
    assert n * MAX_ARGS <= K.MAX_ROWS <==> n < 128;
  }

  lemma CrowdCosts(p: Prover, done: seq<Done>)
    requires forall i :: 0 <= i < |done| ==> Knocked(p, done[i])
    ensures forall i :: 0 <= i < |done| ==> CostsOf(p, done)[i] == K.Cost(1, p.ident("till", "knock"), 1)
    ensures forall i :: 0 <= i < |done| ==> done[i].call.code == Till().code
    ensures OneText(p, CallsOf(done))
  {
    hide CostOf, LogOf, Provable;
  }

  lemma CrowdNamed(p: Prover, calls: seq<Call>, done: seq<Done>)
    requires |done| == |calls| && forall i :: 0 <= i < |done| ==> Knocked(p, done[i])
    ensures PartNamed(p, calls, done, K.Segment(0, |calls|)) <==> |calls| * MAX_ARGS <= K.MAX_ROWS
  {
    hide CostOf, LogOf;
    assert calls[0..|calls|] == calls && done[0..|calls|] == done;
    CrowdArgs(p, CallsOf(done));
    var logs := LogsOf(CallsOf(done));
    forall k, i | 0 <= k < |logs| && 0 <= i < |logs[k]| ensures !Gives(logs[k][i]) {
      assert logs[k] == KnockLog(0);
    }
  }

  // ---- proved and rejected -------------------------------------------------------------------------

  function Peek(): Call {
    Call("till", "peek", Some("alice"), [], 0, 0, None, None)
  }

  /** The one call, as it is recorded. */
  ghost predicate Peeked(p: Prover, d: Done) {
    && d.call.code == Till().code && d.call.pub.cid == "till" && d.call.pub.name == "peek"
    && d.call.ctx.args == [] && LogOf(d.call) == ReadZeroLog()
    && CostOf(p, d.call) == K.Cost(2, p.ident("till", "peek"), 2)
  }

  lemma PeekStep(p: Prover)
    ensures var d := CallStep(p.env, Start(map[]), Peek());
            && d.Some? && d.value.call.code == Till().code && d.value.call.slots == map[]
            && d.value.call.pub.cid == "till" && d.value.call.pub.name == "peek"
            && d.value.call.ctx.args == [] && 0 !in d.value.call.ctx.abal
  {
    hide Run, Split, A.View, Knock, Tip, ReadZero, Settle, ApplyPayouts;
    var s, pub := Start(map[]), Publish(p.env, Peek());
    var reg: Registry := map[p.env.digest("alice") := "alice"];
    assert Digest(p.env.digest, map[], "alice", []) == Some(Statement(reg, []));
    var ctx := Context(p.env, pub, [], A.View(s.assets, "till"));
    PeekSettles();
    ReadZeroRuns(ctx);
    ReadZeroSplits(reg);
  }

  lemma PeekRecorded(p: Prover, d: Done)
    requires d.call.code == Till().code && d.call.slots == map[] && d.call.ctx.args == [] && 0 !in d.call.ctx.abal
    requires d.call.pub.cid == "till" && d.call.pub.name == "peek"
    ensures Peeked(p, d)
  {
    hide Run, K.RunRows, Knock, Tip;
    ReadZeroRuns(d.call.ctx);
  }

  lemma PeekSettles()
    ensures Settle(A.Assets(map[], map[]), "till", [Bal(0, 0)]).Some?
    ensures ApplyPayouts(map["bob" := 1], "till", []).Some?
    ensures 0 !in A.View(A.Assets(map[], map[]), "till")
  {
    A.StageOne(A.Assets(map[], map[]), "till", A.NOTHING, Bal(0, 0), []);
  }

  lemma PeekRun(p: Prover)
    ensures var ran := Span(p.env, Start(map[]), [Peek()]);
            && ran.Some? && |ran.value.done| == 1 && Peeked(p, ran.value.done[0])
            && !R.NoZeroAsset(FullLog(ran.value.done))
  {
    hide CallStep, Peeked, Till;
    PeekStep(p);
    var d := CallStep(p.env, Start(map[]), Peek()).value;
    PeekRecorded(p, d);
    assert [Peek()][1..] == [] && [d] + [] == [d];
    PeekLog(p, d);
  }

  lemma PeekLog(p: Prover, d: Done)
    requires Peeked(p, d)
    ensures !R.NoZeroAsset(FullLog([d]))
  {
    hide LogOf, CostOf;
    FullLogFirst(d, []);
    assert [d] + [] == [d];
    var log := FullLog([d]);
    assert log[0] == ReadZeroLog()[0];
    assert R.ZeroAsset(log[0]);
  }

  /** prove_settlement returns a bundle for it, and verify_settlement rejects that bundle. */
  lemma ProvedAndRejected(p: Prover, v: Verifier, r: Option<Bundle>)
    requires Complete(p) && Matching(p, v)
    requires Proved(p, Start(map[]), [Peek()], K.MAX_ROWS, r)
    ensures r.Some? && !Accepted(v, r.value)
  {
    hide Span, Proved, K.IsPacking, K.Alone, PartNamed, ValidCode, Complete, Accepted, R.NoZeroAsset, FullLog, RootOf;
    var s, calls, cuts := Start(map[]), [Peek()], [K.Segment(0, 1)];
    PeekRun(p);
    var done := Span(p.env, s, calls).value.done;
    assert Fresh(s) == s;
    OneCost(CostsOf(p, done), p.ident("till", "peek"));
    ProvedWhen(p, s, calls, K.MAX_ROWS, cuts, r);
    TillValid();
    PeekNamed(p, done);
    assert AllValid(done);
    SettlementAgrees(p, v, s, calls, K.MAX_ROWS, r.value);
  }

  lemma OneCost(costs: seq<K.Cost>, x: nat)
    requires costs == [K.Cost(2, x, 2)]
    ensures K.IsPacking(costs, K.MAX_ROWS, [K.Segment(0, 1)]) && K.Alone(costs[0], K.MAX_ROWS)
  {
  }

  lemma PeekNamed(p: Prover, done: seq<Done>)
    requires |done| == 1 && Peeked(p, done[0])
    ensures PartNamed(p, [Peek()], done, K.Segment(0, 1))
  {
    hide LogOf, CostOf;
    assert [Peek()][0..1] == [Peek()] && done[0..1] == done;
    var calls := CallsOf(done);
    assert LogsOf(calls) == [ReadZeroLog()];
    assert calls[..0] == [] && ArgTotal(calls) == 0;
  }
}
