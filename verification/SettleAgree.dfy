/** Prover and verifier of a settlement agree: what prove_settlement returns, verify_settlement accepts, and its post
  * root is the root of the whole span run in order with one registry and no segments. */
module SettleAgree {
  import opened Options
  import opened Field
  import opened ZkVM
  import opened SettleLog
  import opened SettleCall
  import opened SettleSpan
  import opened SettleRoot
  import opened SettleEpoch
  import A = SettleAssets
  import G = ZkGuards
  import R = ZkReplay
  import K = SettlePacking
  import M = SortedMerkle

  // ---- what a call keeps ---------------------------------------------------------------------------

  /** A recorded call, against the contracts it ran on. */
  ghost predicate RanOn(contracts: Contracts, d: Done) {
    var cid := d.call.pub.cid;
    && cid in contracts && contracts[cid].zk
    && d.call.code == contracts[cid].code && d.call.slots == contracts[cid].slots
    && d.out.Success? && d.out == Execute(d.call.code, d.call.pub.name, d.call.ctx, d.call.slots)
    && d.post.contracts == contracts[cid := contracts[cid].(slots := d.out.st)]
  }

  lemma CallRanOn(env: Env, s: State, call: Call)
    requires CallStep(env, s, call).Some?
    ensures RanOn(s.contracts, CallStep(env, s, call).value)
  {
    hide Digest, Escrow, A.View, Run, Split, ApplyPayouts, Settle;
  }

  /** Runs change storage and nothing else of a contract. */
  ghost predicate SameCode(x: Contracts, y: Contracts) {
    x.Keys == y.Keys && forall cid :: cid in x ==> x[cid].code == y[cid].code && x[cid].zk == y[cid].zk
  }

  lemma {:induction false} SpanCode(env: Env, s: State, calls: seq<Call>, i: nat)
    requires Span(env, s, calls).Some? && i < |Span(env, s, calls).value.done|
    ensures var d := Span(env, s, calls).value.done[i];
            var cid := d.call.pub.cid;
            cid in s.contracts && s.contracts[cid].zk && s.contracts[cid].code == d.call.code
    decreases |calls|
  {
    hide CallStep;
    CallRanOn(env, s, calls[0]);
    var d := CallStep(env, s, calls[0]).value;
    assert SameCode(s.contracts, d.post.contracts);
    if i > 0 { SpanCode(env, d.post, calls[1..], i - 1); }
  }

  // ---- one epoch -----------------------------------------------------------------------------------

  function FullLog(done: seq<Done>): seq<Entry> {
    Concat(LogsOf(CallsOf(done)))
  }

  lemma CleanConcat(x: seq<Entry>, y: seq<Entry>)
    ensures R.NoZeroAsset(x + y) <==> R.NoZeroAsset(x) && R.NoZeroAsset(y)
  {
    if R.NoZeroAsset(x + y) {
      forall i | 0 <= i < |x| ensures !R.ZeroAsset(x[i]) { assert (x + y)[i] == x[i]; }
      forall i | 0 <= i < |y| ensures !R.ZeroAsset(y[i]) { assert (x + y)[|x| + i] == y[i]; }
    }
  }

  lemma FullLogFirst(d: Done, rest: seq<Done>)
    ensures LogsOf(CallsOf([d] + rest)) == [LogOf(d.call)] + LogsOf(CallsOf(rest))
    ensures FullLog([d] + rest) == LogOf(d.call) + FullLog(rest)
    ensures PubsOf([d] + rest) == [d.call.pub] + PubsOf(rest)
  {
    var logs := LogsOf(CallsOf([d] + rest));
    assert logs[1..] == LogsOf(CallsOf(rest));
  }

  /** Replaying one recorded call on the bundle's copy of the contracts. */
  lemma ReplayRecorded(contracts: Contracts, d: Done)
    requires RanOn(contracts, d) && Provable(d.call)
    ensures d.call.pub.cid in ZkOnly(contracts)
    ensures var r := ReplayOne(ZkOnly(contracts), d.call.pub.cid, LogOf(d.call));
            if R.NoZeroAsset(LogOf(d.call)) then r == Some(ZkOnly(d.post.contracts)) else r.None?
  {
    hide Run, R.ReplayIo, R.NoZeroAsset, G.ValidMethod;
    var prog := d.call.code[d.call.pub.name];
    ValidIsGuarded(prog);
    R.ReplayIsExecution(d.call.ctx, prog, d.call.slots);
    var cid := d.call.pub.cid;
    assert ZkOnly(d.post.contracts) == ZkOnly(contracts)[cid := contracts[cid].(slots := d.out.st)];
  }

  lemma ValidIsGuarded(prog: seq<Ins>)
    requires G.ValidMethod(prog)
    ensures G.Guarded(prog)
  {
  }

  /** Replaying a span's logs in order is running the span, as far as no log mentions asset 0. */
  lemma {:induction false} ReplaySpan(env: Env, s: State, calls: seq<Call>)
    requires Span(env, s, calls).Some?
    requires forall i :: 0 <= i < |Span(env, s, calls).value.done| ==> Provable(Span(env, s, calls).value.done[i].call)
    ensures var ran := Span(env, s, calls).value;
            var r := ReplayAll(ZkOnly(s.contracts), PubsOf(ran.done), LogsOf(CallsOf(ran.done)));
            if R.NoZeroAsset(FullLog(ran.done)) then r == Some(ZkOnly(ran.post.contracts)) else r.None?
    decreases |calls|
  {
    hide CallStep, Provable, ReplayOne, R.NoZeroAsset, RanOn, ZkOnly, LogOf, FullLog;
    if calls == [] {
      NothingClean();
    } else {
      var d := CallStep(env, s, calls[0]).value;
      var rest := Span(env, d.post, calls[1..]).value;
      CallRanOn(env, s, calls[0]);
      assert ([d] + rest.done)[0] == d;
      forall i | 0 <= i < |rest.done| ensures Provable(rest.done[i].call) {
        assert ([d] + rest.done)[i + 1] == rest.done[i];
      }
      ReplayRecorded(s.contracts, d);
      ReplaySpan(env, d.post, calls[1..]);
      FullLogFirst(d, rest.done);
      CleanConcat(LogOf(d.call), FullLog(rest.done));
      ReplayFirst(ZkOnly(s.contracts), d.call.pub, PubsOf(rest.done), LogOf(d.call), LogsOf(CallsOf(rest.done)));
    }
  }

  lemma NothingClean()
    ensures R.NoZeroAsset(FullLog([]))
  {
  }

  lemma ReplayFirst(contracts: Contracts, pub: PublicCall, pubs: seq<PublicCall>, log: seq<Entry>,
                    logs: seq<seq<Entry>>)
    requires pub.cid in contracts
    ensures ReplayAll(contracts, [pub] + pubs, [log] + logs) ==
            match ReplayOne(contracts, pub.cid, log) case None => None case Some(next) => ReplayAll(next, pubs, logs)
  {
    assert ([pub] + pubs)[1..] == pubs && ([log] + logs)[1..] == logs;
  }

  lemma KvsOfZk(contracts: Contracts)
    ensures Kvs(ZkOnly(contracts)) == Kvs(contracts)
  {
    forall kv ensures Holds(ZkOnly(contracts), kv) <==> Holds(contracts, kv) {}
  }

  lemma LogsAreCallLogs(calls: seq<EpochCall>)
    requires forall i :: 0 <= i < |calls| ==> Provable(calls[i])
    ensures CallLogs(LogsOf(calls))
  {
    hide RunFrom;
    forall i | 0 <= i < |calls| ensures R.EndsInRet(LogOf(calls[i])) {
      var c := calls[i];
      R.OneRet(c.ctx, c.code[c.pub.name], 0, Entry0(c.ctx, c.slots), GAS_LIMIT);
    }
  }

  function CallStmts(digest: Addr -> Elem, calls: seq<EpochCall>): seq<Stmt> {
    seq(|calls|, i requires 0 <= i < |calls| => StmtOf(digest, calls[i].code, calls[i].pub))
  }

  /** Completeness of the opaque STARK: a proof made for a batch that builds is a proof of its statement and log. */
  ghost predicate Complete(p: Prover) {
    forall calls: seq<EpochCall> :: TraceBuilds(p, calls) ==>
      p.stark.check(p.stark.prove(calls), CallStmts(p.env.digest, calls), Concat(LogsOf(calls)))
  }

  /** The verifier looks at the same roots, digests, hash constants and proof system as the prover. */
  ghost predicate Matching(p: Prover, v: Verifier) {
    v.sch == p.sch && v.digest == p.env.digest && v.sponge == p.env.sponge && v.check == p.stark.check
  }

  lemma EpochStatement(p: Prover, s: State, calls: seq<Call>)
    requires EpochOf(p, s, calls).Some?
    ensures var e, ran := EpochOf(p, s, calls).value, Span(p.env, Fresh(s), calls).value;
            && Known(e.pre, e.calls)
            && Stmts(p.env.digest, e.pre, e.calls) == CallStmts(p.env.digest, CallsOf(ran.done))
  {
    hide Span, TraceBuilds, RootOf;
    var e, ran := EpochOf(p, s, calls).value, Span(p.env, Fresh(s), calls).value;
    forall i | 0 <= i < |ran.done|
      ensures var d := ran.done[i];
              d.call.pub.cid in e.pre && e.pre[d.call.pub.cid].zk && e.pre[d.call.pub.cid].code == d.call.code
    {
      SpanCode(p.env, Fresh(s), calls, i);
    }
  }

  /** One epoch: accepted exactly when its log mentions no asset 0. */
  lemma {:induction false} EpochAgrees(p: Prover, v: Verifier, s: State, calls: seq<Call>)
    requires EpochOf(p, s, calls).Some? && Complete(p) && Matching(p, v)
    ensures EpochAccepted(v, EpochOf(p, s, calls).value) <==> R.NoZeroAsset(EpochOf(p, s, calls).value.io)
  {
    hide Span, K.TraceFits, RootOf, ReplayAll, R.NoZeroAsset, ZkOnly, Kvs, LogOf, Provable;
    var e, ran := EpochOf(p, s, calls).value, Span(p.env, Fresh(s), calls).value;
    var logs := LogsOf(CallsOf(ran.done));
    SameRoot(p.sch, s.contracts);
    SameRoot(p.sch, ran.post.contracts);
    EpochStatement(p, s, calls);
    assert TraceBuilds(p, CallsOf(ran.done));
    forall i | 0 <= i < |ran.done| ensures Provable(ran.done[i].call) {
      assert CallsOf(ran.done)[i] == ran.done[i].call;
    }
    LogsAreCallLogs(CallsOf(ran.done));
    ReplaySpan(p.env, Fresh(s), calls);
    forall segs, tail, post | Replays(e, segs, tail, post) ensures segs == logs {
      assert e.io == Concat(logs) + [];
      CutIsUnique(segs, tail, logs, []);
    }
    if R.NoZeroAsset(e.io) {
      assert e.io == Concat(logs) + [];
      assert Replays(e, logs, [], ZkOnly(ran.post.contracts));
    }
  }

  lemma SameRoot(sch: Scheme, contracts: Contracts)
    ensures RootOf(sch, ZkOnly(contracts)) == RootOf(sch, contracts)
  {
    KvsOfZk(contracts);
  }

  // ---- the chain of segments -----------------------------------------------------------------------

  function IoOf(epochs: seq<Epoch>): seq<Entry> {
    if epochs == [] then [] else epochs[0].io + IoOf(epochs[1..])
  }

  /** The cuts tile [from, n). */
  ghost predicate Cover(cuts: seq<K.Segment>, from: nat, n: nat) {
    && cuts != [] && cuts[0].lo == from && cuts[|cuts| - 1].hi == n
    && Within(cuts, n)
    && forall k :: 0 < k < |cuts| ==> K.Follows(cuts, k)
  }

  lemma CoverRest(cuts: seq<K.Segment>, from: nat, n: nat)
    requires Cover(cuts, from, n) && |cuts| > 1
    ensures Cover(cuts[1..], cuts[0].hi, n)
  {
    var rest := cuts[1..];
    assert K.Follows(cuts, 1);
    forall k | 0 < k < |rest| ensures K.Follows(rest, k) { assert K.Follows(cuts, k + 1); }
  }

  /** The same ledgers whatever the registry. */
  ghost predicate SameLedgers(x: State, y: State) {
    x.contracts == y.contracts && x.bridge == y.bridge && x.assets == y.assets
  }

  ghost predicate Chain(sch: Scheme, epochs: seq<Epoch>, x: Contracts, y: Contracts) {
    Chained(epochs, RootOf(sch, x), RootOf(sch, y))
  }

  /** From `s`, the segments chain up to the state of the unsegmented run, and their logs, joined, are its log. */
  ghost predicate SegmentsRun(p: Prover, s: State, g: Segmented, calls: seq<Call>) {
    var whole := Span(p.env, Fresh(s), calls);
    && whole.Some?
    && SameLedgers(g.post, whole.value.post)
    && Chain(p.sch, g.epochs, s.contracts, whole.value.post.contracts)
    && IoOf(g.epochs) == FullLog(whole.value.done)
  }

  lemma {:induction false} SegmentsAreSpan(p: Prover, s: State, calls: seq<Call>, cuts: seq<K.Segment>, from: nat)
    requires from <= |calls| && Cover(cuts, from, |calls|)
    requires Segments(p, s, calls, cuts).Some?
    ensures SegmentsRun(p, s, Segments(p, s, calls, cuts).value, calls[from..])
    decreases |cuts|
  {
    hide Span, EpochOf, Segments, RootOf, FullLog;
    SegmentsStep(p, s, calls, cuts);
    var mid := cuts[0].hi;
    var part := calls[from..mid];
    EpochRoots(p, s, part);
    var epoch, ran := EpochOf(p, s, part).value, Span(p.env, Fresh(s), part).value;
    var g := Segments(p, ran.post, calls, cuts[1..]).value;
    if |cuts| == 1 {
      NoSegments(p, ran.post, calls);
      assert calls[from..] == part && [epoch] + [] == [epoch] && cuts[1..] == [];
      OneEpoch(epoch);
    } else {
      CoverRest(cuts, from, |calls|);
      SegmentsAreSpan(p, ran.post, calls, cuts[1..], mid);
      assert calls[from..] == part + calls[mid..];
      JoinSpans(p, s, part, calls[mid..]);
      assert ([epoch] + g.epochs)[1..] == g.epochs;
      ChainMore(p.sch, epoch, g.epochs);
    }
  }

  lemma EpochRoots(p: Prover, s: State, calls: seq<Call>)
    requires EpochOf(p, s, calls).Some?
    ensures Span(p.env, Fresh(s), calls).Some?
    ensures var e, ran := EpochOf(p, s, calls).value, Span(p.env, Fresh(s), calls).value;
            && e.preRoot == RootOf(p.sch, s.contracts) && e.postRoot == RootOf(p.sch, ran.post.contracts)
            && e.io == FullLog(ran.done)
  {
    hide Span, RootOf, TraceBuilds;
  }

  lemma OneEpoch(e: Epoch)
    ensures IoOf([e]) == e.io && Chained([e], e.preRoot, e.postRoot)
  {
    assert [e][1..] == [] && e.io + [] == e.io;
  }

  lemma ChainMore(sch: Scheme, e: Epoch, rest: seq<Epoch>)
    ensures rest != [] && rest[0].preRoot == e.postRoot && Chained(rest, e.postRoot, rest[|rest| - 1].postRoot) ==>
              Chained([e] + rest, e.preRoot, rest[|rest| - 1].postRoot)
  {
    var all := [e] + rest;
    if rest != [] && rest[0].preRoot == e.postRoot && Chained(rest, e.postRoot, rest[|rest| - 1].postRoot) {
      forall j | 0 <= j < |all| - 1 ensures all[j + 1].preRoot == all[j].postRoot {
        if j > 0 { assert rest[j].preRoot == rest[j - 1].postRoot; }
      }
    }
  }

  /** A segment run from a registry of its own, put back behind the calls before it. */
  lemma JoinSpans(p: Prover, s: State, x: seq<Call>, y: seq<Call>)
    requires Span(p.env, Fresh(s), x).Some?
    requires Span(p.env, Fresh(Span(p.env, Fresh(s), x).value.post), y).Some?
    ensures var a := Span(p.env, Fresh(s), x).value;
            var b := Span(p.env, Fresh(a.post), y).value;
            var whole := Span(p.env, Fresh(s), x + y);
            && whole.Some?
            && SameLedgers(b.post, whole.value.post)
            && FullLog(whole.value.done) == FullLog(a.done) + FullLog(b.done)
  {
    hide Span, LogOf;
    var a := Span(p.env, Fresh(s), x).value;
    var b := Span(p.env, Fresh(a.post), y).value;
    SpanConcat(p.env, Fresh(s), x, y);
    SpanExtends(p.env, Fresh(a.post), a.post.reg, y);
    assert Fresh(a.post).(reg := a.post.reg) == a.post;
    var c := Span(p.env, a.post, y).value;
    assert CallsOf(c.done) == CallsOf(b.done) by {
      forall i | 0 <= i < |b.done| ensures c.done[i].call == b.done[i].call {
        assert SameDone(b.done[i], c.done[i]);
      }
    }
    FullLogConcat(a.done, c.done);
  }

  lemma {:induction false} FullLogConcat(x: seq<Done>, y: seq<Done>)
    ensures FullLog(x + y) == FullLog(x) + FullLog(y)
  {
    hide LogOf;
    if x == [] {
      assert x + y == y && LogsOf(CallsOf(x)) == [];
    } else {
      FullLogConcat(x[1..], y);
      FullLogFirst(x[0], x[1..] + y);
      FullLogFirst(x[0], x[1..]);
      assert x + y == [x[0]] + (x[1..] + y) && x == [x[0]] + x[1..];
    }
  }

  lemma {:induction false} CleanEpochs(epochs: seq<Epoch>)
    ensures R.NoZeroAsset(IoOf(epochs)) <==> forall j :: 0 <= j < |epochs| ==> R.NoZeroAsset(epochs[j].io)
  {
    hide R.NoZeroAsset;
    if epochs == [] {
      NothingClean();
      assert IoOf([]) == FullLog([]);
    } else {
      CleanConcat(epochs[0].io, IoOf(epochs[1..]));
      CleanEpochs(epochs[1..]);
      assert forall j :: 0 < j < |epochs| ==> epochs[j] == epochs[1..][j - 1];
    }
  }

  /** Every segment is the epoch of some stretch of the span. */
  lemma {:induction false} SegmentsAreEpochs(p: Prover, v: Verifier, s: State, calls: seq<Call>, cuts: seq<K.Segment>,
                                             j: nat)
    requires Within(cuts, |calls|) && Segments(p, s, calls, cuts).Some?
    requires Complete(p) && Matching(p, v)
    requires j < |Segments(p, s, calls, cuts).value.epochs|
    ensures var e := Segments(p, s, calls, cuts).value.epochs[j];
            EpochAccepted(v, e) <==> R.NoZeroAsset(e.io)
    decreases |cuts|
  {
    hide Span, EpochOf, Segments, EpochAccepted, R.NoZeroAsset, Complete;
    if cuts == [] {
      NoSegments(p, s, calls);
    } else {
      SegmentsStep(p, s, calls, cuts);
      var part := calls[cuts[0].lo..cuts[0].hi];
      if j == 0 {
        EpochAgrees(p, v, s, part);
      } else {
        SegmentsAreEpochs(p, v, Span(p.env, Fresh(s), part).value.post, calls, cuts[1..], j - 1);
      }
    }
  }

  /** Settlement agreement. Whatever prove_settlement returns binds the span's own start to the state of running all
    * its calls in order under one registry; its segments' logs, joined, are that run's log; and verify_settlement
    * accepts it exactly when that log reads, burns or renounces no asset 0. */
  lemma {:induction false} SettlementAgrees(p: Prover, v: Verifier, s: State, calls: seq<Call>, max: nat, b: Bundle)
    requires Proved(p, s, calls, max, Some(b)) && Complete(p) && Matching(p, v)
    ensures Span(p.env, Fresh(s), calls).Some?
    ensures var ran := Span(p.env, Fresh(s), calls).value;
            && b.preRoot == RootOf(p.sch, s.contracts)
            && b.postRoot == RootOf(p.sch, ran.post.contracts)
            && IoOf(b.segments) == FullLog(ran.done)
            && (Accepted(v, b) <==> R.NoZeroAsset(FullLog(ran.done)))
  {
    hide Span, EpochOf, Segments, EpochAccepted, RootOf, R.NoZeroAsset, Complete, FullLog, K.Greedy;
    var costs := CostsOf(p, Span(p.env, Fresh(s), calls).value.done);
    var cuts :| Packs(costs, calls, max, cuts) && Some(b) == BundleOf(p, s, calls, cuts);
    assert Cover(cuts, 0, |calls|);
    SegmentsAreSpan(p, s, calls, cuts, 0);
    assert calls[0..] == calls;
    CleanEpochs(b.segments);
    forall j | 0 <= j < |b.segments| ensures EpochAccepted(v, b.segments[j]) <==> R.NoZeroAsset(b.segments[j].io) {
      SegmentsAreEpochs(p, v, s, calls, cuts, j);
    }
  }

  // ---- the condition is needed ---------------------------------------------------------------------

  function ReadZero(): seq<Ins> {
    [Ins(ABAL, 1, 0, 0), Ins(RET, 0, 1, 0)]
  }

  function ReadZeroLog(): seq<Entry> {
    [Entry(IO_ABAL, 0, 0), Entry(IO_RET, 0, 0)]
  }

  lemma ReadZeroValid()
    ensures G.ValidMethod(ReadZero())
  {
    var prog := ReadZero();
    assert prog[0].op == ABAL && prog[1].op == RET;
  }

  lemma ReadZeroRuns(ctx: Ctx)
    requires |ctx.args| <= MAX_ARGS && 0 !in ctx.abal && ctx.ArgOrZero(0) == 0
    ensures Run(ctx, ReadZero(), map[]) == Success(0, map[], ReadZeroLog())
    ensures K.RunRows(ctx, ReadZero(), map[]) == 2
  {
    var c0 := Entry0(ctx, map[]);
    var c1 := c0.Log(IO_ABAL, 0, 0).Set(1, 0);
    var c2 := c1.Log(IO_RET, 0, 0);
    ReadZeroFirst(ctx, c0);
    assert c1.regs[1] == 0;
    assert Exec(ctx, Ins(RET, 0, 1, 0), c1) == Some(c2);
    assert StepAt(ctx, ReadZero(), 1, c1) == Halt(0, c2);
    RunTwo(ctx, ReadZero(), c0, c1, c2);
    assert c2.io == ReadZeroLog();
  }

  lemma ReadZeroFirst(ctx: Ctx, c0: Core)
    requires 0 !in ctx.abal && c0.apend == map[] && c0.regs[0] == 0
    ensures StepAt(ctx, ReadZero(), 0, c0) == Go(1, c0.Log(IO_ABAL, 0, 0).Set(1, 0))
  {
    assert Holding(ctx, c0.apend, 0) == 0;
    assert Exec(ctx, Ins(ABAL, 1, 0, 0), c0) == Some(c0.Log(IO_ABAL, 0, 0).Set(1, 0));
  }

  lemma RunTwo(ctx: Ctx, prog: seq<Ins>, c0: Core, c1: Core, c2: Core)
    requires StepAt(ctx, prog, 0, c0) == Go(1, c1) && StepAt(ctx, prog, 1, c1) == Halt(0, c2)
    ensures RunFrom(ctx, prog, 0, c0, GAS_LIMIT) == Success(0, c2.st, c2.io)
    ensures K.Steps(ctx, prog, 0, c0, GAS_LIMIT) == 2
  {
    hide StepAt;
    assert RunFrom(ctx, prog, 1, c1, GAS_LIMIT - 1) == Success(0, c2.st, c2.io);
    assert K.Steps(ctx, prog, 1, c1, GAS_LIMIT - 1) == 1;
  }

  lemma ReadZeroSplits(reg: Registry)
    ensures Split(reg, ReadZeroLog()) == Some(Parsed([], [Bal(0, 0)]))
  {
    hide Grammar, Meaning;
    var log := ReadZeroLog();
    assert log[1..] == [log[1]] && log[1..][1..] == [];
    Unfold(reg, log);
    Unfold(reg, [log[1]]);
    EmptyLog(reg);
    var read, ret := Plain(reg, log[0]), Plain(reg, log[1]);
    assert read == Parsed([], [Bal(0, 0)]) && ret == Parsed([], []);
    JoinEmpty(ret);
    JoinEmpty(read);
    assert [log[1]][1..] == [];
  }

  /** Agreement can fail: a valid method that reads its holding of asset 0 runs, its log splits, its effects settle --
    * and the replay refuses the log. */
  lemma ZeroAssetReadIsRefused(ctx: Ctx, l: A.Assets, cid: Addr)
    requires |ctx.args| <= MAX_ARGS && 0 !in ctx.abal && (0, cid) !in l.rows && ctx.ArgOrZero(0) == 0
    ensures G.ValidMethod(ReadZero())
    ensures Run(ctx, ReadZero(), map[]) == Success(0, map[], ReadZeroLog())
    ensures Split(map[], ReadZeroLog()) == Some(Parsed([], [Bal(0, 0)])) && Settle(l, cid, [Bal(0, 0)]).Some?
    ensures R.ReplayIo(true, ReadZeroLog(), map[]).None?
  {
    ReadZeroValid();
    ReadZeroRuns(ctx);
    ReadZeroSplits(map[]);
    A.StageOne(l, cid, A.NOTHING, Bal(0, 0), []);
    assert R.ZeroAsset(ReadZeroLog()[0]);
    if R.ReplayIo(true, ReadZeroLog(), map[]).Some? { R.FoldZero(ReadZeroLog(), map[]); }
  }
}
