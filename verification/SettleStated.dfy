/**
 What a recorded call saw. The prover fills in a call's context; here it is measured against the call as it was made and
 against what the verifier's public statement says, for every call of every segment.
 */
module SettleStated {
  import opened Options
  import opened Field
  import opened Sums
  import opened ZkVM
  import opened SettleLog
  import opened SettleCall
  import opened SettleSpan
  import opened SettleRoot
  import opened SettleEpoch
  import opened SettleAgree
  import opened SettleSound
  import A = SettleAssets
  import K = SettlePacking

  // ---- the call as it was made ---------------------------------------------------------------------

  /** The machine's word for a call argument. */
  predicate ArgIs(env: Env, arg: Arg, x: Elem) {
    match arg
    case Num(n) => x == n
    case Text(s) => x == env.digest(s)
    case Junk => false
  }

  /** Everything a method can ask about its call: who called, what came with it, when, on whom, and with what. */
  ghost predicate Sees(env: Env, call: Call, ctx: Ctx) {
    && ctx.CtxValue(0) == env.digest(if call.caller.Some? then call.caller.value else "epoch")
    && ctx.CtxValue(1) == call.value % P
    && ctx.CtxValue(2) == (if call.cursor.Some? then call.cursor.value else env.cursor) % P
    && ctx.CtxValue(3) == (if call.timestamp.Some? then call.timestamp.value else env.timestamp) % P
    && ctx.ActxValue(0) == call.asset % P && ctx.ActxValue(1) == env.digest(call.cid)
    && ctx.ActxValue(2) == 0 && ctx.ActxValue(3) == 0
    && |ctx.args| == |call.args|
    && (forall i :: 0 <= i < |call.args| ==> ArgIs(env, call.args[i], ctx.args[i]))
    && (forall i: nat :: ctx.ArgOrZero(i) == if i < |ctx.args| then ctx.args[i] else 0)
    && ctx.beacons == env.beacons && ctx.blockHashes == env.blockHashes && ctx.sponge == env.sponge
  }

  /** The method starts on the contract's storage, its first eight registers the first eight arguments or 0. */
  ghost predicate Begins(env: Env, s: State, call: Call, c: Core) {
    && call.cid in s.contracts && c.st == s.contracts[call.cid].slots
    && (forall i: Reg :: if i < |call.args| then ArgIs(env, call.args[i], c.regs[i]) else c.regs[i] == 0)
    && c.h0 == 0 && c.h1 == 0 && c.io == [] && c.asel == 0 && c.apend == map[]
  }

  lemma {:induction false} ArgsAre(env: Env, reg: Registry, args: seq<Arg>)
    requires DigestArgs(env.digest, reg, args).Some?
    ensures var xs := DigestArgs(env.digest, reg, args).value.args;
            |xs| == |args| && forall i :: 0 <= i < |args| ==> ArgIs(env, args[i], xs[i])
    decreases |args|
  {
    if args != [] {
      match args[0]
      case Num(_) => ArgsAre(env, reg, args[1..]);
      case Text(s) => ArgsAre(env, reg[env.digest(s) := s], args[1..]);
    }
  }

  /** What the contract holds of an asset once the call value is in escrow. */
  function Escrowed(s: State, call: Call, asset: Elem): int {
    var caller := if call.caller.Some? then call.caller.value else "epoch";
    Get(s.assets.rows, (asset, call.cid))
    + if call.value > 0 && asset != 0 && call.asset == asset && caller != call.cid then call.value else 0
  }

  lemma CallSees(env: Env, s: State, call: Call)
    requires CallStep(env, s, call).Some?
    ensures var c := CallStep(env, s, call).value.call;
            Sees(env, call, c.ctx) && Begins(env, s, call, Entry0(c.ctx, c.slots))
  {
    hide DigestArgs, Escrow, A.View, Run, Split, ApplyPayouts, Settle;
    var caller := Or(call.caller, NO_CALLER);
    ArgsAre(env, s.reg[env.digest(caller) := caller], call.args);
  }

  lemma EscrowHeld(b: Bridge, l: A.Assets, pub: PublicCall, asset: Elem)
    requires Escrow(b, l, pub).Some?
    ensures Get(Escrow(b, l, pub).value.assets.rows, (asset, pub.cid)) ==
            Get(l.rows, (asset, pub.cid))
            + if pub.value > 0 && asset != 0 && pub.asset == asset && pub.caller != pub.cid then pub.value else 0
  {
    hide Transfer;
  }

  /** The balances a call reads are the contract's own, escrow included. */
  lemma CallHolds(env: Env, s: State, call: Call, asset: Elem)
    requires CallStep(env, s, call).Some? && A.Sound(s.assets)
    ensures var abal := CallStep(env, s, call).value.call.ctx.abal;
            (if asset in abal then abal[asset] else 0) == Escrowed(s, call, asset)
  {
    hide Digest, Escrow, A.View, A.Sound, Run, Split, ApplyPayouts, Settle;
    var pub := Publish(env, call);
    var l := Escrow(s.bridge, s.assets, pub).value.assets;
    EscrowHeld(s.bridge, s.assets, pub, asset);
    EscrowPositive(s.bridge, s.assets, pub);
    A.ViewIsBalance(l, pub.cid, asset);
  }

  lemma EscrowPositive(b: Bridge, l: A.Assets, pub: PublicCall)
    requires A.Sound(l) && Escrow(b, l, pub).Some?
    ensures Positive(Escrow(b, l, pub).value.assets.rows)
  {
    hide A.Held, Transfer, A.Escrow;
    if pub.value > 0 && pub.asset != 0 { A.EscrowSound(l, pub.asset, pub.caller, pub.cid, pub.value); }
  }

  // ---- the verifier's statement --------------------------------------------------------------------

  /** The verifier digests addresses and hashes as the span does. */
  ghost predicate SameTools(env: Env, v: Verifier) {
    v.digest == env.digest && v.sponge == env.sponge
  }

  /** The context of a recorded call is what the public statement of that call says. */
  lemma CallStated(env: Env, v: Verifier, s: State, call: Call)
    requires CallStep(env, s, call).Some? && SameTools(env, v)
    ensures var d := CallStep(env, s, call).value;
            Stated(v, StmtOf(v.digest, d.call.code, d.call.pub), d.call.ctx)
  {
    hide DigestArgs, Escrow, A.View, RunFrom, Split, ApplyPayouts, Settle;
    var pub := Publish(env, call);
    var me := env.digest(pub.caller);
    var none: Registry := map[];
    DigestExtends(env.digest, none[me := pub.caller], s.reg[me := pub.caller], pub.args);
  }

  lemma {:induction false} SpanStated(env: Env, v: Verifier, s: State, calls: seq<Call>, i: nat)
    requires Span(env, s, calls).Some? && SameTools(env, v) && i < |Span(env, s, calls).value.done|
    ensures var c := Span(env, s, calls).value.done[i].call;
            Stated(v, StmtOf(v.digest, c.code, c.pub), c.ctx)
    ensures i < |calls| && Sees(env, calls[i], Span(env, s, calls).value.done[i].call.ctx)
    decreases |calls|
  {
    hide CallStep, Stated, Sees;
    CallStated(env, v, s, calls[0]);
    CallSees(env, s, calls[0]);
    if i > 0 { SpanStated(env, v, CallStep(env, s, calls[0]).value.post, calls[1..], i - 1); }
  }

  /** In every call of a span the balances read are the contract's own where the span has got to, escrow included. */
  lemma SpanHolds(env: Env, s: State, calls: seq<Call>, i: nat, asset: Elem)
    requires Span(env, s, calls).Some? && Positive(s.bridge) && A.Sound(s.assets)
    requires i < |calls| && i < |Span(env, s, calls).value.done|
    ensures Span(env, s, calls[..i]).Some?
    ensures var abal := Span(env, s, calls).value.done[i].call.ctx.abal;
            (if asset in abal then abal[asset] else 0)
            == Escrowed(Span(env, s, calls[..i]).value.post, calls[i], asset)
  {
    hide CallStep, A.Sound, Positive, Escrowed;
    assert calls == calls[..i] + calls[i..] && calls[i..][0] == calls[i];
    SpanConcat(env, s, calls[..i], calls[i..]);
    SpanLength(env, s, calls[..i]);
    SpanKeeps(env, s, calls[..i]);
    CallHolds(env, Span(env, s, calls[..i]).value.post, calls[i], asset);
  }

  function CtxsOf(done: seq<Done>): seq<Ctx> {
    seq(|done|, i requires 0 <= i < |done| => done[i].call.ctx)
  }

  lemma {:induction false} SpanExecutes(env: Env, s: State, calls: seq<Call>)
    requires Span(env, s, calls).Some?
    ensures var ran := Span(env, s, calls).value;
            |CtxsOf(ran.done)| == |PubsOf(ran.done)| &&
            Execution(ZkOnly(s.contracts), PubsOf(ran.done), CtxsOf(ran.done)) == Some(ZkOnly(ran.post.contracts))
    decreases |calls|
  {
    hide CallStep, Run, LogOf;
    if calls != [] {
      CallRanOn(env, s, calls[0]);
      var d := CallStep(env, s, calls[0]).value;
      var rest := Span(env, d.post, calls[1..]).value;
      SpanExecutes(env, d.post, calls[1..]);
      FullLogFirst(d, rest.done);
      assert CtxsOf([d] + rest.done) == [d.call.ctx] + CtxsOf(rest.done);
      var cid := d.call.pub.cid;
      assert ZkOnly(d.post.contracts) == ZkOnly(s.contracts)[cid := s.contracts[cid].(slots := d.out.st)];
      assert ([d.call.pub] + PubsOf(rest.done))[1..] == PubsOf(rest.done);
      assert ([d.call.ctx] + CtxsOf(rest.done))[1..] == CtxsOf(rest.done);
    }
  }

  /** The epoch is an execution of its calls, in the very contexts the verifier's statement fixes, from its pre-state to
    * its post root. */
  ghost predicate Honest(v: Verifier, b: Epoch) {
    exists post :: ReallyRan(v, b, post)
  }

  /** Whatever prove_epoch returns is one. */
  lemma {:induction false} EpochExecuted(p: Prover, v: Verifier, s: State, calls: seq<Call>)
    requires EpochOf(p, s, calls).Some? && Matching(p, v)
    ensures Honest(v, EpochOf(p, s, calls).value)
  {
    hide Span, K.TraceFits, RootOf, ZkOnly, Provable, LogOf, Stated, Execution;
    var e, ran := EpochOf(p, s, calls).value, Span(p.env, Fresh(s), calls).value;
    EpochStatement(p, s, calls);
    EpochRoots(p, s, calls);
    SameRoot(p.sch, s.contracts);
    SameRoot(p.sch, ran.post.contracts);
    SpanExecutes(p.env, Fresh(s), calls);
    var ctxs := CtxsOf(ran.done);
    var stmts := Stmts(v.digest, e.pre, e.calls);
    forall i | 0 <= i < |ctxs| ensures Stated(v, stmts[i], ctxs[i]) {
      SpanStated(p.env, v, Fresh(s), calls, i);
      assert stmts[i] == CallStmts(p.env.digest, CallsOf(ran.done))[i];
    }
    RanBy(v, e, ctxs, ZkOnly(ran.post.contracts));
  }

  /** So is every segment of a settlement. */
  lemma {:induction false} SegmentsExecuted(p: Prover, v: Verifier, s: State, calls: seq<Call>, cuts: seq<K.Segment>,
                                            j: nat)
    requires Within(cuts, |calls|) && Segments(p, s, calls, cuts).Some? && Matching(p, v)
    requires j < |Segments(p, s, calls, cuts).value.epochs|
    ensures Honest(v, Segments(p, s, calls, cuts).value.epochs[j])
    decreases |cuts|
  {
    hide Span, EpochOf, Segments, Honest;
    if cuts == [] {
      NoSegments(p, s, calls);
    } else {
      SegmentsStep(p, s, calls, cuts);
      var part := calls[cuts[0].lo..cuts[0].hi];
      if j == 0 {
        EpochExecuted(p, v, s, part);
      } else {
        SegmentsExecuted(p, v, Span(p.env, Fresh(s), part).value.post, calls, cuts[1..], j - 1);
      }
    }
  }

  /** And so whatever prove_settlement returns consists of real executions in stated contexts. */
  lemma {:induction false} BundleExecuted(p: Prover, v: Verifier, s: State, calls: seq<Call>, max: nat, b: Bundle,
                                          j: nat)
    requires Proved(p, s, calls, max, Some(b)) && Matching(p, v) && j < |b.segments|
    ensures Honest(v, b.segments[j])
  {
    hide Span, EpochOf, Segments, Honest, RootOf, K.Greedy;
    var costs := CostsOf(p, Span(p.env, Fresh(s), calls).value.done);
    var cuts :| Packs(costs, calls, max, cuts) && Some(b) == BundleOf(p, s, calls, cuts);
    SegmentsExecuted(p, v, s, calls, cuts, j);
  }
}
