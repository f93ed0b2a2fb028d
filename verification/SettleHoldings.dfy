/**
 Machine and ledger agree on what a contract holds. The machine reads, pays and burns against the balances it was given
 and its own pending moves; the ledger settles the log's effects in order. On a run's own log the two never differ, so a
 batch fails only for what the machine does not look at.
 */
module SettleHoldings {
  import opened Options
  import opened Field
  import opened Sums
  import opened ZkVM
  import opened ZkHolding
  import opened SettleLog
  import opened SettleCall
  import opened SettleSpan
  import opened SettleEpoch
  import opened SettleNames
  import opened SettleRead
  import opened SettleStated
  import A = SettleAssets

  // ---- joining logs --------------------------------------------------------------------------------

  lemma {:induction false} SelectedConcat(x: seq<Entry>, y: seq<Entry>)
    requires Selected(x) == 0
    ensures Selected(x + y) == Selected(y)
    decreases |y|
  {
    if y == [] {
      assert x + y == x;
    } else {
      assert (x + y)[..|x + y| - 1] == x + y[..|y| - 1];
      SelectedConcat(x, y[..|y| - 1]);
    }
  }

  lemma {:induction false} NetConcat(me: Elem, x: seq<Entry>, y: seq<Entry>, a: Elem)
    requires Selected(x) == 0
    ensures Net(me, x + y, a) == Net(me, x, a) + Net(me, y, a)
    decreases |y|
  {
    hide Change, Selected;
    if y == [] {
      assert x + y == x;
    } else {
      assert (x + y)[..|x + y| - 1] == x + y[..|y| - 1];
      NetConcat(me, x, y[..|y| - 1], a);
      SelectedConcat(x, y[..|y| - 1]);
    }
  }

  lemma {:induction false} GainsConcat(actor: Addr, x: seq<Effect>, y: seq<Effect>, k: A.Row)
    ensures A.Gains(actor, x + y, k) == A.Gains(actor, x, k) + A.Gains(actor, y, k)
  {
    hide A.Gain;
    if x == [] {
      assert x + y == y;
    } else {
      GainsConcat(actor, x[1..], y, k);
      assert (x + y)[0] == x[0] && (x + y)[1..] == x[1..] + y;
    }
  }

  // ---- one entry or one selection with its use -----------------------------------------------------

  /** Only the contract's own digest stands for the contract. */
  ghost predicate OwnDigest(reg: Registry, cid: Addr, me: Elem) {
    forall d :: d in reg ==> (reg[d] == cid <==> me != 0 && d == me)
  }

  /** The effects of the first thing in an accepted log: none or one. */
  lemma FirstActs(reg: Registry, log: seq<Entry>) returns (here: seq<Effect>)
    requires log != [] && Grammar(reg, log)
    ensures First(log) <= |log| && Grammar(reg, log[First(log)..]) && Grammar(reg, log[..First(log)])
    ensures |here| <= 1 && Meaning(reg, log).effects == here + Meaning(reg, log[First(log)..]).effects
    ensures Meaning(reg, log[..First(log)]).effects == here
    ensures here == if log[0].kind == IO_ASEL then [Chosen(reg, log[0].a, log[1])] else Plain(reg, log[0]).effects
    ensures log[0].kind != IO_ASEL ==> log[0].kind != IO_AMINT
    ensures log[0].kind == IO_ASEL ==> log[0].a != 0 && Taker(log[1].kind)
  {
    hide Grammar, Meaning;
    var n := First(log);
    Unfold(reg, log);
    var head := log[..n];
    assert head[n..] == [] && head[0] == log[0];
    if n == 2 { assert head[1] == log[1]; }
    Unfold(reg, head);
    EmptyLog(reg);
    here := if log[0].kind == IO_ASEL then [Chosen(reg, log[0].a, log[1])] else Plain(reg, log[0]).effects;
    JoinEmpty(if log[0].kind == IO_ASEL then Parsed([], [Chosen(reg, log[0].a, log[1])]) else Plain(reg, log[0]));
  }

  lemma OneSelected(e: Entry)
    ensures [e][..0] == [] && Selected([]) == 0
    ensures Selected([e]) == if e.kind == IO_ASEL then e.a else 0
    ensures forall me: Elem, a: Elem :: Net(me, [], a) == 0 && Net(me, [e], a) == Change(me, 0, e, a)
  {
    assert [e][..0] == [];
  }

  lemma TwoSelected(e: Entry, f: Entry)
    requires e.kind == IO_ASEL && Taker(f.kind)
    ensures [e, f][..1] == [e] && Selected([e, f]) == 0
    ensures forall me: Elem, a: Elem :: Net(me, [e, f], a) == Change(me, e.a, f, a)
  {
    hide Change;
    OneSelected(e);
    assert [e, f][..1] == [e];
    forall me: Elem, a: Elem ensures Net(me, [e, f], a) == Change(me, e.a, f, a) {
      assert Net(me, [e], a) == 0 by { SelectionMovesNothing(me, e, a); }
    }
  }

  lemma SelectionMovesNothing(me: Elem, e: Entry, a: Elem)
    requires e.kind == IO_ASEL
    ensures Net(me, [e], a) == 0
  {
    OneSelected(e);
  }

  lemma FirstMoves(reg: Registry, cid: Addr, me: Elem, log: seq<Entry>, a: Elem)
    requires log != [] && Grammar(reg, log) && OwnDigest(reg, cid, me)
    requires NamedAll(Meaning(reg, log[..First(log)]).effects)
    ensures First(log) <= |log| && Selected(log[..First(log)]) == 0
    ensures Net(me, log[..First(log)], a) == A.Gains(cid, Meaning(reg, log[..First(log)]).effects, (a, cid))
  {
    hide Grammar, Meaning, Selected, Net;
    var here := FirstActs(reg, log);
    if log[0].kind == IO_ASEL {
      assert log[..2] == [log[0], log[1]];
      TwoSelected(log[0], log[1]);
      assert here[1..] == [] && NamedOne(here[0]);
    } else {
      assert log[..1] == [log[0]];
      OneSelected(log[0]);
      if here != [] { assert here[1..] == []; }
    }
  }

  /** Over a whole accepted log whose recipients are known: the machine's moves are the ledger's. */
  lemma {:induction false} MovesAgree(reg: Registry, cid: Addr, me: Elem, log: seq<Entry>, a: Elem)
    requires Grammar(reg, log) && OwnDigest(reg, cid, me) && NamedAll(Meaning(reg, log).effects)
    ensures Selected(log) == 0
    ensures Net(me, log, a) == A.Gains(cid, Meaning(reg, log).effects, (a, cid))
    decreases |log|
  {
    hide Grammar, Meaning, Net, Selected, OwnDigest, NamedAll, A.Gains;
    if log == [] {
      EmptyLog(reg);
      NothingMoves(me, cid, a);
    } else {
      var n := First(log);
      var here := FirstActs(reg, log);
      var x, y := log[..n], log[n..];
      assert log == x + y;
      NamedConcat(here, Meaning(reg, y).effects);
      FirstMoves(reg, cid, me, log, a);
      MovesAgree(reg, cid, me, y, a);
      SelectedConcat(x, y);
      NetConcat(me, x, y, a);
      GainsConcat(cid, here, Meaning(reg, y).effects, (a, cid));
    }
  }

  lemma NothingMoves(me: Elem, cid: Addr, a: Elem)
    ensures Net(me, [], a) == 0 && Selected([]) == 0 && A.Gains(cid, [], (a, cid)) == 0
  {
  }

  // ---- a run's effects are covered -----------------------------------------------------------------

  /** The balances the machine was given are the ledger's rows of the contract. */
  ghost predicate Given(ctx: Ctx, l: A.Assets, cid: Addr) {
    forall a: Elem :: (if a in ctx.abal then ctx.abal[a] else 0) == Get(l.rows, (a, cid))
  }

  /** All of CoveredBy, but for a payment of the contract to itself. */
  predicate RunCovered(l: A.Assets, cid: Addr, before: seq<Effect>, e: Effect) {
    var held := A.HeldAfter(l, cid, before, e.asset);
    && (e.Bal? ==> e.value == held % P)
    && (e.Burn? ==> e.amount <= held)
    && (e.Pay? && e.to.Some? && e.to.value != cid ==> e.amount <= held)
  }

  lemma HeldIsOwn(reg: Registry, ctx: Ctx, l: A.Assets, cid: Addr, done: seq<Entry>, a: Elem)
    requires Given(ctx, l, cid) && OwnDigest(reg, cid, ctx.selfd % P) && Grammar(reg, done)
    requires NamedAll(Meaning(reg, done).effects)
    ensures Own(ctx, done, a) == A.HeldAfter(l, cid, Meaning(reg, done).effects, a) && Selected(done) == 0
  {
    MovesAgree(reg, cid, ctx.selfd % P, done, a);
  }

  lemma FirstCovered(reg: Registry, ctx: Ctx, l: A.Assets, cid: Addr, done: seq<Entry>, rest: seq<Entry>)
    requires Given(ctx, l, cid) && OwnDigest(reg, cid, ctx.selfd % P) && LogRight(ctx, done + rest)
    requires Grammar(reg, done) && rest != [] && Grammar(reg, rest) && NamedAll(Meaning(reg, done).effects)
    ensures First(rest) <= |rest| && Grammar(reg, rest[..First(rest)])
    ensures forall e :: e in Meaning(reg, rest[..First(rest)]).effects ==>
              RunCovered(l, cid, Meaning(reg, done).effects, e)
  {
    hide Grammar, Meaning, Net, Selected, LogRight, Given, A.HeldAfter, Own;
    var here := FirstActs(reg, rest);
    var log, last := done + rest, |done| + First(rest) - 1;
    forall e | e in here ensures RunCovered(l, cid, Meaning(reg, done).effects, e) {
      HeldIsOwn(reg, ctx, l, cid, done, e.asset);
      RightAt(ctx, log, last);
      assert log[last] == rest[First(rest) - 1];
      if rest[0].kind == IO_ASEL {
        assert log[..last] == done + [rest[0]];
        NetPush(ctx, done, rest[0], e.asset);
      } else {
        assert log[..last] == done;
      }
    }
  }

  lemma RightAt(ctx: Ctx, log: seq<Entry>, i: nat)
    requires LogRight(ctx, log) && i < |log|
    ensures EntryRight(ctx, log[..i], log[i])
  {
  }

  /** Every effect of a run's log is covered after the effects before it, as long as those had known recipients. */
  lemma {:induction false} AllRunCovered(reg: Registry, ctx: Ctx, l: A.Assets, cid: Addr, done: seq<Entry>,
                                         rest: seq<Entry>, k: nat)
    requires Given(ctx, l, cid) && OwnDigest(reg, cid, ctx.selfd % P) && LogRight(ctx, done + rest)
    requires Grammar(reg, done) && Grammar(reg, rest) && k < |Meaning(reg, rest).effects|
    requires NamedAll(Meaning(reg, done).effects + Meaning(reg, rest).effects[..k])
    ensures RunCovered(l, cid, Meaning(reg, done).effects + Meaning(reg, rest).effects[..k],
                       Meaning(reg, rest).effects[k])
    decreases |rest|
  {
    hide Grammar, Meaning, LogRight, Given, OwnDigest, NamedAll, RunCovered;
    if rest == [] {
      EmptyLog(reg);
      assert false;
    } else {
      var n := First(rest);
      var here := FirstActs(reg, rest);
      var x, y, acts := rest[..n], rest[n..], Meaning(reg, rest).effects;
      var before := Meaning(reg, done).effects;
      assert rest == x + y;
      NamedConcat(before, acts[..k]);
      if k < |here| {
        assert acts[..k] == [] && before + [] == before && acts[k] == here[0] && here[0] in here;
        FirstCovered(reg, ctx, l, cid, done, rest);
      } else {
        SplitConcat(reg, done, x);
        assert done + rest == done + x + y;
        var later := Meaning(reg, y).effects;
        assert acts[..k] == here + later[..k - |here|] && acts[k] == later[k - |here|];
        assert before + acts[..k] == before + here + later[..k - |here|];
        AllRunCovered(reg, ctx, l, cid, done + x, y, k - |here|);
      }
    }
  }

  // ---- which batches of a run are legal ------------------------------------------------------------

  /** The one balance the machine does not look at: the ledger has even a payment to oneself covered. */
  predicate SelfCovered(l: A.Assets, cid: Addr, before: seq<Effect>, e: Effect) {
    e.Pay? && e.to == Some(cid) && e.amount > 0 ==> e.amount <= A.HeldAfter(l, cid, before, e.asset)
  }

  predicate Allowed(l: A.Assets, cid: Addr, before: seq<Effect>, e: Effect) {
    A.Authorized(l, cid, before, e) && SelfCovered(l, cid, before, e)
  }

  /** What is held is the ledger's balance plus what is staged, and is always a field element. */
  lemma HeldIsBalance(l: A.Assets, cid: Addr, before: seq<Effect>, s: A.Staged, a: Elem)
    requires A.Sound(l) && A.Stage(l, cid, A.NOTHING, before) == Some(s)
    ensures A.HeldAfter(l, cid, before, a) == A.Balance(l, s, (a, cid))
    ensures 0 <= A.HeldAfter(l, cid, before, a) < P
  {
    hide A.Stage, A.CommitRows, A.Held;
    A.StageGains(l, cid, A.NOTHING, before, (a, cid));
    A.CommitNothing(l.rows);
    A.StageSound(l, cid, A.NOTHING, before);
    A.CommitMoves(l.rows, s.deltas, (a, cid), 0);
    A.HeldCovers(A.CommitRows(l.rows, s.deltas), (a, cid));
  }

  /** The situation of a call about to settle: a sound ledger, the balances the machine was given, its log. */
  ghost predicate Settling(reg: Registry, ctx: Ctx, l: A.Assets, cid: Addr, log: seq<Entry>) {
    && A.Sound(l) && Given(ctx, l, cid) && OwnDigest(reg, cid, ctx.selfd % P)
    && LogRight(ctx, log)
  }

  lemma LegalNext(reg: Registry, ctx: Ctx, l: A.Assets, cid: Addr, log: seq<Entry>, k: nat)
    requires Grammar(reg, log) && Settling(reg, ctx, l, cid, log) && k < |Meaning(reg, log).effects|
    requires var acts := Meaning(reg, log).effects;
             A.Stage(l, cid, A.NOTHING, acts[..k]).Some? && Allowed(l, cid, acts[..k], acts[k])
    ensures var acts := Meaning(reg, log).effects;
            A.Legal(l, cid, acts[..k], acts[k])
  {
    hide Grammar, Meaning, LogRight, Given, OwnDigest, NamedAll, A.Stage, A.Sound, A.HeldAfter, A.Authorized;
    var acts := Meaning(reg, log).effects;
    var e, s := acts[k], A.Stage(l, cid, A.NOTHING, acts[..k]).value;
    HeldIsBalance(l, cid, acts[..k], s, e.asset);
    StagedNamed(l, cid, A.NOTHING, acts[..k]);
    EmptyLog(reg);
    assert [] + log == log && [] + acts[..k] == acts[..k];
    AllRunCovered(reg, ctx, l, cid, [], log, k);
    CoveredFrom(l, cid, acts[..k], e);
  }

  lemma CoveredFrom(l: A.Assets, cid: Addr, before: seq<Effect>, e: Effect)
    requires 0 <= A.HeldAfter(l, cid, before, e.asset) < P && RunCovered(l, cid, before, e)
    requires Allowed(l, cid, before, e)
    ensures A.Legal(l, cid, before, e)
  {
    hide A.HeldAfter;
  }

  lemma {:induction false} LegalPrefix(reg: Registry, ctx: Ctx, l: A.Assets, cid: Addr, log: seq<Entry>, k: nat)
    requires Grammar(reg, log) && Settling(reg, ctx, l, cid, log) && k <= |Meaning(reg, log).effects|
    requires var acts := Meaning(reg, log).effects;
             forall i :: 0 <= i < k ==> Allowed(l, cid, acts[..i], acts[i])
    ensures A.Stage(l, cid, A.NOTHING, Meaning(reg, log).effects[..k]).Some?
  {
    hide Grammar, Meaning, A.Stage, Settling, Allowed, A.Legal;
    var acts := Meaning(reg, log).effects;
    A.StageExactly(l, cid, acts[..k]);
    if k > 0 {
      LegalPrefix(reg, ctx, l, cid, log, k - 1);
      LegalNext(reg, ctx, l, cid, log, k - 1);
      A.StageExactly(l, cid, acts[..k - 1]);
      forall i | 0 <= i < k ensures A.Legal(l, cid, acts[..k][..i], acts[..k][i]) {
        assert acts[..k][..i] == acts[..i];
        if i < k - 1 { assert acts[..k - 1][..i] == acts[..i] && acts[..k - 1][i] == acts[i]; }
      }
    }
  }

  /** A run's batch is staged exactly when the ledger allows each effect for reasons the machine does not look at; what
    * it read, spent on others or burned never fails it. */
  lemma BatchLegal(reg: Registry, ctx: Ctx, l: A.Assets, cid: Addr, log: seq<Entry>)
    requires Grammar(reg, log) && Settling(reg, ctx, l, cid, log)
    ensures var acts := Meaning(reg, log).effects;
            A.Stage(l, cid, A.NOTHING, acts).Some? <==>
              forall i :: 0 <= i < |acts| ==> Allowed(l, cid, acts[..i], acts[i])
  {
    hide Grammar, Meaning, A.Stage, Settling, A.Authorized, A.HeldAfter;
    var acts := Meaning(reg, log).effects;
    A.StageExactly(l, cid, acts);
    assert acts[..|acts|] == acts;
    if A.Stage(l, cid, A.NOTHING, acts).Some? {
      forall i | 0 <= i < |acts| ensures Allowed(l, cid, acts[..i], acts[i]) {
        assert A.Legal(l, cid, acts[..i], acts[i]);
      }
    } else if forall i :: 0 <= i < |acts| ==> Allowed(l, cid, acts[..i], acts[i]) {
      LegalPrefix(reg, ctx, l, cid, log, |acts|);
    }
  }

  /** Every balance a run read is the ledger's, with everything staged before the read counted in. */
  lemma ReadsAgree(reg: Registry, ctx: Ctx, l: A.Assets, cid: Addr, log: seq<Entry>, k: nat, s: A.Staged)
    requires Grammar(reg, log) && Settling(reg, ctx, l, cid, log) && k < |Meaning(reg, log).effects|
    requires A.Stage(l, cid, A.NOTHING, Meaning(reg, log).effects[..k]) == Some(s)
    ensures var e := Meaning(reg, log).effects[k];
            e.Bal? ==> e.value == A.Balance(l, s, (e.asset, cid))
  {
    hide Grammar, Meaning, A.Stage, Settling, A.HeldAfter, A.Balance;
    var acts := Meaning(reg, log).effects;
    if acts[k].Bal? {
      LegalNext(reg, ctx, l, cid, log, k);
      assert A.Sound(l) by { Sounds(reg, ctx, l, cid, log); }
      HeldIsBalance(l, cid, acts[..k], s, acts[k].asset);
    }
  }

  lemma Sounds(reg: Registry, ctx: Ctx, l: A.Assets, cid: Addr, log: seq<Entry>)
    requires Settling(reg, ctx, l, cid, log)
    ensures A.Sound(l)
  {
  }

  // ---- calls ---------------------------------------------------------------------------------------

  /** Addresses are registered under their own digests only: so in a fresh registry, and after any span from one. */
  ghost predicate Faithful(env: Env, reg: Registry) {
    forall d :: d in reg ==> env.digest(reg[d]) == d
  }

  /** No other address has this contract's digest. */
  ghost predicate OwnName(env: Env, cid: Addr) {
    env.digest(cid) != 0 && forall x: Addr :: env.digest(x) == env.digest(cid) ==> x == cid
  }

  lemma {:induction false} DigestFaithful(env: Env, reg: Registry, args: seq<Arg>)
    requires Faithful(env, reg) && DigestArgs(env.digest, reg, args).Some?
    ensures Faithful(env, DigestArgs(env.digest, reg, args).value.reg)
    decreases |args|
  {
    if args != [] {
      match args[0]
      case Num(_) => DigestFaithful(env, reg, args[1..]);
      case Text(s) => DigestFaithful(env, reg[env.digest(s) := s], args[1..]);
    }
  }

  lemma CallFaithful(env: Env, s: State, call: Call)
    requires Faithful(env, s.reg) && CallStep(env, s, call).Some?
    ensures Faithful(env, CallStep(env, s, call).value.post.reg)
  {
    hide DigestArgs, Escrow, A.View, Run, Split, ApplyPayouts, Settle;
    var caller := Publish(env, call).caller;
    DigestFaithful(env, s.reg[env.digest(caller) := caller], call.args);
  }

  lemma {:induction false} SpanFaithful(env: Env, s: State, calls: seq<Call>)
    requires Faithful(env, s.reg) && Span(env, s, calls).Some?
    ensures Faithful(env, Span(env, s, calls).value.post.reg)
    decreases |calls|
  {
    hide CallStep, Faithful;
    if calls != [] {
      CallFaithful(env, s, calls[0]);
      SpanFaithful(env, CallStep(env, s, calls[0]).value.post, calls[1..]);
    }
  }

  /** A call that has run, about to settle. */
  datatype Finished = Finished(reg: Registry, ctx: Ctx, purse: Purse, log: seq<Entry>)

  /** A call up to the end of its run. */
  function RunOf(env: Env, s: State, call: Call): Option<Finished> {
    var pub := Publish(env, call);
    if pub.cid !in s.contracts || !s.contracts[pub.cid].zk then None
    else
      var stmt :- Digest(env.digest, s.reg, pub.caller, pub.args);
      var purse :- Escrow(s.bridge, s.assets, pub);
      var ctx := Context(env, pub, stmt.args, A.View(purse.assets, pub.cid));
      var out := Execute(s.contracts[pub.cid].code, pub.name, ctx, s.contracts[pub.cid].slots);
      if out.Failure? then None else Some(Finished(stmt.reg, ctx, purse, out.io))
  }

  predicate ArgFits(arg: Arg) {
    arg.Text? || (arg.Num? && 0 <= arg.n < P)
  }

  /** The caller can cover what it sends along. */
  predicate Affordable(b: Bridge, l: A.Assets, pub: PublicCall) {
    pub.value > 0 ==>
      if pub.asset == 0 then pub.value <= Get(b, pub.caller)
      else 0 <= pub.asset < P && pub.asset in l.meta && pub.value <= Get(l.rows, (pub.asset, pub.caller))
  }

  /** What a call needs before it can run: a contract of this machine, proper arguments, and the call value. */
  predicate Callable(env: Env, s: State, call: Call) {
    && call.cid in s.contracts && s.contracts[call.cid].zk
    && (forall i :: 0 <= i < |call.args| ==> ArgFits(call.args[i]))
    && Affordable(s.bridge, s.assets, Publish(env, call))
  }

  lemma {:induction false} ArgsFit(digest: Addr -> Elem, reg: Registry, args: seq<Arg>)
    ensures DigestArgs(digest, reg, args).Some? <==> forall i :: 0 <= i < |args| ==> ArgFits(args[i])
    decreases |args|
  {
    if args != [] {
      match args[0]
      case Junk =>
      case Num(_) => ArgsFit(digest, reg, args[1..]);
      case Text(s) => ArgsFit(digest, reg[digest(s) := s], args[1..]);
    }
  }

  lemma EscrowExactly(b: Bridge, l: A.Assets, pub: PublicCall)
    ensures Escrow(b, l, pub).Some? <==> Affordable(b, l, pub)
  {
    hide Transfer;
  }

  /** A call runs exactly when it can be made and its method exists and succeeds. */
  lemma RunsExactly(env: Env, s: State, call: Call)
    ensures RunOf(env, s, call).Some? ==> Callable(env, s, call)
    ensures Callable(env, s, call) ==>
              var pub, c := Publish(env, call), s.contracts[call.cid];
              var stmt, purse := Digest(env.digest, s.reg, pub.caller, pub.args), Escrow(s.bridge, s.assets, pub);
              stmt.Some? && purse.Some? &&
              var ctx := Context(env, pub, stmt.value.args, A.View(purse.value.assets, call.cid));
              RunOf(env, s, call).Some? <==> call.name in c.code && Run(ctx, c.code[call.name], c.slots).Success?
  {
    hide DigestArgs, Escrow, A.View, Run, Affordable;
    var pub := Publish(env, call);
    ArgsFit(env.digest, s.reg[env.digest(pub.caller) := pub.caller], call.args);
    EscrowExactly(s.bridge, s.assets, pub);
  }

  lemma RanSettles(env: Env, s: State, call: Call)
    ensures CallStep(env, s, call).Some? <==>
              RunOf(env, s, call).Some? &&
              var r := RunOf(env, s, call).value;
              Grammar(r.reg, r.log) &&
              var log := Meaning(r.reg, r.log);
              TotalOwed(log.payouts) <= Get(r.purse.bridge, call.cid)
              && Settle(r.purse.assets, call.cid, log.effects).Some?
  {
    hide Digest, Escrow, A.View, Run, Grammar, Meaning, Settle, TotalOwed, PayAll;
  }

  lemma RanSettling(env: Env, s: State, call: Call)
    requires RunOf(env, s, call).Some? && A.Sound(s.assets) && Faithful(env, s.reg) && OwnName(env, call.cid)
    ensures var r := RunOf(env, s, call).value;
            Settling(r.reg, r.ctx, r.purse.assets, call.cid, r.log)
  {
    hide DigestArgs, Escrow, A.View, Run, A.Sound, LogRight;
    var pub := Publish(env, call);
    var r, c := RunOf(env, s, call).value, s.contracts[call.cid];
    DigestFaithful(env, s.reg[env.digest(pub.caller) := pub.caller], call.args);
    RunHolds(r.ctx, c.code[call.name], c.slots);
    EscrowPositive(s.bridge, s.assets, pub);
    EscrowSoundToo(s.bridge, s.assets, pub);
    forall a: Elem ensures (if a in r.ctx.abal then r.ctx.abal[a] else 0) == Get(r.purse.assets.rows, (a, call.cid)) {
      A.ViewIsBalance(r.purse.assets, call.cid, a);
    }
  }

  lemma EscrowSoundToo(b: Bridge, l: A.Assets, pub: PublicCall)
    requires A.Sound(l) && Escrow(b, l, pub).Some?
    ensures A.Sound(Escrow(b, l, pub).value.assets)
  {
    hide A.Sound, Transfer, A.Escrow;
    if pub.value > 0 && pub.asset != 0 { A.EscrowSound(l, pub.asset, pub.caller, pub.cid, pub.value); }
  }

  /** A call that ran goes through exactly when its log is accepted position by position, the contract covers its native
    * payments, and the ledger allows every asset effect: no call fails on a balance it read, or on what it paid to
    * others or burned. */
  lemma CallExactly(env: Env, s: State, call: Call)
    requires A.Sound(s.assets) && Faithful(env, s.reg) && OwnName(env, call.cid)
    ensures CallStep(env, s, call).Some? <==>
              RunOf(env, s, call).Some? &&
              var r := RunOf(env, s, call).value;
              LogOk(r.reg, r.log) && Grammar(r.reg, r.log) &&
              SpentBy(r.log, |r.log|) <= Get(r.purse.bridge, call.cid) &&
              var acts := Meaning(r.reg, r.log).effects;
              forall i :: 0 <= i < |acts| ==> Allowed(r.purse.assets, call.cid, acts[..i], acts[i])
  {
    hide RunOf, CallStep, Grammar, Meaning, A.Stage, Settling, Allowed, A.Sound, Faithful, OwnName, LogOk, SpentBy;
    RanSettles(env, s, call);
    if RunOf(env, s, call).Some? {
      var r := RunOf(env, s, call).value;
      RanSettling(env, s, call);
      ReadExactly(r.reg, r.log);
      if Grammar(r.reg, r.log) {
        ReadsSums(r.reg, r.log, call.cid);
        BatchLegal(r.reg, r.ctx, r.purse.assets, call.cid, r.log);
      }
    }
  }

  // ---- paying oneself ------------------------------------------------------------------------------

  /** Selects the asset in argument 0 and pays that much of it to the contract itself. */
  function PaySelf(): seq<Ins> {
    [Ins(ACTX, 1, 0, 1), Ins(ASEL, 0, 0, 0), Ins(PAY, 1, 0, 0), Ins(RET, 0, 0, 0)]
  }

  function PaySelfLog(me: Elem, a: Elem): seq<Entry> {
    [Entry(IO_ASEL, a, 0), Entry(IO_PAY, me, a), Entry(IO_RET, a, 0)]
  }

  lemma PaySelfSteps(ctx: Ctx, c0: Core)
    requires var a := c0.regs[0]; a != 0 && ctx.ActxValue(1) != 0
    ensures var a, me := c0.regs[0], ctx.ActxValue(1);
            var c1 := c0.Set(1, me);
            var c2 := c1.(asel := a).Log(IO_ASEL, a, 0);
            var c3 := c2.(asel := 0).Log(IO_PAY, me, a);
            && StepAt(ctx, PaySelf(), 0, c0) == Go(1, c1)
            && StepAt(ctx, PaySelf(), 1, c1) == Go(2, c2)
            && StepAt(ctx, PaySelf(), 2, c2) == Go(3, c3)
            && StepAt(ctx, PaySelf(), 3, c3) == Halt(a, c3.Log(IO_RET, a, 0))
  {
  }

  lemma RunFour(ctx: Ctx, prog: seq<Ins>, c0: Core, c1: Core, c2: Core, c3: Core, ret: Elem, c4: Core)
    requires StepAt(ctx, prog, 0, c0) == Go(1, c1) && StepAt(ctx, prog, 1, c1) == Go(2, c2)
    requires StepAt(ctx, prog, 2, c2) == Go(3, c3) && StepAt(ctx, prog, 3, c3) == Halt(ret, c4)
    ensures RunFrom(ctx, prog, 0, c0, GAS_LIMIT) == Success(ret, c4.st, c4.io)
  {
    hide StepAt;
    assert RunFrom(ctx, prog, 3, c3, GAS_LIMIT - 3) == Success(ret, c4.st, c4.io);
    assert RunFrom(ctx, prog, 2, c2, GAS_LIMIT - 2) == Success(ret, c4.st, c4.io);
    assert RunFrom(ctx, prog, 1, c1, GAS_LIMIT - 1) == Success(ret, c4.st, c4.io);
  }

  /** So a run need not settle: paying oneself more than one holds, here all that argument 0 says, runs and is refused
    * by the ledger. */
  lemma PaySelfIsRefused(ctx: Ctx, l: A.Assets, cid: Addr)
    requires 0 < |ctx.args| <= MAX_ARGS && ctx.selfd % P != 0
    requires ctx.args[0] > 0 && Get(l.rows, (ctx.args[0], cid)) < ctx.args[0]
    ensures var a, me := ctx.args[0], ctx.selfd % P;
            && Run(ctx, PaySelf(), map[]) == Success(a, map[], PaySelfLog(me, a))
            && Split(map[me := cid], PaySelfLog(me, a)) == Some(Parsed([], [Pay(a, Some(cid), a)]))
            && Settle(l, cid, [Pay(a, Some(cid), a)]).None?
  {
    hide StepAt;
    var a, me, c0 := ctx.args[0], ctx.selfd % P, Entry0(ctx, map[]);
    PaySelfSteps(ctx, c0);
    var c1 := c0.Set(1, me);
    var c2 := c1.(asel := a).Log(IO_ASEL, a, 0);
    var c3 := c2.(asel := 0).Log(IO_PAY, me, a);
    assert c3.Log(IO_RET, a, 0).io == PaySelfLog(me, a);
    RunFour(ctx, PaySelf(), c0, c1, c2, c3, a, c3.Log(IO_RET, a, 0));
    PaySelfSplits(map[me := cid], me, a, cid);
    A.StageOne(l, cid, A.NOTHING, Pay(a, Some(cid), a), []);
  }

  lemma PaySelfSplits(reg: Registry, me: Elem, a: Elem, cid: Addr)
    requires a != 0 && me in reg && reg[me] == cid
    ensures Split(reg, PaySelfLog(me, a)) == Some(Parsed([], [Pay(a, Some(cid), a)]))
  {
    hide Grammar, Meaning;
    var log := PaySelfLog(me, a);
    assert log[2..] == [log[2]] && [log[2]][1..] == [];
    Unfold(reg, log);
    Unfold(reg, [log[2]]);
    EmptyLog(reg);
    JoinEmpty(Parsed([], []));
    JoinEmpty(Parsed([], [Chosen(reg, a, log[1])]));
    assert Plain(reg, log[2]) == Parsed([], []);
  }
}
