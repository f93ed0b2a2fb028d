/**
 Which addresses a call has to know. A registry built from fewer calls resolves fewer recipients, so proving a span
 segment by segment can fail where running it does not; here is exactly when, and a span on which it does.
 */
module SettleNames {
  import opened Options
  import opened Field
  import opened ZkVM
  import opened SettleLog
  import opened SettleCall
  import opened SettleSpan
  import opened SettleRoot
  import opened SettleEpoch
  import opened SettleAgree
  import opened SettleSound
  import A = SettleAssets
  import G = ZkGuards
  import K = SettlePacking

  // ---- logs and effects ----------------------------------------------------------------------------

  predicate Gives(e: Entry) {
    Taker(e.kind) && e.b > 0
  }

  /** Everyone the log pays or mints to is registered. */
  predicate Resolves(reg: Registry, log: seq<Entry>) {
    forall i :: 0 <= i < |log| && Gives(log[i]) ==> log[i].a in reg
  }

  predicate NamedOne(e: Effect) {
    (e.Pay? || e.Mint?) && e.amount > 0 ==> e.to.Some?
  }

  predicate NamedAll(effects: seq<Effect>) {
    forall i :: 0 <= i < |effects| ==> NamedOne(effects[i])
  }

  lemma ResolvesFrom(reg: Registry, log: seq<Entry>, n: nat)
    requires n <= |log|
    ensures Resolves(reg, log) <==> Resolves(reg, log[..n]) && Resolves(reg, log[n..])
  {
    assert log == log[..n] + log[n..];
  }

  lemma {:induction false} ResolvesNamed(reg: Registry, log: seq<Entry>)
    requires Grammar(reg, log)
    ensures Resolves(reg, log) <==> NamedAll(Meaning(reg, log).effects)
  {
    hide Grammar, Meaning, Resolves, NamedAll;
    if log == [] {
      EmptyLog(reg);
      NothingNamed(reg);
    } else {
      Unfold(reg, log);
      var n, first := if log[0].kind == IO_ASEL then 2 else 1, FirstEffects(reg, log);
      ResolvesNamed(reg, log[n..]);
      ResolvesFrom(reg, log, n);
      FirstNamed(reg, log);
      NamedConcat(first, Meaning(reg, log[n..]).effects);
    }
  }

  function FirstEffects(reg: Registry, log: seq<Entry>): seq<Effect>
    requires log != [] && Grammar(reg, log)
  {
    if log[0].kind == IO_ASEL then [Chosen(reg, log[0].a, log[1])] else Plain(reg, log[0]).effects
  }

  lemma FirstNamed(reg: Registry, log: seq<Entry>)
    requires log != [] && Grammar(reg, log)
    ensures var n := if log[0].kind == IO_ASEL then 2 else 1;
            Resolves(reg, log[..n]) <==> NamedAll(FirstEffects(reg, log))
  {
    hide Meaning;
    var n := if log[0].kind == IO_ASEL then 2 else 1;
    if n == 2 {
      var c := Chosen(reg, log[0].a, log[1]);
      assert log[..2] == [log[0], log[1]];
      assert FirstEffects(reg, log) == [c] && [c][0] == c;
    } else {
      assert log[..1] == [log[0]];
    }
  }

  lemma NothingNamed(reg: Registry)
    ensures Resolves(reg, []) && NamedAll([])
  {
  }

  lemma NamedConcat(x: seq<Effect>, y: seq<Effect>)
    ensures NamedAll(x + y) <==> NamedAll(x) && NamedAll(y)
  {
    if NamedAll(x + y) {
      forall i | 0 <= i < |x| ensures NamedOne(x[i]) { assert (x + y)[i] == x[i]; }
      forall i | 0 <= i < |y| ensures NamedOne(y[i]) { assert (x + y)[|x| + i] == y[i]; }
    }
  }

  lemma {:induction false} GrammarShrinks(small: Registry, big: Registry, log: seq<Entry>)
    requires Grammar(big, log) && Resolves(small, log)
    ensures Grammar(small, log)
  {
    hide Grammar;
    if log == [] {
      EmptyLog(small);
    } else {
      Unfold(big, log);
      Unfold(small, log);
      GrammarShrinks(small, big, log[if log[0].kind == IO_ASEL then 2 else 1..]);
    }
  }

  lemma {:induction false} StagedNamed(l: A.Assets, actor: Addr, s: A.Staged, es: seq<Effect>)
    requires A.Stage(l, actor, s, es).Some?
    ensures NamedAll(es)
    decreases |es|
  {
    if es != [] { StagedNamed(l, actor, A.StageStep(l, actor, s, es[0]).value, es[1..]); }
  }

  lemma {:induction false} StageNamed(l: A.Assets, actor: Addr, s: A.Staged, es: seq<Effect>, fs: seq<Effect>)
    requires SameIntents(es, fs) && NamedAll(es)
    ensures A.Stage(l, actor, s, es) == A.Stage(l, actor, s, fs)
    decreases |es|
  {
    if es != [] {
      assert SameIntent(es[0], fs[0]) && NamedOne(es[0]);
      assert A.StageStep(l, actor, s, fs[0]) == A.StageStep(l, actor, s, es[0]);
      var next := A.StageStep(l, actor, s, es[0]);
      if next.Some? { StageNamed(l, actor, next.value, es[1..], fs[1..]); }
    }
  }

  /** A log that is read and settled under a registry is read and settled under a smaller one exactly when that one
    * knows everyone the log gives to. */
  lemma SettlesSmaller(small: Registry, big: Registry, log: seq<Entry>, l: A.Assets, cid: Addr)
    requires Extends(small, big) && Grammar(big, log) && Settle(l, cid, Meaning(big, log).effects).Some?
    ensures Resolves(small, log) <==>
              Grammar(small, log) && Settle(l, cid, Meaning(small, log).effects).Some?
    ensures Grammar(small, log) ==> Meaning(small, log).payouts == Meaning(big, log).payouts
  {
    hide Grammar, Meaning, A.Stage, A.Commit, Resolves, NamedAll;
    if Resolves(small, log) { GrammarShrinks(small, big, log); }
    if Grammar(small, log) {
      SplitExtends(small, big, log);
      ResolvesNamed(small, log);
      var es, fs := Meaning(small, log).effects, Meaning(big, log).effects;
      if Resolves(small, log) { StageNamed(l, cid, A.NOTHING, es, fs); }
      if Settle(l, cid, es).Some? {
        if es == [] { NothingNamed(small); } else { StagedNamed(l, cid, A.NOTHING, es); }
      }
    }
  }

  // ---- one call ------------------------------------------------------------------------------------

  predicate InArgs(digest: Addr -> Elem, args: seq<Arg>, d: Elem) {
    exists i :: 0 <= i < |args| && args[i].Text? && digest(args[i].s) == d
  }

  lemma InArgsFirst(digest: Addr -> Elem, args: seq<Arg>, d: Elem)
    requires args != []
    ensures InArgs(digest, args, d) <==> (args[0].Text? && digest(args[0].s) == d) || InArgs(digest, args[1..], d)
  {
    if InArgs(digest, args, d) && !(args[0].Text? && digest(args[0].s) == d) {
      var i :| 0 <= i < |args| && args[i].Text? && digest(args[i].s) == d;
      assert args[1..][i - 1] == args[i];
    }
    if InArgs(digest, args[1..], d) {
      var i :| 0 <= i < |args[1..]| && args[1..][i].Text? && digest(args[1..][i].s) == d;
      assert args[i + 1] == args[1..][i];
    }
  }

  lemma {:induction false} DigestKeys(digest: Addr -> Elem, reg: Registry, args: seq<Arg>, d: Elem)
    requires DigestArgs(digest, reg, args).Some?
    ensures d in DigestArgs(digest, reg, args).value.reg <==> d in reg || InArgs(digest, args, d)
    decreases |args|
  {
    hide InArgs;
    if args == [] {
      assert !InArgs(digest, args, d) by { NoArgs(digest, d); }
    } else {
      InArgsFirst(digest, args, d);
      match args[0]
      case Num(_) => DigestKeys(digest, reg, args[1..], d);
      case Text(s) => DigestKeys(digest, reg[digest(s) := s], args[1..], d);
    }
  }

  lemma NoArgs(digest: Addr -> Elem, d: Elem)
    ensures !InArgs(digest, [], d)
  {
  }

  /** The call itself names the address: its caller, or one of its arguments. */
  predicate Names(env: Env, call: Call, d: Elem) {
    d == env.digest(Or(call.caller, NO_CALLER)) || InArgs(env.digest, call.args, d)
  }

  /** After a call the registry knows what it knew and what the call names. */
  lemma CallRegisters(env: Env, s: State, call: Call, d: Elem)
    requires CallStep(env, s, call).Some?
    ensures d in CallStep(env, s, call).value.post.reg <==> d in s.reg || Names(env, call, d)
  {
    hide DigestArgs, Escrow, A.View, Run, Split, ApplyPayouts, Settle;
    var me := env.digest(Or(call.caller, NO_CALLER));
    DigestKeys(env.digest, s.reg[me := Or(call.caller, NO_CALLER)], call.args, d);
  }

  /** Everyone the log gives to is known, or named by the call. */
  predicate Covered(env: Env, reg: Registry, call: Call, log: seq<Entry>) {
    forall i :: 0 <= i < |log| && Gives(log[i]) ==> log[i].a in reg || Names(env, call, log[i].a)
  }

  /** A call that succeeds under a registry succeeds under a smaller one if and only if everyone it pays or mints to is
    * in the smaller one or named by the call itself. */
  lemma CallNarrows(env: Env, s: State, big: Registry, call: Call)
    requires Extends(s.reg, big) && CallStep(env, s.(reg := big), call).Some?
    ensures CallStep(env, s, call).Some? <==>
              Covered(env, s.reg, call, LogOf(CallStep(env, s.(reg := big), call).value.call))
  {
    hide DigestArgs, Escrow, A.View, Run, Grammar, Meaning, ApplyPayouts, Settle, Names, Resolves;
    var e := CallStep(env, s.(reg := big), call).value;
    CallRanOn(env, s.(reg := big), call);
    var pub := Publish(env, call);
    var me := env.digest(pub.caller);
    DigestExtends(env.digest, s.reg[me := pub.caller], big[me := pub.caller], pub.args);
    var stmt := Digest(env.digest, s.reg, pub.caller, pub.args).value;
    var l := Escrow(s.bridge, s.assets, pub).value.assets;
    SettlesSmaller(stmt.reg, e.post.reg, e.out.io, l, pub.cid);
    StatementKeys(env, s.reg, call, e.out.io);
  }

  lemma StatementKeys(env: Env, reg: Registry, call: Call, log: seq<Entry>)
    requires Digest(env.digest, reg, Or(call.caller, NO_CALLER), call.args).Some?
    ensures Resolves(Digest(env.digest, reg, Or(call.caller, NO_CALLER), call.args).value.reg, log) <==>
              Covered(env, reg, call, log)
  {
    hide DigestArgs;
    var caller := Or(call.caller, NO_CALLER);
    var known := Digest(env.digest, reg, caller, call.args).value.reg;
    forall d: Elem ensures d in known <==> d in reg || Names(env, call, d) {
      DigestKeys(env.digest, reg[env.digest(caller) := caller], call.args, d);
    }
  }

  // ---- a span --------------------------------------------------------------------------------------

  /** A call no later than the k-th names the address. */
  predicate NamedBy(env: Env, calls: seq<Call>, k: nat, d: Elem)
    requires k < |calls|
  {
    exists j :: 0 <= j <= k && Names(env, calls[j], d)
  }

  /** Everyone the logs give to is known, or named by the call itself or one before it. */
  predicate AllCovered(env: Env, reg: Registry, calls: seq<Call>, logs: seq<seq<Entry>>)
    requires |logs| == |calls|
  {
    forall k, i :: 0 <= k < |logs| && 0 <= i < |logs[k]| && Gives(logs[k][i]) ==>
      logs[k][i].a in reg || NamedBy(env, calls, k, logs[k][i].a)
  }

  lemma NamedFirst(env: Env, calls: seq<Call>, k: nat, d: Elem)
    requires k < |calls|
    ensures NamedBy(env, calls, k, d) <==> Names(env, calls[0], d) || (k > 0 && NamedBy(env, calls[1..], k - 1, d))
  {
    hide Names;
    if NamedBy(env, calls, k, d) && !Names(env, calls[0], d) {
      var j :| 0 <= j <= k && Names(env, calls[j], d);
      assert calls[1..][j - 1] == calls[j];
    }
    if k > 0 && NamedBy(env, calls[1..], k - 1, d) {
      var j :| 0 <= j <= k - 1 && Names(env, calls[1..][j], d);
      assert calls[j + 1] == calls[1..][j];
    }
  }

  lemma CoveredFirst(env: Env, reg: Registry, next: Registry, calls: seq<Call>, logs: seq<seq<Entry>>)
    requires |logs| == |calls| && calls != []
    requires forall d: Elem :: d in next <==> d in reg || Names(env, calls[0], d)
    ensures AllCovered(env, reg, calls, logs) <==>
              Covered(env, reg, calls[0], logs[0]) && AllCovered(env, next, calls[1..], logs[1..])
  {
    hide Names, NamedBy, Gives;
    forall k: nat, d: Elem | k < |calls|
      ensures NamedBy(env, calls, k, d) <==> Names(env, calls[0], d) || (k > 0 && NamedBy(env, calls[1..], k - 1, d))
    {
      NamedFirst(env, calls, k, d);
    }
    var rest := logs[1..];
    if AllCovered(env, reg, calls, logs) {
      forall k, i | 0 <= k < |rest| && 0 <= i < |rest[k]| && Gives(rest[k][i])
        ensures rest[k][i].a in next || NamedBy(env, calls[1..], k, rest[k][i].a)
      {
        assert rest[k] == logs[k + 1];
      }
    }
    if Covered(env, reg, calls[0], logs[0]) && AllCovered(env, next, calls[1..], rest) {
      forall k, i | 0 <= k < |logs| && 0 <= i < |logs[k]| && Gives(logs[k][i])
        ensures logs[k][i].a in reg || NamedBy(env, calls, k, logs[k][i].a)
      {
        if k > 0 { assert rest[k - 1] == logs[k]; }
      }
    }
  }

  /** So a span that runs under a registry runs under a smaller one if and only if everyone its calls give to is in the
    * smaller one or named by then. */
  lemma {:induction false} SpanNarrows(env: Env, s: State, big: Registry, calls: seq<Call>)
    requires Extends(s.reg, big) && Span(env, s.(reg := big), calls).Some?
    ensures |Span(env, s.(reg := big), calls).value.done| == |calls|
    ensures Span(env, s, calls).Some? <==>
              AllCovered(env, s.reg, calls, LogsOf(CallsOf(Span(env, s.(reg := big), calls).value.done)))
    decreases |calls|
  {
    hide CallStep, Covered, AllCovered, Names;
    SpanLength(env, s.(reg := big), calls);
    if calls == [] {
      NothingCovered(env, s.reg);
      assert LogsOf(CallsOf(Span(env, s.(reg := big), calls).value.done)) == [];
    } else {
      var e := CallStep(env, s.(reg := big), calls[0]).value;
      var rest := Span(env, e.post, calls[1..]).value.done;
      SpanLength(env, e.post, calls[1..]);
      CallNarrows(env, s, big, calls[0]);
      var logs := LogsOf(CallsOf([e] + rest));
      FullLogFirst(e, rest);
      assert logs[1..] == LogsOf(CallsOf(rest));
      if CallStep(env, s, calls[0]).Some? {
        CallExtends(env, s, big, calls[0]);
        var d := CallStep(env, s, calls[0]).value;
        SpanNarrows(env, d.post, e.post.reg, calls[1..]);
        forall x: Elem ensures x in d.post.reg <==> x in s.reg || Names(env, calls[0], x) {
          CallRegisters(env, s, calls[0], x);
        }
        CoveredFirst(env, s.reg, d.post.reg, calls, logs);
      } else {
        if AllCovered(env, s.reg, calls, logs) { CoversFirst(env, s.reg, calls, logs); }
      }
    }
  }

  lemma CoversFirst(env: Env, reg: Registry, calls: seq<Call>, logs: seq<seq<Entry>>)
    requires |logs| == |calls| && calls != [] && AllCovered(env, reg, calls, logs)
    ensures Covered(env, reg, calls[0], logs[0])
  {
    hide Names, Gives;
    forall i | 0 <= i < |logs[0]| && Gives(logs[0][i])
      ensures logs[0][i].a in reg || Names(env, calls[0], logs[0][i].a)
    {
      NamedFirst(env, calls, 0, logs[0][i].a);
    }
  }

  lemma NothingCovered(env: Env, reg: Registry)
    ensures AllCovered(env, reg, [], [])
  {
  }

  // ---- the segments of a settlement ----------------------------------------------------------------

  /** Everyone a segment's calls give to is named in that segment by then, and its trace builds. */
  ghost predicate PartProves(p: Prover, calls: seq<Call>, done: seq<Done>, seg: K.Segment)
    requires |done| == |calls| && seg.lo <= seg.hi <= |calls|
  {
    var part := CallsOf(done[seg.lo..seg.hi]);
    AllCovered(p.env, map[], calls[seg.lo..seg.hi], LogsOf(part)) && TraceBuilds(p, part)
  }

  /** What a stretch run from a registry of its own has in common with the same stretch of the whole run. */
  lemma PartRuns(p: Prover, s: State, reg: Registry, part: seq<Call>)
    requires Span(p.env, s.(reg := reg), part).Some?
    ensures var whole := Span(p.env, s.(reg := reg), part).value;
            var own := Span(p.env, Fresh(s), part);
            && |whole.done| == |part|
            && (own.Some? <==> AllCovered(p.env, map[], part, LogsOf(CallsOf(whole.done))))
            && (own.Some? ==> CallsOf(own.value.done) == CallsOf(whole.done)
                              && own.value.post.(reg := whole.post.reg) == whole.post)
  {
    hide Span, AllCovered;
    assert Fresh(s).(reg := reg) == s.(reg := reg);
    SpanNarrows(p.env, Fresh(s), reg, part);
    var own, whole := Span(p.env, Fresh(s), part), Span(p.env, s.(reg := reg), part).value;
    if own.Some? {
      SpanExtends(p.env, Fresh(s), reg, part);
      forall i | 0 <= i < |whole.done| ensures own.value.done[i].call == whole.done[i].call {
        assert SameDone(own.value.done[i], whole.done[i]);
      }
    }
  }

  lemma PartProved(p: Prover, s: State, reg: Registry, part: seq<Call>)
    requires Span(p.env, s.(reg := reg), part).Some?
    ensures var whole := Span(p.env, s.(reg := reg), part).value;
            && |whole.done| == |part|
            && (EpochOf(p, s, part).Some? <==>
                AllCovered(p.env, map[], part, LogsOf(CallsOf(whole.done))) && TraceBuilds(p, CallsOf(whole.done)))
  {
    hide Span, AllCovered, TraceBuilds, RootOf;
    PartRuns(p, s, reg, part);
  }

  lemma PartIs(p: Prover, calls: seq<Call>, done: seq<Done>, seg: K.Segment)
    requires |done| == |calls| && seg.lo <= seg.hi <= |calls|
    ensures var part := CallsOf(done[seg.lo..seg.hi]);
            PartProves(p, calls, done, seg) <==>
            AllCovered(p.env, map[], calls[seg.lo..seg.hi], LogsOf(part)) && TraceBuilds(p, part)
  {
  }

  /** A run cut in two, with what each part recorded. */
  lemma RunCut(env: Env, s: State, calls: seq<Call>, from: nat, mid: nat, done: seq<Done>)
    requires from <= mid <= |calls| == |done|
    requires Span(env, s, calls[from..]).Some? && Span(env, s, calls[from..]).value.done == done[from..]
    ensures Span(env, s, calls[from..mid]).Some? && Span(env, s, calls[from..mid]).value.done == done[from..mid]
    ensures var post := Span(env, s, calls[from..mid]).value.post;
            Span(env, post, calls[mid..]).Some? && Span(env, post, calls[mid..]).value.done == done[mid..]
  {
    hide Span;
    var part, rest := calls[from..mid], calls[mid..];
    assert calls[from..] == part + rest;
    SpanConcat(env, s, part, rest);
    SpanLength(env, s, part);
    var a := Span(env, s, part).value;
    var b := Span(env, a.post, rest).value;
    assert (a.done + b.done)[..|part|] == a.done && (a.done + b.done)[|part|..] == b.done;
    assert done[from..][..mid - from] == done[from..mid] && done[from..][mid - from..] == done[mid..];
  }

  ghost predicate AllProve(p: Prover, calls: seq<Call>, done: seq<Done>, cuts: seq<K.Segment>)
    requires |done| == |calls| && Within(cuts, |calls|)
  {
    forall k :: 0 <= k < |cuts| ==> PartProves(p, calls, done, cuts[k])
  }

  lemma ProveFirst(p: Prover, calls: seq<Call>, done: seq<Done>, cuts: seq<K.Segment>)
    requires |done| == |calls| && Within(cuts, |calls|) && cuts != []
    ensures Within(cuts[1..], |calls|)
    ensures AllProve(p, calls, done, cuts) <==>
              PartProves(p, calls, done, cuts[0]) && AllProve(p, calls, done, cuts[1..])
  {
    hide PartProves;
    assert forall k :: 0 < k < |cuts| ==> cuts[1..][k - 1] == cuts[k];
  }

  /** The second pass goes through if and only if every segment does by itself. */
  lemma {:induction false} SegmentsExact(p: Prover, s: State, reg: Registry, calls: seq<Call>, cuts: seq<K.Segment>,
                                         from: nat, done: seq<Done>)
    requires from <= |calls| == |done| && Cover(cuts, from, |calls|)
    requires Span(p.env, s.(reg := reg), calls[from..]).Some?
    requires Span(p.env, s.(reg := reg), calls[from..]).value.done == done[from..]
    ensures Segments(p, s, calls, cuts).Some? <==> AllProve(p, calls, done, cuts)
    decreases |cuts|
  {
    hide Span, EpochOf, Segments, PartProves, AllProve, AllCovered, TraceBuilds, LogsOf, CallsOf;
    SegmentsStep(p, s, calls, cuts);
    ProveFirst(p, calls, done, cuts);
    var mid := cuts[0].hi;
    var part := calls[from..mid];
    RunCut(p.env, s.(reg := reg), calls, from, mid, done);
    PartProved(p, s, reg, part);
    PartIs(p, calls, done, cuts[0]);
    if EpochOf(p, s, part).Some? {
      EpochRoots(p, s, part);
      PartRuns(p, s, reg, part);
      var own, whole := Span(p.env, Fresh(s), part).value, Span(p.env, s.(reg := reg), part).value;
      if |cuts| == 1 {
        assert cuts[1..] == [];
        NoSegments(p, own.post, calls);
        NothingProves(p, calls, done);
      } else {
        CoverRest(cuts, from, |calls|);
        SegmentsExact(p, own.post, whole.post.reg, calls, cuts[1..], mid, done);
      }
    }
  }

  lemma NothingProves(p: Prover, calls: seq<Call>, done: seq<Done>)
    requires |done| == |calls|
    ensures AllProve(p, calls, done, [])
  {
  }

  /** The first pass runs, and every call fits a segment of its own; the segmenter cuts at `cuts`. */
  ghost predicate Cut(p: Prover, s: State, calls: seq<Call>, max: nat, cuts: seq<K.Segment>) {
    && Span(p.env, Fresh(s), calls).Some?
    && var costs := CostsOf(p, Span(p.env, Fresh(s), calls).value.done);
       && (forall i :: 0 <= i < |costs| ==> K.Alone(costs[i], max))
       && Packs(costs, calls, max, cuts)
  }

  lemma CutCovers(p: Prover, s: State, calls: seq<Call>, max: nat, cuts: seq<K.Segment>)
    requires Cut(p, s, calls, max, cuts)
    ensures |Span(p.env, Fresh(s), calls).value.done| == |calls| && Cover(cuts, 0, |calls|)
  {
    hide Span, K.Greedy;
  }

  /** What prove_settlement needs beyond its first pass: every packed segment to prove by itself. */
  lemma ProvedExact(p: Prover, s: State, calls: seq<Call>, max: nat, cuts: seq<K.Segment>, r: Option<Bundle>)
    requires Cut(p, s, calls, max, cuts) && Proved(p, s, calls, max, r)
    ensures |Span(p.env, Fresh(s), calls).value.done| == |calls| && Cover(cuts, 0, |calls|)
    ensures r.Some? <==> AllProve(p, calls, Span(p.env, Fresh(s), calls).value.done, cuts)
  {
    hide Span, Segments, AllProve, K.Greedy, K.Alone, RootOf;
    CutCovers(p, s, calls, max, cuts);
    var done := Span(p.env, Fresh(s), calls).value.done;
    var costs := CostsOf(p, done);
    var got :| Packs(costs, calls, max, got) && r == BundleOf(p, s, calls, got);
    K.PackingUnique(costs, max, 0, got, cuts);
    assert calls[0..] == calls && done[0..] == done && s.(reg := map[]) == Fresh(s);
    SegmentsExact(p, s, map[], calls, cuts, 0, done);
  }

  // ---- in terms of the calls -----------------------------------------------------------------------

  /** Everyone a segment's calls give to is named in that segment by then, and its argument vectors fit one table. */
  ghost predicate PartNamed(p: Prover, calls: seq<Call>, done: seq<Done>, seg: K.Segment)
    requires |done| == |calls| && seg.lo <= seg.hi <= |calls|
  {
    var part := CallsOf(done[seg.lo..seg.hi]);
    AllCovered(p.env, map[], calls[seg.lo..seg.hi], LogsOf(part)) && ArgTotal(part) <= K.MAX_ROWS
  }

  predicate AllValid(done: seq<Done>) {
    forall i :: 0 <= i < |done| ==> ValidCode(done[i].call.code)
  }

  lemma {:induction false} SpanSucceeds(env: Env, s: State, calls: seq<Call>, i: nat)
    requires Span(env, s, calls).Some? && i < |Span(env, s, calls).value.done|
    ensures var c := Span(env, s, calls).value.done[i].call;
            Execute(c.code, c.pub.name, c.ctx, c.slots).Success?
    decreases |calls|
  {
    hide CallStep, Run;
    CallRanOn(env, s, calls[0]);
    if i > 0 { SpanSucceeds(env, CallStep(env, s, calls[0]).value.post, calls[1..], i - 1); }
  }

  /** With valid code, a packed segment proves exactly when it is named and its arguments fit. */
  lemma PartExact(p: Prover, s: State, calls: seq<Call>, max: nat, cuts: seq<K.Segment>, k: nat)
    requires Cut(p, s, calls, max, cuts) && max <= K.MAX_ROWS && k < |cuts|
    requires AllValid(Span(p.env, Fresh(s), calls).value.done)
    requires OneText(p, CallsOf(Span(p.env, Fresh(s), calls).value.done))
    ensures |Span(p.env, Fresh(s), calls).value.done| == |calls| && cuts[k].lo <= cuts[k].hi <= |calls|
    ensures var done := Span(p.env, Fresh(s), calls).value.done;
            PartProves(p, calls, done, cuts[k]) <==> PartNamed(p, calls, done, cuts[k])
  {
    hide Span, AllCovered, TraceBuilds, OneText, K.IsPacking, K.Alone, Execute, ValidCode;
    CutCovers(p, s, calls, max, cuts);
    var done := Span(p.env, Fresh(s), calls).value.done;
    var ecs := CallsOf(done);
    forall i | 0 <= i < |ecs| ensures Provable(ecs[i]) && K.Alone(CostOf(p, ecs[i]), max) {
      SpanSucceeds(p.env, Fresh(s), calls, i);
      assert CostsOf(p, done)[i] == CostOf(p, ecs[i]);
    }
    assert K.Costs(Loads(p, ecs)) == CostsOf(p, done);
    PackedSegmentBuilds(p, ecs, max, cuts, k);
    assert ecs[cuts[k].lo..cuts[k].hi] == CallsOf(done[cuts[k].lo..cuts[k].hi]);
  }

  lemma {:induction false} SegmentWith(cuts: seq<K.Segment>, from: nat, n: nat, i: nat) returns (k: nat)
    requires Cover(cuts, from, n) && from <= i < n
    ensures k < |cuts| && cuts[k].lo <= i < cuts[k].hi
    decreases |cuts|
  {
    if i < cuts[0].hi {
      k := 0;
    } else {
      CoverRest(cuts, from, n);
      k := SegmentWith(cuts[1..], cuts[0].hi, n, i);
      k := k + 1;
    }
  }

  lemma ProvesValid(p: Prover, calls: seq<Call>, done: seq<Done>, seg: K.Segment, i: nat)
    requires |done| == |calls| && seg.lo <= i < seg.hi <= |calls| && PartProves(p, calls, done, seg)
    ensures ValidCode(done[i].call.code)
  {
    hide ValidCode, AllCovered, K.TraceFits, Execute;
    var part := CallsOf(done[seg.lo..seg.hi]);
    assert TraceBuilds(p, part) && part[i - seg.lo] == done[i].call;
  }

  /** Settlements, exactly: once the first pass runs and every call fits a segment by itself, prove_settlement returns a
    * bundle if and only if all code is valid, everyone a call gives to is named by a call of the same segment by then,
    * and no segment's argument vectors overflow the trace. */
  lemma ProvedWhen(p: Prover, s: State, calls: seq<Call>, max: nat, cuts: seq<K.Segment>, r: Option<Bundle>)
    requires Cut(p, s, calls, max, cuts) && Proved(p, s, calls, max, r) && max <= K.MAX_ROWS
    requires OneText(p, CallsOf(Span(p.env, Fresh(s), calls).value.done))
    ensures |Span(p.env, Fresh(s), calls).value.done| == |calls| && Within(cuts, |calls|)
    ensures var done := Span(p.env, Fresh(s), calls).value.done;
            r.Some? <==> AllValid(done) && forall k :: 0 <= k < |cuts| ==> PartNamed(p, calls, done, cuts[k])
  {
    hide Span, Packs, Proved, OneText, PartProves, PartNamed, ValidCode;
    ProvedExact(p, s, calls, max, cuts, r);
    var done := Span(p.env, Fresh(s), calls).value.done;
    if AllProve(p, calls, done, cuts) {
      forall i | 0 <= i < |done| ensures ValidCode(done[i].call.code) {
        var k := SegmentWith(cuts, 0, |calls|, i);
        ProvesValid(p, calls, done, cuts[k], i);
      }
    }
    if AllValid(done) {
      forall k | 0 <= k < |cuts| ensures PartProves(p, calls, done, cuts[k]) <==> PartNamed(p, calls, done, cuts[k]) {
        PartExact(p, s, calls, max, cuts, k);
      }
    }
  }
}
