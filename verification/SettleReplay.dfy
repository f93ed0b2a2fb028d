/**
 The verifier's replay of a log against the ledgers' reading of it. Which logs a replay accepts is told position by
 position, and what it collects is what the settlement reads out of the same log.
 */
module SettleReplay {
  import opened Options
  import opened Field
  import opened ZkVM
  import opened ZkStorage
  import opened SettleLog
  import opened SettleRead
  import R = ZkReplay

  // ---- which logs are accepted ---------------------------------------------------------------------

  /** What is demanded of one entry, looking back: nothing after a return, a use right after a selection, a selection
    * right before a mint, a storage read that is right, and no asset 0. */
  predicate Fits(withAssets: bool, before: map<Elem, Elem>, log: seq<Entry>, i: nat)
    requires i < |log|
  {
    var e := log[i];
    && (i > 0 ==> log[i - 1].kind != IO_RET)
    && (i > 0 && log[i - 1].kind == IO_ASEL ==> Uses(log, i))
    && (e.kind == IO_AMINT ==> Uses(log, i))
    && (e.kind == IO_SLOAD ==> e.b == Value(log[..i], before, e.a))
    && (R.AssetKind(e.kind) ==> withAssets)
    && (e.kind == IO_ASEL || e.kind == IO_ABURN || e.kind == IO_ABAL || e.kind == IO_ARENOUNCE ==> e.a != 0)
    && (e.kind == IO_ASEL || e.kind == IO_ARENOUNCE ==> e.b == 0)
  }

  ghost predicate AllFit(withAssets: bool, before: map<Elem, Elem>, log: seq<Entry>) {
    forall i :: 0 <= i < |log| ==> Fits(withAssets, before, log, i)
  }

  /** The native payments, zero ones included. */
  function BarePays(log: seq<Entry>): seq<(Elem, Elem)> {
    if log == [] then []
    else
      var n := |log| - 1;
      BarePays(log[..n])
      + if log[n].kind == IO_PAY && !Uses(log, n) then [(log[n].a, log[n].b)] else []
  }

  /** The block and epoch reads. */
  function ChainReads(log: seq<Entry>): seq<Entry> {
    if log == [] then []
    else
      var n := |log| - 1;
      ChainReads(log[..n]) + if log[n].kind == IO_BHASH || log[n].kind == IO_BEACON then [log[n]] else []
  }

  /** The asset intents: burns, reads, renounces, and payments and mints of a selected asset. */
  function Intents(log: seq<Entry>): seq<R.Effect> {
    if log == [] then []
    else
      var n := |log| - 1;
      Intents(log[..n]) + IntentAt(log, n)
  }

  function IntentAt(log: seq<Entry>, i: nat): seq<R.Effect>
    requires i < |log|
  {
    var e := log[i];
    match e.kind
    case IO_ABURN => [R.BurnEffect(e.a, e.b)]
    case IO_ABAL => [R.BalEffect(e.a, e.b)]
    case IO_ARENOUNCE => [R.RenounceEffect(e.a)]
    case IO_PAY => if Uses(log, i) then [R.PayEffect(log[i - 1].a, e.a, e.b)] else []
    case IO_AMINT => if Uses(log, i) then [R.MintEffect(log[i - 1].a, e.a, e.b)] else []
    case _ => []
  }

  /** Where the replay stands after a log that fits. */
  ghost predicate Stands(before: map<Elem, Elem>, log: seq<Entry>, r: R.Rep) {
    && Holds(log, before, r.st)
    && r.payouts == BarePays(log) && r.chain == ChainReads(log) && r.effects == Intents(log)
    && r.sel == (if log != [] && log[|log| - 1].kind == IO_ASEL then log[|log| - 1].a else 0)
    && r.ret == (if log != [] && log[|log| - 1].kind == IO_RET then Some(log[|log| - 1].a) else None)
    && (log != [] && log[|log| - 1].kind == IO_ASEL ==> log[|log| - 1].a != 0)
  }

  lemma FitsPush(withAssets: bool, before: map<Elem, Elem>, log: seq<Entry>, e: Entry)
    ensures AllFit(withAssets, before, log + [e]) <==>
              AllFit(withAssets, before, log) && Fits(withAssets, before, log + [e], |log|)
  {
    var grown := log + [e];
    forall i | 0 <= i < |log| ensures Fits(withAssets, before, grown, i) <==> Fits(withAssets, before, log, i) {
      assert grown[..i] == log[..i];
    }
  }

  lemma StepFits(withAssets: bool, before: map<Elem, Elem>, log: seq<Entry>, r: R.Rep, e: Entry)
    requires Stands(before, log, r)
    ensures R.ReplayStep(withAssets, r, e).Some? <==> Fits(withAssets, before, log + [e], |log|)
    ensures R.ReplayStep(withAssets, r, e).Some? ==> Stands(before, log + [e], R.ReplayStep(withAssets, r, e).value)
  {
    hide Holds, Value, Store, BarePays, ChainReads, Intents;
    var grown := log + [e];
    assert grown[..|log|] == log;
    LoadIs(log, before, r.st, e.a);
    HoldsPush(log, e, before, r.st);
    ListsPush(log, e);
    assert Uses(grown, |log|) <==>
             log != [] && log[|log| - 1].kind == IO_ASEL && (e.kind == IO_PAY || e.kind == IO_AMINT);
  }

  lemma ListsPush(log: seq<Entry>, e: Entry)
    ensures BarePays(log + [e]) ==
            BarePays(log) + if e.kind == IO_PAY && !Uses(log + [e], |log|) then [(e.a, e.b)] else []
    ensures ChainReads(log + [e]) ==
            ChainReads(log) + if e.kind == IO_BHASH || e.kind == IO_BEACON then [e] else []
    ensures Intents(log + [e]) == Intents(log) + IntentAt(log + [e], |log|)
  {
    assert (log + [e])[..|log|] == log;
  }

  lemma {:induction false} FoldFits(withAssets: bool, before: map<Elem, Elem>, log: seq<Entry>)
    ensures R.ReplayFold(withAssets, log, before).Some? <==> AllFit(withAssets, before, log)
    ensures R.ReplayFold(withAssets, log, before).Some? ==>
              Stands(before, log, R.ReplayFold(withAssets, log, before).value)
    decreases |log|
  {
    hide R.ReplayStep, Fits, Stands, AllFit;
    if log == [] {
      NothingStands(withAssets, before);
    } else {
      var init, e := log[..|log| - 1], log[|log| - 1];
      assert log == init + [e];
      FoldFits(withAssets, before, init);
      FitsPush(withAssets, before, init, e);
      if R.ReplayFold(withAssets, init, before).Some? {
        StepFits(withAssets, before, init, R.ReplayFold(withAssets, init, before).value, e);
      }
    }
  }

  lemma NothingStands(withAssets: bool, before: map<Elem, Elem>)
    ensures Stands(before, [], R.Fresh(before)) && AllFit(withAssets, before, [])
  {
  }

  /** A replay accepts exactly the logs that end in a return and fit position by position; it then returns what was
    * returned, the storage the log amounts to, and its native payments, chain reads and asset intents in order. */
  lemma ReplayExactly(withAssets: bool, before: map<Elem, Elem>, log: seq<Entry>)
    ensures R.ReplayIo(withAssets, log, before).Some? <==>
              log != [] && log[|log| - 1].kind == IO_RET && AllFit(withAssets, before, log)
    ensures R.ReplayIo(withAssets, log, before).Some? ==>
              var r := R.ReplayIo(withAssets, log, before).value;
              && r.ret == Some(log[|log| - 1].a) && Holds(log, before, r.st)
              && r.payouts == BarePays(log) && r.chain == ChainReads(log) && r.effects == Intents(log)
  {
    hide R.ReplayFold, AllFit, Holds;
    FoldFits(withAssets, before, log);
  }

  // ---- what the settlement reads in the same log ---------------------------------------------------

  /** An intent with its recipient looked up. */
  function Resolved(reg: Registry, e: R.Effect): Effect {
    match e
    case PayEffect(a, to, n) => Pay(a, if to in reg then Some(reg[to]) else None, n)
    case MintEffect(a, to, n) => Mint(a, if to in reg then Some(reg[to]) else None, n)
    case BurnEffect(a, n) => Burn(a, n)
    case BalEffect(a, v) => Bal(a, v)
    case RenounceEffect(a) => Renounce(a)
  }

  function ResolveAll(reg: Registry, es: seq<R.Effect>): seq<Effect> {
    seq(|es|, i requires 0 <= i < |es| => Resolved(reg, es[i]))
  }

  /** Payments of something, each recipient looked up. */
  function PaidOut(reg: Registry, ps: seq<(Elem, Elem)>): seq<(Addr, Elem)>
    requires Payable(reg, ps)
  {
    if ps == [] then []
    else (if ps[0].1 > 0 then [(reg[ps[0].0], ps[0].1)] else []) + PaidOut(reg, ps[1..])
  }

  predicate Payable(reg: Registry, ps: seq<(Elem, Elem)>) {
    forall p :: p in ps ==> p.1 > 0 ==> p.0 in reg
  }

  lemma {:induction false} PaidOutConcat(reg: Registry, x: seq<(Elem, Elem)>, y: seq<(Elem, Elem)>)
    ensures Payable(reg, x + y) <==> Payable(reg, x) && Payable(reg, y)
    ensures Payable(reg, x + y) ==> PaidOut(reg, x + y) == PaidOut(reg, x) + PaidOut(reg, y)
  {
    assert forall p :: p in x + y <==> p in x || p in y;
    if x == [] {
      assert x + y == y;
    } else {
      assert (x + y)[0] == x[0] && (x + y)[1..] == x[1..] + y;
      PaidOutConcat(reg, x[1..], y);
    }
  }

  /** Reading on from a place where no selection is pending. */
  lemma {:induction false} ReadOn(log: seq<Entry>, m: nat)
    requires m <= |log| && (m > 0 ==> log[m - 1].kind != IO_ASEL)
    ensures BarePays(log) == BarePays(log[..m]) + BarePays(log[m..])
    ensures Intents(log) == Intents(log[..m]) + Intents(log[m..])
    decreases |log|
  {
    hide BarePays, Intents, IntentAt, Uses;
    if m == |log| {
      assert log[..m] == log && log[m..] == [];
      NoneRead();
    } else {
      var n := |log| - 1;
      var init, rest := log[..n], log[m..];
      assert init[..m] == log[..m] && rest[..n - m] == init[m..];
      ReadOn(init, m);
      ReadLast(log);
      ReadLast(rest);
      SameIntent(log, m);
    }
  }

  lemma ReadLast(log: seq<Entry>)
    requires log != []
    ensures var n := |log| - 1;
            && BarePays(log) ==
               BarePays(log[..n]) + (if log[n].kind == IO_PAY && !Uses(log, n) then [(log[n].a, log[n].b)] else [])
            && Intents(log) == Intents(log[..n]) + IntentAt(log, n)
  {
  }

  lemma NoneRead()
    ensures BarePays([]) == [] && Intents([]) == []
  {
  }

  lemma SameIntent(log: seq<Entry>, m: nat)
    requires m < |log| && (m > 0 ==> log[m - 1].kind != IO_ASEL)
    ensures Uses(log, |log| - 1) <==> Uses(log[m..], |log| - 1 - m)
    ensures IntentAt(log, |log| - 1) == IntentAt(log[m..], |log| - 1 - m)
  {
  }

  /** The first thing in an accepted log, read both ways. */
  lemma FirstBoth(reg: Registry, log: seq<Entry>) returns (here: Parsed)
    requires log != [] && Grammar(reg, log)
    ensures First(log) <= |log| && log[First(log) - 1].kind != IO_ASEL && Grammar(reg, log[First(log)..])
    ensures Meaning(reg, log) == Join(here, Meaning(reg, log[First(log)..]))
    ensures var x := log[..First(log)];
            && here.effects == ResolveAll(reg, Intents(x))
            && Payable(reg, BarePays(x)) && here.payouts == PaidOut(reg, BarePays(x))
  {
    hide Grammar, Meaning;
    Unfold(reg, log);
    hide BarePays, Intents, Payable, PaidOut, ResolveAll;
    var e := log[0];
    if e.kind == IO_ASEL {
      here := Parsed([], [Chosen(reg, e.a, log[1])]);
      assert log[..2] == [e, log[1]];
      TwoBoth(reg, e, log[1]);
    } else {
      here := SettleLog.Plain(reg, e);
      assert log[..1] == [e];
      OneBoth(reg, e);
    }
  }

  lemma OneBoth(reg: Registry, e: Entry)
    requires e.kind != IO_ASEL && e.kind != IO_AMINT && (e.kind == IO_PAY ==> e.b == 0 || e.a in reg)
    ensures SettleLog.Plain(reg, e).effects == ResolveAll(reg, Intents([e]))
    ensures Payable(reg, BarePays([e])) && SettleLog.Plain(reg, e).payouts == PaidOut(reg, BarePays([e]))
  {
    hide BarePays, Intents;
    OneRead(e);
    if e.kind == IO_PAY { OnePaid(reg, e.a, e.b); }
  }

  lemma TwoBoth(reg: Registry, e: Entry, f: Entry)
    requires e.kind == IO_ASEL && Taker(f.kind)
    ensures [Chosen(reg, e.a, f)] == ResolveAll(reg, Intents([e, f]))
    ensures Payable(reg, BarePays([e, f])) && PaidOut(reg, BarePays([e, f])) == []
  {
    hide BarePays, Intents;
    TwoRead(e, f);
  }

  lemma OneRead(e: Entry)
    ensures BarePays([e]) == (if e.kind == IO_PAY then [(e.a, e.b)] else []) && Intents([e]) == IntentAt([e], 0)
  {
    hide IntentAt;
    assert [e][..0] == [];
  }

  lemma TwoRead(e: Entry, f: Entry)
    requires e.kind == IO_ASEL && Taker(f.kind)
    ensures BarePays([e, f]) == []
    ensures Intents([e, f]) == [if f.kind == IO_PAY then R.PayEffect(e.a, f.a, f.b) else R.MintEffect(e.a, f.a, f.b)]
  {
    OneRead(e);
    assert [e, f][..1] == [e];
  }

  lemma OnePaid(reg: Registry, a: Elem, b: Elem)
    requires b > 0 ==> a in reg
    ensures Payable(reg, [(a, b)]) && PaidOut(reg, [(a, b)]) == if b > 0 then [(reg[a], b)] else []
  {
    assert [(a, b)][1..] == [];
  }

  lemma NothingToRead(reg: Registry)
    ensures ResolveAll(reg, Intents([])) == [] && Payable(reg, BarePays([])) && PaidOut(reg, BarePays([])) == []
  {
  }

  /** The ledgers read out of a log what the replay collects from it: its intents with recipients looked up, and its
    * payments of something. */
  lemma {:induction false} ReadsCollected(reg: Registry, log: seq<Entry>)
    requires Grammar(reg, log)
    ensures Meaning(reg, log).effects == ResolveAll(reg, Intents(log))
    ensures Payable(reg, BarePays(log)) && Meaning(reg, log).payouts == PaidOut(reg, BarePays(log))
    decreases |log|
  {
    hide Grammar, Meaning, Intents, BarePays, PaidOut, Payable;
    if log == [] {
      EmptyLog(reg);
      NothingToRead(reg);
    } else {
      var n := First(log);
      var here := FirstBoth(reg, log);
      ReadsCollected(reg, log[n..]);
      ReadOn(log, n);
      PaidOutConcat(reg, BarePays(log[..n]), BarePays(log[n..]));
    }
  }

  /** Every native payment of the first n entries goes to a known address. */
  predicate KnownPays(reg: Registry, log: seq<Entry>, n: nat)
    requires n <= |log|
  {
    forall i :: 0 <= i < n ==> Bare(log, i) ==> log[i].a in reg
  }

  lemma KnownPrefix(reg: Registry, log: seq<Entry>, n: nat)
    requires n < |log|
    ensures KnownPays(reg, log, n) <==> KnownPays(reg, log[..n], n)
    ensures KnownPays(reg, log, n + 1) <==> KnownPays(reg, log, n) && (Bare(log, n) ==> log[n].a in reg)
  {
    assert forall i :: 0 <= i < n ==> (Bare(log, i) <==> Bare(log[..n], i));
  }

  lemma {:induction false} BareIn(reg: Registry, log: seq<Entry>)
    ensures Payable(reg, BarePays(log)) <==> KnownPays(reg, log, |log|)
  {
    hide BarePays, KnownPays, Payable, PaidOut;
    if log == [] {
      NothingKnown(reg);
    } else {
      var n := |log| - 1;
      BareIn(reg, log[..n]);
      ReadLast(log);
      KnownPrefix(reg, log, n);
      LastKnown(reg, log, n);
    }
  }

  lemma NothingKnown(reg: Registry)
    ensures Payable(reg, BarePays([])) && KnownPays(reg, [], 0)
  {
  }

  lemma LastKnown(reg: Registry, log: seq<Entry>, n: nat)
    requires n < |log|
    ensures var last := if log[n].kind == IO_PAY && !Uses(log, n) then [(log[n].a, log[n].b)] else [];
            Payable(reg, BarePays(log[..n]) + last) <==>
              Payable(reg, BarePays(log[..n])) && (Bare(log, n) ==> log[n].a in reg)
  {
    hide BarePays, PaidOut;
    var last := if log[n].kind == IO_PAY && !Uses(log, n) then [(log[n].a, log[n].b)] else [];
    PaidOutConcat(reg, BarePays(log[..n]), last);
  }

  /** A log that a replay accepts settles exactly when it pays known addresses, then by what the replay collected. */
  lemma ReplaySplits(reg: Registry, before: map<Elem, Elem>, log: seq<Entry>)
    requires R.ReplayIo(true, log, before).Some?
    ensures var r := R.ReplayIo(true, log, before).value;
            && (Split(reg, log).Some? <==> Payable(reg, r.payouts))
            && (Payable(reg, r.payouts) ==>
                  Split(reg, log) == Some(Parsed(PaidOut(reg, r.payouts), ResolveAll(reg, r.effects))))
  {
    hide R.ReplayIo, Grammar, Meaning, BarePays, Intents, PaidOut, Payable, Value;
    ReplayExactly(true, before, log);
    BareIn(reg, log);
    ReadExactly(reg, log);
    forall i | 0 <= i < |log| ensures EntryOk(reg, log, i) <==> (Bare(log, i) ==> log[i].a in reg) {
      assert Fits(true, before, log, i);
      if i + 1 < |log| { assert Fits(true, before, log, i + 1); }
    }
    if Grammar(reg, log) { ReadsCollected(reg, log); }
  }
}
