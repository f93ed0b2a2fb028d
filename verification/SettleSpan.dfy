/** Whole spans: running calls in order, what a span does to the ledgers, and which registry it needs. */
module SettleSpan {
  import opened Options
  import opened Field
  import opened Sums
  import opened ZkVM
  import opened SettleLog
  import opened SettleCall
  import A = SettleAssets

  datatype Ran = Ran(post: State, done: seq<Done>)

  /** Every call in order on the same state; None as soon as one raises. */
  function Span(env: Env, s: State, calls: seq<Call>): Option<Ran>
    decreases |calls|
  {
    if calls == [] then Some(Ran(s, []))
    else
      var d :- CallStep(env, s, calls[0]);
      var rest :- Span(env, d.post, calls[1..]);
      Some(Ran(rest.post, [d] + rest.done))
  }

  lemma {:induction false} SpanLength(env: Env, s: State, calls: seq<Call>)
    requires Span(env, s, calls).Some?
    ensures |Span(env, s, calls).value.done| == |calls|
    decreases |calls|
  {
    hide CallStep;
    if calls != [] { SpanLength(env, CallStep(env, s, calls[0]).value.post, calls[1..]); }
  }

  /** A span runs exactly when its first part does and then its second. */
  lemma {:induction false} SpanConcat(env: Env, s: State, x: seq<Call>, y: seq<Call>)
    ensures Span(env, s, x + y) ==
            match Span(env, s, x)
            case None => None
            case Some(a) =>
              match Span(env, a.post, y)
              case None => None
              case Some(b) => Some(Ran(b.post, a.done + b.done))
    decreases |x|
  {
    hide CallStep;
    if x == [] {
      assert x + y == y;
      if Span(env, s, y).Some? { assert [] + Span(env, s, y).value.done == Span(env, s, y).value.done; }
    } else {
      assert (x + y)[0] == x[0] && (x + y)[1..] == x[1..] + y;
      var d := CallStep(env, s, x[0]);
      if d.Some? {
        SpanConcat(env, d.value.post, x[1..], y);
        var a := Span(env, d.value.post, x[1..]);
        if a.Some? && Span(env, a.value.post, y).Some? {
          var b := Span(env, a.value.post, y).value;
          assert [d.value] + (a.value.done + b.done) == [d.value] + a.value.done + b.done;
        }
      }
    }
  }

  lemma SpanPush(env: Env, s: State, x: seq<Call>, call: Call)
    ensures Span(env, s, x + [call]) ==
            match Span(env, s, x)
            case None => None
            case Some(a) =>
              match CallStep(env, a.post, call)
              case None => None
              case Some(d) => Some(Ran(d.post, a.done + [d]))
  {
    hide CallStep;
    SpanConcat(env, s, x, [call]);
    assert [call][0] == call && [call][1..] == [];
    if Span(env, s, x).Some? {
      var d := CallStep(env, Span(env, s, x).value.post, call);
      if d.Some? { assert [d.value] + [] == [d.value]; }
    }
  }

  /** A span fails when one of its prefixes does. */
  lemma SpanFails(env: Env, s: State, calls: seq<Call>, n: nat)
    requires n <= |calls| && Span(env, s, calls[..n]).None?
    ensures Span(env, s, calls).None?
  {
    hide Span;
    SpanConcat(env, s, calls[..n], calls[n..]);
    assert calls[..n] + calls[n..] == calls;
  }

  /** settlement_proofs.first_unprovable_call */
  method FirstUnprovable(env: Env, s: State, calls: seq<Call>) returns (r: Option<nat>)
    ensures r.None? <==> Span(env, s, calls).Some?
    ensures r.Some? ==>
              r.value < |calls| && Span(env, s, calls[..r.value]).Some? && Span(env, s, calls[..r.value + 1]).None?
  {
    hide CallStep;
    var shadow := new Shadow(s);
    ghost var done: seq<Done> := [];
    for i := 0 to |calls|
      invariant Span(env, s, calls[..i]) == Some(Ran(shadow.Now(), done))
    {
      SpanPush(env, s, calls[..i], calls[i]);
      assert calls[..i] + [calls[i]] == calls[..i + 1];
      var d := shadow.RunCall(env, calls[i]);
      if d.None? {
        SpanFails(env, s, calls, i + 1);
        return Some(i);
      }
      done := done + [d.value];
    }
    assert calls[..|calls|] == calls;
    r := None;
  }

  // ---- the ledgers over a span ---------------------------------------------------------------------

  /** A move of amt from one row to another, as one row sees it. */
  function Moved(from: Addr, to: Addr, amt: int, a: Addr): int {
    (if a == to then amt else 0) - (if a == from then amt else 0)
  }

  lemma TransferMoves(b: Bridge, from: Addr, to: Addr, amt: int, a: Addr)
    ensures Get(Transfer(b, from, to, amt), a) == Get(b, a) + Moved(from, to, amt, a)
  {
  }

  lemma TransferKeeps(b: Bridge, from: Addr, to: Addr, amt: int)
    requires Positive(b) && 0 < amt <= Get(b, from)
    ensures Positive(Transfer(b, from, to, amt)) && Total(Transfer(b, from, to, amt)) == Total(b)
  {
    var debited := Put(b, from, Get(b, from) - amt);
    TotalPut(b, from, Get(b, from) - amt);
    TotalPut(debited, to, Get(debited, to) + amt);
  }

  /** One line of the records half: a signed change to a bridge balance. */
  datatype Record = Record(row: Addr, delta: int)

  function Debited(cid: Addr, to: Addr, amt: int): seq<Record> {
    [Record(cid, -amt), Record(to, amt)]
  }

  /** The records effects of one call's payouts: a debit of the contract and a credit of the payee for each. */
  function CallEffects(cid: Addr, payouts: seq<(Addr, Elem)>): seq<Record> {
    if payouts == [] then []
    else
      (if payouts[0].1 <= 0 then [] else Debited(cid, payouts[0].0, payouts[0].1))
      + CallEffects(cid, payouts[1..])
  }

  function SpanEffects(done: seq<Done>): seq<Record> {
    if done == [] then [] else CallEffects(done[0].call.pub.cid, done[0].payouts) + SpanEffects(done[1..])
  }

  /** The sum of a list of effects at one row. */
  function At(effects: seq<Record>, a: Addr): int {
    if effects == [] then 0 else (if effects[0].row == a then effects[0].delta else 0) + At(effects[1..], a)
  }

  lemma {:induction false} AtConcat(x: seq<Record>, y: seq<Record>, a: Addr)
    ensures At(x + y, a) == At(x, a) + At(y, a)
  {
    if x == [] {
      assert x + y == y;
    } else {
      AtConcat(x[1..], y, a);
      assert (x + y)[1..] == x[1..] + y;
    }
  }

  /** The escrow of one call, as one native row sees it. */
  function EscrowAt(call: PublicCall, a: Addr): int {
    if call.value > 0 && call.asset == 0 then Moved(call.caller, call.cid, call.value, a) else 0
  }

  function EscrowsAt(done: seq<Done>, a: Addr): int {
    if done == [] then 0 else EscrowAt(done[0].call.pub, a) + EscrowsAt(done[1..], a)
  }

  lemma {:induction false} PayAllMoves(b: Bridge, cid: Addr, payouts: seq<(Addr, Elem)>, a: Addr)
    ensures Get(PayAll(b, cid, payouts), a) == Get(b, a) + At(CallEffects(cid, payouts), a)
    decreases |payouts|
  {
    hide Transfer, At;
    if payouts != [] {
      var (to, amt) := payouts[0];
      TransferMoves(b, cid, to, amt, a);
      PayAllMoves(Transfer(b, cid, to, amt), cid, payouts[1..], a);
      if amt > 0 {
        AtConcat(Debited(cid, to, amt), CallEffects(cid, payouts[1..]), a);
        AtPair(cid, to, amt, a);
      } else {
        assert [] + CallEffects(cid, payouts[1..]) == CallEffects(cid, payouts[1..]);
      }
    } else {
      assert At([], a) == 0 by { AtNothing(a); }
    }
  }

  lemma AtNothing(a: Addr)
    ensures At([], a) == 0
  {
  }

  lemma AtPair(cid: Addr, to: Addr, amt: int, a: Addr)
    ensures At(Debited(cid, to, amt), a) == Moved(cid, to, amt, a)
  {
    assert Debited(cid, to, amt)[1..] == [Record(to, amt)];
    assert [Record(to, amt)][1..] == [];
    AtNothing(a);
  }

  lemma {:induction false} PayAllKeeps(b: Bridge, cid: Addr, payouts: seq<(Addr, Elem)>)
    requires Positive(b) && TotalOwed(payouts) <= Get(b, cid)
    requires forall i :: 0 <= i < |payouts| ==> payouts[i].1 > 0
    ensures Positive(PayAll(b, cid, payouts)) && Total(PayAll(b, cid, payouts)) == Total(b)
    decreases |payouts|
  {
    if payouts != [] {
      var (to, amt) := payouts[0];
      OwedNatural(payouts[1..]);
      TransferKeeps(b, cid, to, amt);
      TransferMoves(b, cid, to, amt, cid);
      PayAllKeeps(Transfer(b, cid, to, amt), cid, payouts[1..]);
    }
  }

  lemma {:induction false} OwedNatural(payouts: seq<(Addr, Elem)>)
    ensures TotalOwed(payouts) >= 0
  {
    if payouts != [] { OwedNatural(payouts[1..]); }
  }

  /** What a call does, one ledger at a time. */
  /** The log of a call that has run. */
  function OutLog(out: Outcome): seq<Entry> {
    if out.Success? then out.io else []
  }

  lemma CallParts(env: Env, s: State, call: Call)
    returns (purse: Purse, log: Parsed, reg: Registry)
    requires CallStep(env, s, call).Some?
    ensures var d := CallStep(env, s, call).value;
            && Escrow(s.bridge, s.assets, d.call.pub) == Some(purse)
            && Grammar(reg, OutLog(d.out)) && Meaning(reg, OutLog(d.out)) == log
            && d.payouts == log.payouts
            && ApplyPayouts(purse.bridge, d.call.pub.cid, log.payouts) == Some(d.post.bridge)
            && Settle(purse.assets, d.call.pub.cid, log.effects) == Some(d.post.assets)
  {
    hide Digest, Escrow, A.View, Run, Grammar, Meaning, ApplyPayouts, Settle;
    var d := CallStep(env, s, call).value;
    purse := Escrow(s.bridge, s.assets, d.call.pub).value;
    reg := d.post.reg;
    log := Meaning(reg, OutLog(d.out));
  }

  lemma CallMoves(env: Env, s: State, call: Call, a: Addr)
    requires CallStep(env, s, call).Some?
    ensures var d := CallStep(env, s, call).value;
            Get(d.post.bridge, a) ==
            Get(s.bridge, a) + EscrowAt(d.call.pub, a) + At(CallEffects(d.call.pub.cid, d.payouts), a)
  {
    var d := CallStep(env, s, call).value;
    hide CallStep, Grammar, Meaning, PayAll, CallEffects, At, Settle;
    var purse, log, _ := CallParts(env, s, call);
    PayAllMoves(purse.bridge, d.call.pub.cid, log.payouts, a);
    if d.call.pub.value > 0 && d.call.pub.asset == 0 {
      TransferMoves(s.bridge, d.call.pub.caller, d.call.pub.cid, d.call.pub.value, a);
    }
  }

  lemma CallKeeps(env: Env, s: State, call: Call)
    requires CallStep(env, s, call).Some? && Positive(s.bridge) && A.Sound(s.assets)
    ensures var post := CallStep(env, s, call).value.post;
            Positive(post.bridge) && Total(post.bridge) == Total(s.bridge) && A.Sound(post.assets)
  {
    var d := CallStep(env, s, call).value;
    hide CallStep, Grammar, Meaning, ApplyPayouts, A.Sound, Escrow, Settle, Total, Positive;
    var purse, log, reg := CallParts(env, s, call);
    EscrowKeeps(s.bridge, s.assets, d.call.pub);
    PayoutsKeep(purse.bridge, d.call.pub.cid, reg, OutLog(d.out));
    SettleKeeps(purse.assets, d.call.pub.cid, log.effects);
  }

  lemma PayoutsKeep(b: Bridge, cid: Addr, reg: Registry, io: seq<Entry>)
    requires Positive(b) && Grammar(reg, io) && ApplyPayouts(b, cid, Meaning(reg, io).payouts).Some?
    ensures var paid := ApplyPayouts(b, cid, Meaning(reg, io).payouts).value;
            Positive(paid) && Total(paid) == Total(b)
  {
    hide Grammar, Meaning, Positive, Total;
    var payouts := Meaning(reg, io).payouts;
    forall i | 0 <= i < |payouts| ensures payouts[i].1 > 0 {
      PayoutsPositive(reg, io, i);
    }
    PayAllKeeps(b, cid, payouts);
  }

  lemma EscrowKeeps(b: Bridge, l: A.Assets, pub: PublicCall)
    requires Positive(b) && A.Sound(l) && Escrow(b, l, pub).Some?
    ensures var purse := Escrow(b, l, pub).value;
            Positive(purse.bridge) && Total(purse.bridge) == Total(b) && A.Sound(purse.assets)
  {
    hide A.Sound, A.Escrow, Transfer;
    if pub.value > 0 {
      if pub.asset == 0 {
        TransferKeeps(b, pub.caller, pub.cid, pub.value);
      } else {
        A.EscrowSound(l, pub.asset, pub.caller, pub.cid, pub.value);
      }
    }
  }

  lemma SettleKeeps(l: A.Assets, cid: Addr, effects: seq<Effect>)
    requires A.Sound(l) && Settle(l, cid, effects).Some?
    ensures A.Sound(Settle(l, cid, effects).value)
  {
    hide A.Sound, A.Stage, A.Commit;
    if effects != [] { A.CommitSound(l, cid, effects); }
  }

  /** Ledger refinement: a native balance after the span is the balance before, plus the call escrows, plus the
    * effects the dry run reports. */
  lemma {:induction false} SpanMoves(env: Env, s: State, calls: seq<Call>, a: Addr)
    requires Span(env, s, calls).Some?
    ensures var r := Span(env, s, calls).value;
            Get(r.post.bridge, a) == Get(s.bridge, a) + EscrowsAt(r.done, a) + At(SpanEffects(r.done), a)
    decreases |calls|
  {
    hide CallStep, CallEffects, At, EscrowAt;
    if calls != [] {
      var d := CallStep(env, s, calls[0]).value;
      var rest := Span(env, d.post, calls[1..]).value;
      CallMoves(env, s, calls[0], a);
      SpanMoves(env, d.post, calls[1..], a);
      AtConcat(CallEffects(d.call.pub.cid, d.payouts), SpanEffects(rest.done), a);
      assert ([d] + rest.done)[1..] == rest.done;
    } else {
      AtNothing(a);
    }
  }

  /** Over any span that runs, no native balance goes negative or leaves a zero row, the native total is conserved,
    * and every asset's holders still share out exactly its supply. */
  lemma {:induction false} SpanKeeps(env: Env, s: State, calls: seq<Call>)
    requires Span(env, s, calls).Some? && Positive(s.bridge) && A.Sound(s.assets)
    ensures var post := Span(env, s, calls).value.post;
            Positive(post.bridge) && Total(post.bridge) == Total(s.bridge) && A.Sound(post.assets)
    decreases |calls|
  {
    hide CallStep, A.Sound;
    if calls != [] {
      CallKeeps(env, s, calls[0]);
      SpanKeeps(env, CallStep(env, s, calls[0]).value.post, calls[1..]);
    }
  }

  // ---- sealed assets over a span -------------------------------------------------------------------

  /** From x to y the asset stays known, and its supply does not grow. */
  predicate Falls(x: A.Assets, y: A.Assets, a: Elem) {
    a in x.meta && a in y.meta && y.meta[a].supply <= x.meta[a].supply
  }

  lemma EscrowSeals(b: Bridge, l: A.Assets, pub: PublicCall)
    requires Escrow(b, l, pub).Some?
    ensures Escrow(b, l, pub).value.assets.meta == l.meta
  {
  }

  lemma SettleSeals(l: A.Assets, cid: Addr, effects: seq<Effect>, a: Elem)
    requires a in l.meta && Settle(l, cid, effects).Some?
    ensures var c := Settle(l, cid, effects).value;
            && (A.Sealed(c, a) <==> A.Sealed(l, a) || Renounce(a) in effects)
            && (A.Sealed(l, a) ==> Falls(l, c, a))
  {
    hide A.Stage, A.Commit;
    if effects != [] { A.CommitSeals(l, cid, effects, a); }
  }

  /** A call seals an asset exactly when it renounces it, keeps sealed what was, and never issues a sealed asset. */
  lemma CallSeals(env: Env, s: State, call: Call, a: Elem)
    requires CallStep(env, s, call).Some? && a in s.assets.meta
    ensures var d := CallStep(env, s, call).value;
            && (A.Sealed(d.post.assets, a) <==> A.Sealed(s.assets, a) || Renounces(OutLog(d.out), a))
            && (A.Sealed(s.assets, a) ==> Falls(s.assets, d.post.assets, a))
  {
    var d := CallStep(env, s, call).value;
    hide CallStep, Grammar, Meaning, ApplyPayouts, Escrow, Settle;
    var purse, log, reg := CallParts(env, s, call);
    EscrowSeals(s.bridge, s.assets, d.call.pub);
    SettleSeals(purse.assets, d.call.pub.cid, log.effects, a);
    RenouncesMeant(reg, OutLog(d.out), a);
  }

  /** One-way: over any span a sealed asset stays sealed and its supply never grows. */
  lemma {:induction false} SpanSealed(env: Env, s: State, calls: seq<Call>, a: Elem)
    requires Span(env, s, calls).Some? && A.Sealed(s.assets, a)
    ensures A.Sealed(Span(env, s, calls).value.post.assets, a)
    ensures Falls(s.assets, Span(env, s, calls).value.post.assets, a)
    decreases |calls|
  {
    hide CallStep;
    if calls != [] {
      CallSeals(env, s, calls[0], a);
      SpanSealed(env, CallStep(env, s, calls[0]).value.post, calls[1..], a);
    }
  }

  /** So once a call has renounced an asset, no later call of the span adds to its supply. */
  lemma RenouncedForGood(env: Env, s: State, call: Call, rest: seq<Call>, a: Elem)
    requires CallStep(env, s, call).Some? && Span(env, CallStep(env, s, call).value.post, rest).Some?
    requires a in s.assets.meta && Renounces(OutLog(CallStep(env, s, call).value.out), a)
    ensures var l := Span(env, CallStep(env, s, call).value.post, rest).value.post.assets;
            A.Sealed(l, a) && Falls(CallStep(env, s, call).value.post.assets, l, a)
  {
    hide CallStep, Span, Renounces, Falls, A.Sealed;
    CallSeals(env, s, call, a);
    SpanSealed(env, CallStep(env, s, call).value.post, rest, a);
  }

  // ---- issuers over a span -------------------------------------------------------------------------

  /** The asset's supply has grown, or it has been sealed. */
  predicate IssuerActed(x: A.Assets, y: A.Assets, a: Elem)
    requires a in x.meta && a in y.meta
  {
    y.meta[a].supply > x.meta[a].supply || (A.Sealed(y, a) && !A.Sealed(x, a))
  }

  /** A known asset stays known, with its issuer. */
  predicate SameIssuer(x: A.Assets, y: A.Assets, a: Elem) {
    a in x.meta && a in y.meta && x.meta[a].issuer == y.meta[a].issuer
  }

  lemma CallIssuer(env: Env, s: State, call: Call, a: Elem)
    requires CallStep(env, s, call).Some? && a in s.assets.meta
    ensures var post := CallStep(env, s, call).value.post;
            && SameIssuer(s.assets, post.assets, a)
            && (IssuerActed(s.assets, post.assets, a) ==> s.assets.meta[a].issuer == call.cid)
  {
    var d := CallStep(env, s, call).value;
    assert d.call.pub.cid == call.cid;
    hide CallStep, Grammar, Meaning, ApplyPayouts, Escrow, A.Stage, A.Commit;
    var purse, log, reg := CallParts(env, s, call);
    EscrowSeals(s.bridge, s.assets, d.call.pub);
    if log.effects != [] { A.IssuersBatch(purse.assets, call.cid, log.effects, a); }
  }

  /** Over any span, an asset's supply grows, or it becomes sealed, only through a call of its issuer. */
  lemma {:induction false} SpanIssuer(env: Env, s: State, calls: seq<Call>, a: Elem)
    requires Span(env, s, calls).Some? && a in s.assets.meta
    ensures var post := Span(env, s, calls).value.post;
            && SameIssuer(s.assets, post.assets, a)
            && (IssuerActed(s.assets, post.assets, a) ==>
                  exists i :: 0 <= i < |calls| && calls[i].cid == s.assets.meta[a].issuer)
    decreases |calls|
  {
    hide CallStep, A.Sealed;
    if calls != [] {
      CallIssuer(env, s, calls[0], a);
      var d := CallStep(env, s, calls[0]).value;
      SpanIssuer(env, d.post, calls[1..], a);
      var post := Span(env, s, calls).value.post;
      if IssuerActed(d.post.assets, post.assets, a) {
        var i :| 0 <= i < |calls[1..]| && calls[1..][i].cid == s.assets.meta[a].issuer;
        assert calls[i + 1].cid == s.assets.meta[a].issuer;
      } else if IssuerActed(s.assets, post.assets, a) {
        assert IssuerActed(s.assets, d.post.assets, a);
        assert calls[0].cid == s.assets.meta[a].issuer;
      }
    }
  }

  /** settlement_proofs.span_payout_effects */
  method SpanPayoutEffects(env: Env, s: State, calls: seq<Call>) returns (r: Option<seq<Record>>)
    ensures match Span(env, s, calls)
            case None => r.None?
            case Some(ran) => r == Some(SpanEffects(ran.done))
  {
    assert Sink([]) == [];
    hide CallStep, Span, SpanEffects, CallEffects, Sink, Triples, Listed;
    var shadow := new Shadow(s);
    var sink: seq<Paid> := [];
    ghost var done: seq<Done> := [];
    SpanNothing(env, s);
    for i := 0 to |calls|
      invariant Span(env, s, calls[..i]) == Some(Ran(shadow.Now(), done))
      invariant sink == Sink(done)
    {
      SpanPush(env, s, calls[..i], calls[i]);
      assert calls[..i] + [calls[i]] == calls[..i + 1];
      var d := shadow.RunCall(env, calls[i]);
      if d.None? {
        SpanFails(env, s, calls, i + 1);
        return None;
      }
      var cid, payouts := d.value.call.pub.cid, d.value.payouts;
      sink := sink + Triples(cid, payouts);
      SinkPush(done, d.value);
      done := done + [d.value];
    }
    assert calls[..|calls|] == calls;
    ListedSink(done);
    var out := ListSink(sink);
    r := Some(out);
  }

  method ListSink(sink: seq<Paid>) returns (out: seq<Record>)
    ensures out == Listed(sink)
  {
    hide Listed;
    out := [];
    ListedPush([], Paid("", "", 0));
    for i := 0 to |sink|
      invariant out == Listed(sink[..i])
    {
      ListedPush(sink[..i], sink[i]);
      assert sink[..i] + [sink[i]] == sink[..i + 1];
      var Paid(cid, to, amt) := sink[i];
      if amt <= 0 {
        assert out + [] == out;
        continue;
      }
      ghost var before := out;
      out := out + [Record(cid, -(amt as int))];
      out := out + [Record(to, amt)];
      assert out == before + Debited(cid, to, amt);
    }
    assert sink[..|sink|] == sink;
  }

  lemma ListedPush(sink: seq<Paid>, p: Paid)
    ensures Listed(sink + [p]) == Listed(sink) + Line(p)
    ensures Listed([]) == []
  {
    ListedConcat(sink, [p]);
    assert [p][1..] == [] && Line(p) + [] == Line(p);
  }

  lemma SpanNothing(env: Env, s: State)
    ensures Span(env, s, []) == Some(Ran(s, []))
  {
  }

  datatype Paid = Paid(cid: Addr, to: Addr, amt: Elem)

  /** The (contract, payee, amount) triples collected over a span. */
  function Sink(done: seq<Done>): seq<Paid> {
    if done == [] then []
    else
      var last := done[|done| - 1];
      Sink(done[..|done| - 1]) + Triples(last.call.pub.cid, last.payouts)
  }

  lemma SinkPush(done: seq<Done>, d: Done)
    ensures Sink(done + [d]) == Sink(done) + Triples(d.call.pub.cid, d.payouts)
  {
    assert (done + [d])[..|done|] == done;
  }

  function Triples(cid: Addr, payouts: seq<(Addr, Elem)>): seq<Paid> {
    seq(|payouts|, k requires 0 <= k < |payouts| => Paid(cid, payouts[k].0, payouts[k].1))
  }

  function Line(p: Paid): seq<Record> {
    if p.amt <= 0 then [] else Debited(p.cid, p.to, p.amt)
  }

  function Listed(sink: seq<Paid>): seq<Record> {
    if sink == [] then []
    else
      Line(sink[0]) + Listed(sink[1..])
  }

  lemma {:induction false} ListedConcat(x: seq<Paid>, y: seq<Paid>)
    ensures Listed(x + y) == Listed(x) + Listed(y)
  {
    hide Line;
    if x == [] {
      assert x + y == y && [] + Listed(y) == Listed(y);
    } else {
      ListedConcat(x[1..], y);
      assert (x + y)[0] == x[0] && (x + y)[1..] == x[1..] + y;
      assert Line(x[0]) + (Listed(x[1..]) + Listed(y)) == Line(x[0]) + Listed(x[1..]) + Listed(y);
    }
  }

  lemma {:induction false} ListedTriples(cid: Addr, payouts: seq<(Addr, Elem)>)
    ensures Listed(Triples(cid, payouts)) == CallEffects(cid, payouts)
  {
    if payouts != [] {
      ListedTriples(cid, payouts[1..]);
      assert Triples(cid, payouts)[1..] == Triples(cid, payouts[1..]);
    }
  }

  lemma {:induction false} EffectsPush(done: seq<Done>, d: Done)
    ensures SpanEffects(done + [d]) == SpanEffects(done) + CallEffects(d.call.pub.cid, d.payouts)
  {
    hide CallEffects;
    if done == [] {
      assert done + [d] == [d] && [d][1..] == [];
    } else {
      EffectsPush(done[1..], d);
      assert (done + [d])[1..] == done[1..] + [d];
    }
  }

  lemma {:induction false} ListedSink(done: seq<Done>)
    ensures Listed(Sink(done)) == SpanEffects(done)
  {
    hide CallEffects;
    if done != [] {
      var init, last := done[..|done| - 1], done[|done| - 1];
      assert done == init + [last];
      ListedSink(init);
      SinkPush(init, last);
      ListedConcat(Sink(init), Triples(last.call.pub.cid, last.payouts));
      ListedTriples(last.call.pub.cid, last.payouts);
      EffectsPush(init, last);
    }
  }

  // ---- registries ----------------------------------------------------------------------------------

  lemma {:induction false} DigestExtends(digest: Addr -> Elem, small: Registry, big: Registry, args: seq<Arg>)
    requires Extends(small, big)
    ensures match DigestArgs(digest, small, args)
            case None => DigestArgs(digest, big, args).None?
            case Some(x) =>
              && DigestArgs(digest, big, args).Some?
              && DigestArgs(digest, big, args).value.args == x.args
              && Extends(x.reg, DigestArgs(digest, big, args).value.reg)
    decreases |args|
  {
    if args != [] {
      match args[0]
      case Junk =>
      case Num(n) => DigestExtends(digest, small, big, args[1..]);
      case Text(s) => DigestExtends(digest, small[digest(s) := s], big[digest(s) := s], args[1..]);
    }
  }

  /** The same call on the same ledgers, but for the registry. */
  ghost predicate SameDone(d: Done, e: Done) {
    && e == d.(post := d.post.(reg := e.post.reg))
    && Extends(d.post.reg, e.post.reg)
  }

  /** A call that succeeds under a registry does the same under any extension of it. */
  lemma CallExtends(env: Env, s: State, big: Registry, call: Call)
    requires CallStep(env, s, call).Some? && Extends(s.reg, big)
    ensures CallStep(env, s.(reg := big), call).Some?
    ensures SameDone(CallStep(env, s, call).value, CallStep(env, s.(reg := big), call).value)
  {
    hide DigestArgs, Escrow, A.View, Run, Grammar, Meaning, ApplyPayouts, A.Stage, A.Commit;
    var d := CallStep(env, s, call).value;
    var pub := Publish(env, call);
    var me := env.digest(pub.caller);
    DigestExtends(env.digest, s.reg[me := pub.caller], big[me := pub.caller], pub.args);
    var large := Digest(env.digest, big, pub.caller, pub.args).value;
    SplitExtends(d.post.reg, large.reg, d.out.io);
    var es, fs := Meaning(d.post.reg, d.out.io).effects, Meaning(large.reg, d.out.io).effects;
    var l := Escrow(s.bridge, s.assets, pub).value.assets;
    SettleExtends(l, pub.cid, es, fs);
  }

  lemma SettleExtends(l: A.Assets, cid: Addr, es: seq<Effect>, fs: seq<Effect>)
    requires SameIntents(es, fs) && Settle(l, cid, es).Some?
    ensures Settle(l, cid, fs) == Settle(l, cid, es)
  {
    if es != [] { A.StageSameIntents(l, cid, A.NOTHING, es, fs); }
  }

  ghost predicate SameRun(a: Ran, b: Ran) {
    && b.post == a.post.(reg := b.post.reg)
    && Extends(a.post.reg, b.post.reg)
    && |a.done| == |b.done|
    && forall i :: 0 <= i < |a.done| ==> SameDone(a.done[i], b.done[i])
  }

  /** So a span that succeeds from a fresh registry gives the same ledgers from whatever registry the calls before it
    * left behind. */
  lemma {:induction false} SpanExtends(env: Env, s: State, big: Registry, calls: seq<Call>)
    requires Span(env, s, calls).Some? && Extends(s.reg, big)
    ensures Span(env, s.(reg := big), calls).Some?
    ensures SameRun(Span(env, s, calls).value, Span(env, s.(reg := big), calls).value)
    decreases |calls|
  {
    hide CallStep;
    if calls != [] {
      CallExtends(env, s, big, calls[0]);
      var d, e := CallStep(env, s, calls[0]).value, CallStep(env, s.(reg := big), calls[0]).value;
      SpanExtends(env, d.post, e.post.reg, calls[1..]);
    }
  }
}
