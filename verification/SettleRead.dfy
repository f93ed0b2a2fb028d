/**
 A call's log read position by position: which logs are accepted, and which entry is behind every payout and every
 effect, without the grammar of SettleLog. Then what a call's log does to the native ledger.
 */
module SettleRead {
  import opened Numbers
  import opened Options
  import opened Field
  import opened Sums
  import opened ZkVM
  import opened SettleLog
  import opened SettleCall
  import opened SettleSpan
  import A = SettleAssets

  // ---- positions -----------------------------------------------------------------------------------

  /** The entry uses the selection made by the one before it. */
  predicate Uses(log: seq<Entry>, i: nat) {
    0 < i < |log| && log[i - 1].kind == IO_ASEL && (log[i].kind == IO_PAY || log[i].kind == IO_AMINT)
  }

  /** A native payment of something. */
  predicate Bare(log: seq<Entry>, i: nat) {
    i < |log| && log[i].kind == IO_PAY && log[i].b > 0 && !Uses(log, i)
  }

  predicate Asset(log: seq<Entry>, i: nat) {
    i < |log| &&
    (log[i].kind == IO_ABURN || log[i].kind == IO_ABAL || log[i].kind == IO_ARENOUNCE || Uses(log, i))
  }

  /** What is demanded of one entry: a selection names an asset and is used at once, a mint uses one, and a native
    * payment of something is to a known address. */
  predicate EntryOk(reg: Registry, log: seq<Entry>, i: nat)
    requires i < |log|
  {
    && (log[i].kind == IO_ASEL ==> log[i].a != 0 && Uses(log, i + 1))
    && (log[i].kind == IO_AMINT ==> Uses(log, i))
    && (Bare(log, i) ==> log[i].a in reg)
  }

  predicate LogOk(reg: Registry, log: seq<Entry>) {
    forall i :: 0 <= i < |log| ==> EntryOk(reg, log, i)
  }

  /** The effect an entry stands for. */
  predicate StandsFor(reg: Registry, log: seq<Entry>, i: nat, e: Effect)
    requires Asset(log, i)
  {
    var to := if log[i].a in reg then Some(reg[log[i].a]) else None;
    match log[i].kind
    case IO_ABURN => e.Burn? && e.asset == log[i].a && e.amount == log[i].b
    case IO_ABAL => e.Bal? && e.asset == log[i].a && e.value == log[i].b
    case IO_ARENOUNCE => e.Renounce? && e.asset == log[i].a
    case IO_AMINT => e.Mint? && e.asset == log[i - 1].a && e.to == to && e.amount == log[i].b
    case _ => e.Pay? && e.asset == log[i - 1].a && e.to == to && e.amount == log[i].b
  }

  /** How many entries the first thing in a log takes. */
  function First(log: seq<Entry>): (n: nat)
    requires log != []
    ensures 1 <= n <= 2
  {
    if log[0].kind == IO_ASEL then 2 else 1
  }

  lemma Later(log: seq<Entry>, n: nat, i: nat)
    requires n <= |log| && i < |log| - n && (n > 0 ==> log[n - 1].kind != IO_ASEL)
    ensures Uses(log, n + i) <==> Uses(log[n..], i)
    ensures Bare(log, n + i) <==> Bare(log[n..], i)
    ensures Asset(log, n + i) <==> Asset(log[n..], i)
  {
  }

  lemma LaterOk(reg: Registry, log: seq<Entry>, n: nat)
    requires n <= |log| && (n > 0 ==> log[n - 1].kind != IO_ASEL)
    ensures LogOk(reg, log[n..]) <==> forall i :: n <= i < |log| ==> EntryOk(reg, log, i)
  {
    var rest := log[n..];
    forall i | n <= i < |log| ensures EntryOk(reg, log, i) <==> EntryOk(reg, rest, i - n) {
      Later(log, n, i - n);
      if i + 1 < |log| { Later(log, n, i + 1 - n); }
    }
    if LogOk(reg, rest) {
      forall i | n <= i < |log| ensures EntryOk(reg, log, i) { assert EntryOk(reg, rest, i - n); }
    }
    if forall i :: n <= i < |log| ==> EntryOk(reg, log, i) {
      forall i | 0 <= i < |rest| ensures EntryOk(reg, rest, i) { assert EntryOk(reg, log, n + i); }
    }
  }

  /** The reader accepts a log exactly when every entry is as demanded. */
  lemma {:induction false} ReadExactly(reg: Registry, log: seq<Entry>)
    ensures Grammar(reg, log) <==> LogOk(reg, log)
    decreases |log|
  {
    hide Grammar;
    if log == [] {
      EmptyLog(reg);
    } else {
      Unfold(reg, log);
      var n := First(log);
      if n <= |log| && log[n - 1].kind != IO_ASEL {
        ReadExactly(reg, log[n..]);
        LaterOk(reg, log, n);
      }
      if LogOk(reg, log) { assert EntryOk(reg, log, 0); }
      if Grammar(reg, log) {
        forall i | 0 <= i < |log| ensures EntryOk(reg, log, i) {}
      }
    }
  }

  // ---- which entries are behind what is reported ---------------------------------------------------

  /** The positions, in order, of everything in the log that satisfies `pick`. */
  ghost predicate Lists(at: seq<nat>, log: seq<Entry>, pick: (seq<Entry>, nat) -> bool) {
    Increasing(at) && forall i: nat :: i in at <==> i < |log| && pick(log, i)
  }

  /** The k-th payout is the k-th native payment of something, to whom its digest stands for. */
  ghost predicate PaysAt(reg: Registry, log: seq<Entry>, payouts: seq<(Addr, Elem)>, at: seq<nat>) {
    |at| == |payouts| &&
    forall k :: 0 <= k < |at| ==>
      at[k] < |log| && log[at[k]].a in reg && payouts[k] == (reg[log[at[k]].a], log[at[k]].b)
  }

  ghost predicate ActsAt(reg: Registry, log: seq<Entry>, effects: seq<Effect>, at: seq<nat>) {
    |at| == |effects| &&
    forall k :: 0 <= k < |at| ==> Asset(log, at[k]) && StandsFor(reg, log, at[k], effects[k])
  }

  function Shift(at: seq<nat>, n: nat): (r: seq<nat>)
    ensures |r| == |at|
  {
    seq(|at|, k requires 0 <= k < |at| => at[k] + n)
  }

  lemma ShiftLists(rest: seq<nat>, log: seq<Entry>, n: nat, first: seq<nat>, pick: (seq<Entry>, nat) -> bool)
    requires n <= |log| && Lists(rest, log[n..], pick)
    requires forall i: nat :: i < |log| - n ==> (pick(log, n + i) <==> pick(log[n..], i))
    requires Increasing(first) && forall i: nat :: i in first <==> i < n && pick(log, i)
    ensures Lists(first + Shift(rest, n), log, pick)
  {
    var at := first + Shift(rest, n);
    forall i: nat ensures i in at <==> i < |log| && pick(log, i) {
      if i in Shift(rest, n) {
        var k :| 0 <= k < |rest| && Shift(rest, n)[k] == i;
        assert rest[k] in rest && pick(log, n + rest[k]);
      }
      if n <= i < |log| && pick(log, i) {
        assert pick(log, n + (i - n));
        assert i - n in rest;
        var k :| 0 <= k < |rest| && rest[k] == i - n;
        assert Shift(rest, n)[k] == i;
      }
    }
    forall j, k | 0 <= j < k < |at| ensures at[j] < at[k] {
      if j < |first| <= k { assert at[j] in first; }
    }
  }

  /** One entry, or a selection with its use, in front: at most one payout and one effect, of its last entry. */
  lemma FirstReads(reg: Registry, log: seq<Entry>) returns (here: Parsed, pays: seq<nat>, acts: seq<nat>)
    requires log != [] && Grammar(reg, log)
    ensures First(log) <= |log| && log[First(log) - 1].kind != IO_ASEL && Grammar(reg, log[First(log)..])
    ensures Increasing(pays) && forall i: nat :: i in pays <==> i < First(log) && Bare(log, i)
    ensures Increasing(acts) && forall i: nat :: i in acts <==> i < First(log) && Asset(log, i)
    ensures Meaning(reg, log) == Join(here, Meaning(reg, log[First(log)..]))
    ensures PaysAt(reg, log, here.payouts, pays) && ActsAt(reg, log, here.effects, acts)
  {
    hide Grammar, Meaning;
    Unfold(reg, log);
    here := if log[0].kind == IO_ASEL then Parsed([], [Chosen(reg, log[0].a, log[1])]) else Plain(reg, log[0]);
    var last := First(log) - 1;
    pays := if Bare(log, last) then [last] else [];
    acts := if Asset(log, last) then [last] else [];
  }

  lemma PaysMore(reg: Registry, log: seq<Entry>, n: nat, x: seq<(Addr, Elem)>, first: seq<nat>,
                 y: seq<(Addr, Elem)>, rest: seq<nat>)
    requires n <= |log| && PaysAt(reg, log, x, first) && PaysAt(reg, log[n..], y, rest)
    ensures PaysAt(reg, log, x + y, first + Shift(rest, n))
  {
    var at := first + Shift(rest, n);
    forall k | 0 <= k < |at|
      ensures at[k] < |log| && log[at[k]].a in reg && (x + y)[k] == (reg[log[at[k]].a], log[at[k]].b)
    {
      if k >= |first| { assert log[n..][rest[k - |first|]] == log[at[k]]; }
    }
  }

  lemma ActsMore(reg: Registry, log: seq<Entry>, n: nat, x: seq<Effect>, first: seq<nat>, y: seq<Effect>,
                 rest: seq<nat>)
    requires n <= |log| && (n > 0 ==> log[n - 1].kind != IO_ASEL)
    requires ActsAt(reg, log, x, first) && ActsAt(reg, log[n..], y, rest)
    ensures ActsAt(reg, log, x + y, first + Shift(rest, n))
  {
    var at := first + Shift(rest, n);
    forall k | 0 <= k < |at| ensures Asset(log, at[k]) && StandsFor(reg, log, at[k], (x + y)[k]) {
      if k >= |first| {
        var i := rest[k - |first|];
        Later(log, n, i);
        assert Asset(log[n..], i) && StandsFor(reg, log[n..], i, y[k - |first|]);
      }
    }
  }

  /** The payouts of an accepted log are, in order, exactly its native payments of something, and its effects exactly
    * its burns, reads, renounces and used selections. */
  lemma {:induction false} ReadsPositions(reg: Registry, log: seq<Entry>) returns (pays: seq<nat>, acts: seq<nat>)
    requires Grammar(reg, log)
    ensures Lists(pays, log, Bare) && PaysAt(reg, log, Meaning(reg, log).payouts, pays)
    ensures Lists(acts, log, Asset) && ActsAt(reg, log, Meaning(reg, log).effects, acts)
    decreases |log|
  {
    hide Grammar, Meaning, Lists, PaysAt, ActsAt, Plain, Chosen, Bare, Asset, Shift;
    if log == [] {
      EmptyLog(reg);
      pays, acts := [], [];
      NothingRead(reg);
    } else {
      var n := First(log);
      var here, firstPays, firstActs := FirstReads(reg, log);
      var restPays, restActs := ReadsPositions(reg, log[n..]);
      forall i: nat | i < |log| - n
        ensures (Bare(log, n + i) <==> Bare(log[n..], i)) && (Asset(log, n + i) <==> Asset(log[n..], i))
      {
        Later(log, n, i);
      }
      ShiftLists(restPays, log, n, firstPays, Bare);
      ShiftLists(restActs, log, n, firstActs, Asset);
      var rest := Meaning(reg, log[n..]);
      PaysMore(reg, log, n, here.payouts, firstPays, rest.payouts, restPays);
      ActsMore(reg, log, n, here.effects, firstActs, rest.effects, restActs);
      pays, acts := firstPays + Shift(restPays, n), firstActs + Shift(restActs, n);
    }
  }

  lemma NothingRead(reg: Registry)
    ensures Lists([], [], Bare) && Lists([], [], Asset) && PaysAt(reg, [], [], []) && ActsAt(reg, [], [], [])
  {
  }

  // ---- what a log pays -----------------------------------------------------------------------------

  /** What the first n entries pay natively to an address. */
  function PaidBy(reg: Registry, log: seq<Entry>, n: nat, to: Addr): int
    requires n <= |log|
  {
    if n == 0 then 0
    else
      PaidBy(reg, log, n - 1, to)
      + if Bare(log, n - 1) && log[n - 1].a in reg && reg[log[n - 1].a] == to then log[n - 1].b else 0
  }

  /** What the first n entries pay natively in all. */
  function SpentBy(log: seq<Entry>, n: nat): int
    requires n <= |log|
  {
    if n == 0 then 0 else SpentBy(log, n - 1) + if Bare(log, n - 1) then log[n - 1].b else 0
  }

  function PaidTo(payouts: seq<(Addr, Elem)>, to: Addr): int {
    if payouts == [] then 0 else (if payouts[0].0 == to then payouts[0].1 else 0) + PaidTo(payouts[1..], to)
  }

  lemma {:induction false} PaidConcat(x: seq<(Addr, Elem)>, y: seq<(Addr, Elem)>, to: Addr)
    ensures PaidTo(x + y, to) == PaidTo(x, to) + PaidTo(y, to)
    ensures TotalOwed(x + y) == TotalOwed(x) + TotalOwed(y)
  {
    if x == [] {
      assert x + y == y;
    } else {
      PaidConcat(x[1..], y, to);
      assert (x + y)[0] == x[0] && (x + y)[1..] == x[1..] + y;
    }
  }

  lemma {:induction false} PaidLater(reg: Registry, log: seq<Entry>, m: nat, n: nat, to: Addr)
    requires m + n <= |log| && (m > 0 ==> log[m - 1].kind != IO_ASEL)
    ensures PaidBy(reg, log, m + n, to) == PaidBy(reg, log, m, to) + PaidBy(reg, log[m..], n, to)
    ensures SpentBy(log, m + n) == SpentBy(log, m) + SpentBy(log[m..], n)
    decreases n
  {
    if n > 0 {
      PaidLater(reg, log, m, n - 1, to);
      Later(log, m, n - 1);
    }
  }

  lemma FirstPays(reg: Registry, log: seq<Entry>, to: Addr) returns (here: seq<(Addr, Elem)>)
    requires log != [] && Grammar(reg, log)
    ensures First(log) <= |log| && log[First(log) - 1].kind != IO_ASEL && Grammar(reg, log[First(log)..])
    ensures Meaning(reg, log).payouts == here + Meaning(reg, log[First(log)..]).payouts
    ensures PaidTo(here, to) == PaidBy(reg, log, First(log), to) && TotalOwed(here) == SpentBy(log, First(log))
  {
    hide Grammar, Meaning;
    Unfold(reg, log);
    here := if log[0].kind == IO_ASEL then [] else Plain(reg, log[0]).payouts;
    assert PaidBy(reg, log, 0, to) == 0 && SpentBy(log, 0) == 0;
    assert !Bare(log, 0) ==> here == [];
    if Bare(log, 0) { assert here == [(reg[log[0].a], log[0].b)] && here[1..] == []; }
  }

  /** The sum reported for an address is the sum of the log's native payments to it. */
  lemma {:induction false} ReadsSums(reg: Registry, log: seq<Entry>, to: Addr)
    requires Grammar(reg, log)
    ensures PaidTo(Meaning(reg, log).payouts, to) == PaidBy(reg, log, |log|, to)
    ensures TotalOwed(Meaning(reg, log).payouts) == SpentBy(log, |log|)
    decreases |log|
  {
    hide Grammar, Meaning, PaidBy, SpentBy, PaidTo, TotalOwed;
    if log == [] {
      EmptyLog(reg);
      NothingPaid(reg, to);
    } else {
      var n := First(log);
      var here := FirstPays(reg, log, to);
      ReadsSums(reg, log[n..], to);
      PaidConcat(here, Meaning(reg, log[n..]).payouts, to);
      PaidLater(reg, log, n, |log| - n, to);
    }
  }

  lemma NothingPaid(reg: Registry, to: Addr)
    ensures PaidTo([], to) == 0 && TotalOwed([]) == 0 && PaidBy(reg, [], 0, to) == 0 && SpentBy([], 0) == 0
  {
  }

  lemma {:induction false} EffectsPay(cid: Addr, payouts: seq<(Addr, Elem)>, a: Addr)
    ensures At(CallEffects(cid, payouts), a) == PaidTo(payouts, a) - if a == cid then TotalOwed(payouts) else 0
  {
    hide At;
    if payouts == [] {
      AtNothing(a);
    } else {
      EffectsPay(cid, payouts[1..], a);
      var (to, amt) := payouts[0];
      if amt > 0 {
        AtConcat(Debited(cid, to, amt), CallEffects(cid, payouts[1..]), a);
        AtPair(cid, to, amt, a);
      } else {
        assert [] + CallEffects(cid, payouts[1..]) == CallEffects(cid, payouts[1..]);
      }
    }
  }

  /** What a call does to a native balance: its escrow, plus what its log pays to that address, less -- for the contract
    * -- all that its log pays. */
  lemma CallPays(env: Env, s: State, call: Call, a: Addr)
    requires CallStep(env, s, call).Some?
    ensures var d := CallStep(env, s, call).value;
            d.out.Success? &&
            var log := d.out.io;
            Get(d.post.bridge, a) ==
            Get(s.bridge, a) + EscrowAt(d.call.pub, a) + PaidBy(d.post.reg, log, |log|, a)
            - if a == d.call.pub.cid then SpentBy(log, |log|) else 0
  {
    var d := CallStep(env, s, call).value;
    CallReads(env, s, call);
    hide CallStep, Grammar, Meaning, At, EscrowAt, CallEffects;
    CallMoves(env, s, call, a);
    ReadsSums(d.post.reg, d.out.io, a);
    EffectsPay(d.call.pub.cid, d.payouts, a);
  }

  /** The call's payouts are its log's, under the registry it leaves behind. */
  lemma CallReads(env: Env, s: State, call: Call)
    requires CallStep(env, s, call).Some?
    ensures var d := CallStep(env, s, call).value;
            d.out.Success? && Grammar(d.post.reg, d.out.io) && d.payouts == Meaning(d.post.reg, d.out.io).payouts
  {
    hide Digest, Escrow, A.View, Run, Grammar, Meaning, ApplyPayouts, Settle;
  }

  /** What the call value adds to one row. */
  function EscrowRow(pub: PublicCall, k: A.Row): int {
    if pub.value <= 0 || pub.asset == 0 || k.0 != pub.asset then 0
    else (if k.1 == pub.cid then pub.value else 0) - (if k.1 == pub.caller then pub.value else 0)
  }

  lemma EscrowRows(b: Bridge, l: A.Assets, pub: PublicCall, k: A.Row)
    requires Escrow(b, l, pub).Some?
    ensures Get(Escrow(b, l, pub).value.assets.rows, k) == Get(l.rows, k) + EscrowRow(pub, k)
  {
    hide Transfer;
  }

  /** What a call does to every asset row: the call value, then what the effects of its log say, and nothing else. */
  lemma CallGains(env: Env, s: State, call: Call, k: A.Row)
    requires CallStep(env, s, call).Some?
    ensures var d := CallStep(env, s, call).value;
            d.out.Success? && Grammar(d.post.reg, d.out.io) &&
            Get(d.post.assets.rows, k) ==
            Get(s.assets.rows, k) + EscrowRow(d.call.pub, k)
            + A.Gains(d.call.pub.cid, Meaning(d.post.reg, d.out.io).effects, k)
  {
    hide Digest, Escrow, EscrowRow, A.View, Run, Grammar, Meaning, ApplyPayouts, Settle, A.Gains;
    var d := CallStep(env, s, call).value;
    var pub := d.call.pub;
    EscrowRows(s.bridge, s.assets, pub, k);
    SettleGains(Escrow(s.bridge, s.assets, pub).value.assets, pub.cid, Meaning(d.post.reg, d.out.io).effects, k);
  }

  lemma SettleGains(l: A.Assets, cid: Addr, effects: seq<Effect>, k: A.Row)
    requires Settle(l, cid, effects).Some?
    ensures Get(Settle(l, cid, effects).value.rows, k) == Get(l.rows, k) + A.Gains(cid, effects, k)
  {
    hide A.Stage, A.Commit;
    if effects != [] { A.CommitGains(l, cid, effects, k); }
  }
}
