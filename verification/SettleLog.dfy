/**
 What a call's I/O log means to the ledgers (runtimes.split_io), and how an epoch's log falls apart into its calls'
 logs (the RET split of settlement_proofs.verify_epoch).
 */
module SettleLog {
  import opened Options
  import opened Field
  import opened ZkVM
  import R = ZkReplay

  type Addr = string
  type Registry = map<Elem, Addr>

  datatype Effect =
    | Pay(asset: Elem, to: Option<Addr>, amount: Elem)
    | Mint(asset: Elem, to: Option<Addr>, amount: Elem)
    | Burn(asset: Elem, amount: Elem)
    | Bal(asset: Elem, value: Elem)
    | Renounce(asset: Elem)

  datatype Parsed = Parsed(payouts: seq<(Addr, Elem)>, effects: seq<Effect>)

  function Find(reg: Registry, digest: Elem): Option<Addr> {
    if digest in reg then Some(reg[digest]) else None
  }

  // ---- the grammar ---------------------------------------------------------------------------------

  predicate Taker(kind: Kind) {
    kind == IO_PAY || kind == IO_AMINT
  }

  /**
   The accepted logs: a non-zero selection is followed at once by the PAY or AMINT that uses it, no AMINT stands
   alone, and a bare payment of more than nothing names a known address.
   */
  predicate Grammar(reg: Registry, log: seq<Entry>) {
    if log == [] then true
    else
      var e := log[0];
      match e.kind
      case IO_ASEL => e.a != 0 && |log| > 1 && Taker(log[1].kind) && Grammar(reg, log[2..])
      case IO_AMINT => false
      case IO_PAY => (e.b == 0 || e.a in reg) && Grammar(reg, log[1..])
      case _ => Grammar(reg, log[1..])
  }

  function Plain(reg: Registry, e: Entry): Parsed
    requires e.kind == IO_PAY ==> e.b == 0 || e.a in reg
  {
    match e.kind
    case IO_PAY => Parsed(if e.b == 0 then [] else [(reg[e.a], e.b)], [])
    case IO_ABURN => Parsed([], [Burn(e.a, e.b)])
    case IO_ABAL => Parsed([], [Bal(e.a, e.b)])
    case IO_ARENOUNCE => Parsed([], [Renounce(e.a)])
    case _ => Parsed([], [])
  }

  function Chosen(reg: Registry, sel: Elem, e: Entry): Effect {
    if e.kind == IO_AMINT then Mint(sel, Find(reg, e.a), e.b) else Pay(sel, Find(reg, e.a), e.b)
  }

  function Join(x: Parsed, y: Parsed): Parsed {
    Parsed(x.payouts + y.payouts, x.effects + y.effects)
  }

  /** The payouts and effects of an accepted log, in order. */
  function Meaning(reg: Registry, log: seq<Entry>): Parsed
    requires Grammar(reg, log)
  {
    if log == [] then Parsed([], [])
    else if log[0].kind == IO_ASEL then
      Join(Parsed([], [Chosen(reg, log[0].a, log[1])]), Meaning(reg, log[2..]))
    else Join(Plain(reg, log[0]), Meaning(reg, log[1..]))
  }

  lemma JoinAssociative(x: Parsed, y: Parsed, z: Parsed)
    ensures Join(Join(x, y), z) == Join(x, Join(y, z))
  {
  }

  /** One entry, or one selection with its use, off the front. */
  lemma Unfold(reg: Registry, log: seq<Entry>)
    requires log != []
    ensures log[0].kind == IO_ASEL ==>
              (Grammar(reg, log) <==>
                log[0].a != 0 && |log| > 1 && Taker(log[1].kind) && Grammar(reg, log[2..]))
    ensures log[0].kind == IO_ASEL && Grammar(reg, log) ==>
              Meaning(reg, log) == Join(Parsed([], [Chosen(reg, log[0].a, log[1])]), Meaning(reg, log[2..]))
    ensures log[0].kind == IO_AMINT ==> !Grammar(reg, log)
    ensures log[0].kind == IO_PAY ==>
              (Grammar(reg, log) <==> (log[0].b == 0 || log[0].a in reg) && Grammar(reg, log[1..]))
    ensures log[0].kind != IO_ASEL && !Taker(log[0].kind) ==> (Grammar(reg, log) <==> Grammar(reg, log[1..]))
    ensures log[0].kind != IO_ASEL && Grammar(reg, log) ==>
              Meaning(reg, log) == Join(Plain(reg, log[0]), Meaning(reg, log[1..]))
  {
  }

  lemma EmptyLog(reg: Registry)
    ensures Grammar(reg, []) && Meaning(reg, []) == Parsed([], [])
  {
  }

  function Split(reg: Registry, log: seq<Entry>): Option<Parsed> {
    if Grammar(reg, log) then Some(Meaning(reg, log)) else None
  }

  /** What split_io's loop still owes at position i, with its pending selection in front. */
  ghost function Rest(io: seq<Entry>, i: nat, sel: Elem): seq<Entry>
    requires i <= |io| && (sel != 0 ==> i > 0)
  {
    if sel == 0 then io[i..] else io[i - 1..]
  }

  /** The loop's invariant: the log is what has been collected, then what is left. */
  ghost predicate Owed(reg: Registry, io: seq<Entry>, i: nat, sel: Elem, done: Parsed) {
    && i <= |io|
    && (sel != 0 ==> i > 0 && io[i - 1].kind == IO_ASEL && io[i - 1].a == sel)
    && (Grammar(reg, io) <==> Grammar(reg, Rest(io, i, sel)))
    && (Grammar(reg, io) ==> Meaning(reg, io) == Join(done, Meaning(reg, Rest(io, i, sel))))
  }

  lemma OwedPlain(reg: Registry, io: seq<Entry>, i: nat, done: Parsed)
    requires Owed(reg, io, i, 0, done) && i < |io|
    requires io[i].kind != IO_ASEL && io[i].kind != IO_AMINT
    requires io[i].kind == IO_PAY ==> io[i].b == 0 || io[i].a in reg
    ensures Owed(reg, io, i + 1, 0, Join(done, Plain(reg, io[i])))
  {
    hide Grammar, Meaning;
    Unfold(reg, io[i..]);
    assert io[i..][1..] == io[i + 1..];
    if Grammar(reg, io) {
      JoinAssociative(done, Plain(reg, io[i]), Meaning(reg, io[i + 1..]));
    }
  }

  lemma OwedSelect(reg: Registry, io: seq<Entry>, i: nat, done: Parsed)
    requires Owed(reg, io, i, 0, done) && i < |io|
    requires io[i].kind == IO_ASEL && io[i].a != 0
    ensures Owed(reg, io, i + 1, io[i].a, done)
  {
  }

  lemma OwedUse(reg: Registry, io: seq<Entry>, i: nat, sel: Elem, done: Parsed)
    requires Owed(reg, io, i, sel, done) && i < |io| && sel != 0
    requires Taker(io[i].kind)
    ensures Owed(reg, io, i + 1, 0, Join(done, Parsed([], [Chosen(reg, sel, io[i])])))
  {
    hide Grammar, Meaning;
    Unfold(reg, io[i - 1..]);
    assert io[i - 1..][1] == io[i] && io[i - 1..][2..] == io[i + 1..];
    if Grammar(reg, io) {
      JoinAssociative(done, Parsed([], [Chosen(reg, sel, io[i])]), Meaning(reg, io[i + 1..]));
    }
  }

  /** Where the loop gives up. */
  predicate Broken(reg: Registry, io: seq<Entry>, i: nat, sel: Elem)
    requires i <= |io|
  {
    if i == |io| then sel != 0
    else if sel != 0 then !Taker(io[i].kind)
    else
      || (io[i].kind == IO_ASEL && io[i].a == 0)
      || io[i].kind == IO_AMINT
      || (io[i].kind == IO_PAY && io[i].b > 0 && io[i].a !in reg)
  }

  lemma OwedBroken(reg: Registry, io: seq<Entry>, i: nat, sel: Elem, done: Parsed)
    requires Owed(reg, io, i, sel, done) && Broken(reg, io, i, sel)
    ensures !Grammar(reg, io)
  {
    hide Grammar, Meaning;
    var rest := Rest(io, i, sel);
    Unfold(reg, rest);
    if sel != 0 && i < |io| { assert rest[1] == io[i]; }
  }

  method SplitIo(io: seq<Entry>, reg: Registry) returns (r: Option<Parsed>)
    ensures r == Split(reg, io)
  {
    hide Owed, Grammar, Meaning;
    var payouts: seq<(Addr, Elem)>, effects: seq<Effect>, sel: Elem := [], [], 0;
    OwedStart(reg, io);
    for i := 0 to |io|
      invariant Owed(reg, io, i, sel, Parsed(payouts, effects))
    {
      var e := io[i];
      ghost var done := Parsed(payouts, effects);
      if Broken(reg, io, i, sel) {
        OwedBroken(reg, io, i, sel, done);
      } else if sel != 0 {
        OwedUse(reg, io, i, sel, done);
      } else if e.kind == IO_ASEL {
        OwedSelect(reg, io, i, done);
      } else {
        OwedPlain(reg, io, i, done);
      }
      if sel != 0 && e.kind != IO_PAY && e.kind != IO_AMINT {
        return None;
      }
      match e.kind {
        case IO_ASEL =>
          if e.a == 0 {
            return None;
          }
          sel := e.a;
        case IO_PAY =>
          if sel != 0 {
            effects := effects + [Pay(sel, Find(reg, e.a), e.b)];
            sel := 0;
          } else if e.b > 0 {
            if e.a !in reg {
              return None;
            }
            payouts := payouts + [(reg[e.a], e.b)];
          }
        case IO_AMINT =>
          if sel == 0 {
            return None;
          }
          effects := effects + [Mint(sel, Find(reg, e.a), e.b)];
          sel := 0;
        case IO_ABURN => effects := effects + [Burn(e.a, e.b)];
        case IO_ABAL => effects := effects + [Bal(e.a, e.b)];
        case IO_ARENOUNCE => effects := effects + [Renounce(e.a)];
        case _ =>
      }
      JoinEmpty(done);
    }
    OwedEnd(reg, io, sel, Parsed(payouts, effects));
    if sel != 0 {
      return None;
    }
    r := Some(Parsed(payouts, effects));
  }

  lemma JoinEmpty(x: Parsed)
    ensures Join(x, Parsed([], [])) == x && Join(Parsed([], []), x) == x
  {
    assert x.payouts + [] == x.payouts && x.effects + [] == x.effects;
    assert [] + x.payouts == x.payouts && [] + x.effects == x.effects;
  }

  lemma OwedStart(reg: Registry, io: seq<Entry>)
    ensures Owed(reg, io, 0, 0, Parsed([], []))
  {
    hide Grammar, Meaning;
    assert io[0..] == io;
    if Grammar(reg, io) { JoinEmpty(Meaning(reg, io)); }
  }

  lemma OwedEnd(reg: Registry, io: seq<Entry>, sel: Elem, done: Parsed)
    requires Owed(reg, io, |io|, sel, done)
    ensures Split(reg, io) == if sel != 0 then None else Some(done)
  {
    hide Grammar, Meaning;
    if sel != 0 {
      OwedBroken(reg, io, |io|, sel, done);
    } else {
      assert io[|io|..] == [];
      EmptyLog(reg);
      JoinEmpty(done);
    }
  }

  /** An accepted log can be cut off the front of any log without changing what the rest means. */
  lemma {:induction false} SplitConcat(reg: Registry, x: seq<Entry>, y: seq<Entry>)
    requires Grammar(reg, x)
    ensures Grammar(reg, x + y) <==> Grammar(reg, y)
    ensures Grammar(reg, y) ==> Meaning(reg, x + y) == Join(Meaning(reg, x), Meaning(reg, y))
  {
    hide Grammar, Meaning;
    if x == [] {
      EmptyLog(reg);
      assert x + y == y;
    } else {
      Unfold(reg, x);
      Unfold(reg, x + y);
      if x[0].kind == IO_ASEL {
        SplitConcat(reg, x[2..], y);
        assert (x + y)[2..] == x[2..] + y;
        if Grammar(reg, y) {
          JoinAssociative(Parsed([], [Chosen(reg, x[0].a, x[1])]), Meaning(reg, x[2..]), Meaning(reg, y));
        }
      } else {
        SplitConcat(reg, x[1..], y);
        assert (x + y)[1..] == x[1..] + y;
        if Grammar(reg, y) {
          JoinAssociative(Plain(reg, x[0]), Meaning(reg, x[1..]), Meaning(reg, y));
        }
      }
    }
  }

  lemma {:induction false} PayoutsPositive(reg: Registry, log: seq<Entry>, i: nat)
    requires Grammar(reg, log) && i < |Meaning(reg, log).payouts|
    ensures Meaning(reg, log).payouts[i].1 > 0
  {
    if log[0].kind == IO_ASEL {
      PayoutsPositive(reg, log[2..], i);
    } else {
      var here := |Plain(reg, log[0]).payouts|;
      if i >= here { PayoutsPositive(reg, log[1..], i - here); }
    }
  }

  predicate RenouncesAt(log: seq<Entry>, i: nat, a: Elem) {
    i < |log| && log[i].kind == IO_ARENOUNCE && log[i].a == a
  }

  predicate Renounces(log: seq<Entry>, a: Elem) {
    exists i :: 0 <= i < |log| && RenouncesAt(log, i, a)
  }

  /** An accepted log means to renounce an asset exactly when it says so. */
  lemma {:induction false} RenouncesMeant(reg: Registry, log: seq<Entry>, a: Elem)
    requires Grammar(reg, log)
    ensures Renounces(log, a) <==> Renounce(a) in Meaning(reg, log).effects
  {
    hide Grammar, Meaning;
    if log == [] {
      EmptyLog(reg);
    } else {
      Unfold(reg, log);
      if log[0].kind == IO_ASEL {
        RenouncesMeant(reg, log[2..], a);
        RenouncesLater(log, 2, a);
      } else {
        RenouncesMeant(reg, log[1..], a);
        RenouncesLater(log, 1, a);
      }
    }
  }

  lemma RenouncesLater(log: seq<Entry>, n: nat, a: Elem)
    requires n <= |log| && forall i :: 1 <= i < n ==> log[i].kind != IO_ARENOUNCE
    requires n > 0
    ensures Renounces(log, a) <==> RenouncesAt(log, 0, a) || Renounces(log[n..], a)
  {
    if Renounces(log, a) && !RenouncesAt(log, 0, a) {
      var i :| 0 <= i < |log| && RenouncesAt(log, i, a);
      assert RenouncesAt(log[n..], i - n, a);
    }
    if Renounces(log[n..], a) {
      var i :| 0 <= i < |log[n..]| && RenouncesAt(log[n..], i, a);
      assert RenouncesAt(log, i + n, a);
    }
  }

  // ---- a larger registry ---------------------------------------------------------------------------

  /** The same effect, except that a recipient unknown on the left may be known on the right. */
  predicate SameIntent(e: Effect, f: Effect) {
    match e
    case Pay(a, None, n) => f.Pay? && f.asset == a && f.amount == n
    case Mint(a, None, n) => f.Mint? && f.asset == a && f.amount == n
    case _ => e == f
  }

  predicate SameIntents(es: seq<Effect>, fs: seq<Effect>) {
    |es| == |fs| && forall i :: 0 <= i < |es| ==> SameIntent(es[i], fs[i])
  }

  predicate Extends(small: Registry, big: Registry) {
    forall d :: d in small ==> d in big && big[d] == small[d]
  }

  /** A log read under a registry reads the same under any extension, up to recipients it could not resolve. */
  lemma {:induction false} SplitExtends(small: Registry, big: Registry, log: seq<Entry>)
    requires Extends(small, big) && Grammar(small, log)
    ensures Grammar(big, log)
    ensures Meaning(big, log).payouts == Meaning(small, log).payouts
    ensures SameIntents(Meaning(small, log).effects, Meaning(big, log).effects)
  {
    if log != [] {
      if log[0].kind == IO_ASEL {
        SplitExtends(small, big, log[2..]);
        assert SameIntent(Chosen(small, log[0].a, log[1]), Chosen(big, log[0].a, log[1]));
      } else {
        SplitExtends(small, big, log[1..]);
      }
    }
  }

  // ---- the epoch log -------------------------------------------------------------------------------

  function Concat(logs: seq<seq<Entry>>): seq<Entry> {
    if logs == [] then [] else logs[0] + Concat(logs[1..])
  }

  predicate CallLogs(logs: seq<seq<Entry>>) {
    forall i :: 0 <= i < |logs| ==> R.EndsInRet(logs[i])
  }

  /** The loop of verify_epoch: cut after every RET. What follows the last RET belongs to no call. */
  method CutAtRets(log: seq<Entry>) returns (segs: seq<seq<Entry>>, tail: seq<Entry>)
    ensures log == Concat(segs) + tail
    ensures CallLogs(segs) && R.NoRet(tail)
  {
    segs, tail := [], [];
    for i := 0 to |log|
      invariant log[..i] == Concat(segs) + tail
      invariant CallLogs(segs) && R.NoRet(tail)
    {
      assert log[..i + 1] == log[..i] + [log[i]];
      ghost var before := tail;
      tail := tail + [log[i]];
      if log[i].kind == IO_RET {
        assert tail[..|tail| - 1] == before;
        ConcatPush(segs, tail);
        segs := segs + [tail];
        tail := [];
      }
    }
    assert log[..|log|] == log;
  }

  lemma {:induction false} ConcatPush(logs: seq<seq<Entry>>, last: seq<Entry>)
    ensures Concat(logs + [last]) == Concat(logs) + last
  {
    if logs == [] {
      assert logs + [last] == [last];
      assert Concat([last][1..]) == [];
    } else {
      ConcatPush(logs[1..], last);
      assert (logs + [last])[1..] == logs[1..] + [last];
    }
  }

  predicate RetAt(log: seq<Entry>, k: nat) {
    k < |log| && log[k].kind == IO_RET && R.NoRet(log[..k])
  }

  lemma OneFirstRet(log: seq<Entry>, j: nat, k: nat)
    requires RetAt(log, j) && RetAt(log, k)
    ensures j == k
  {
  }

  /** A log has one such cut, so cutting an epoch's log undoes concatenating the calls' logs. */
  lemma {:induction false} CutIsUnique(xs: seq<seq<Entry>>, s: seq<Entry>, ys: seq<seq<Entry>>, t: seq<Entry>)
    requires CallLogs(xs) && CallLogs(ys) && R.NoRet(s) && R.NoRet(t)
    requires Concat(xs) + s == Concat(ys) + t
    ensures xs == ys && s == t
  {
    var log := Concat(xs) + s;
    if xs != [] { FirstRet(xs, s); }
    if ys != [] { FirstRet(ys, t); }
    if xs == [] || ys == [] {
      assert [] + s == s && [] + t == t;
    } else {
      OneFirstRet(log, |xs[0]| - 1, |ys[0]| - 1);
      var n := |xs[0]|;
      assert xs[0] == log[..n] == ys[0];
      assert log[n..] == Concat(xs[1..]) + s == Concat(ys[1..]) + t;
      CutIsUnique(xs[1..], s, ys[1..], t);
      assert xs == [xs[0]] + xs[1..] && ys == [ys[0]] + ys[1..];
    }
  }

  lemma FirstRet(xs: seq<seq<Entry>>, s: seq<Entry>)
    requires CallLogs(xs) && xs != []
    ensures |xs[0]| > 0 && RetAt(Concat(xs) + s, |xs[0]| - 1)
    ensures !R.NoRet(Concat(xs) + s)
  {
    var log, n := Concat(xs) + s, |xs[0]|;
    assert R.EndsInRet(xs[0]);
    assert log[..n - 1] == xs[0][..n - 1];
    assert log[n - 1] == xs[0][n - 1];
  }
}
