/** The greedy segmenter of settlement_proofs.prove_settlement, and whether what it packs fits one trace. */
module SettlePacking {
  import opened Options
  import opened Field
  import opened ZkVM
  import R = ZkReplay

  const HEADROOM: nat := 256

  /** MAX_T - 2: two rows short of the longest trace, and the segmenter's default. */
  const MAX_ROWS: nat := 131070

  /** A call as the segmenter sees it: executed rows, the identity of its program object, its program's length. */
  datatype Cost = Cost(rows: nat, prog: nat, size: nat)

  datatype Segment = Segment(lo: nat, hi: nat)

  function Rows(costs: seq<Cost>, lo: nat, hi: nat): nat
    requires lo <= hi <= |costs|
    decreases hi
  {
    if lo == hi then 0 else Rows(costs, lo, hi - 1) + costs[hi - 1].rows
  }

  predicate Seen(costs: seq<Cost>, lo: nat, hi: nat, prog: nat)
    requires lo <= hi <= |costs|
  {
    exists i :: lo <= i < hi && costs[i].prog == prog
  }

  /** The summed lengths of the different programs of a segment. */
  function Sizes(costs: seq<Cost>, lo: nat, hi: nat): nat
    requires lo <= hi <= |costs|
    decreases hi
  {
    if lo == hi then 0
    else
      var c := costs[hi - 1];
      Sizes(costs, lo, hi - 1) + if Seen(costs, lo, hi - 1, c.prog) then 0 else c.size
  }

  /** Rows, different programs and headroom. */
  predicate Fits(costs: seq<Cost>, lo: nat, hi: nat, max: nat)
    requires lo <= hi <= |costs|
  {
    Rows(costs, lo, hi) + Sizes(costs, lo, hi) + HEADROOM <= max
  }

  /** Adding call hi also counts, as log entries, the rows of the calls already there -- but not its own. */
  predicate Joins(costs: seq<Cost>, lo: nat, hi: nat, max: nat)
    requires lo <= hi < |costs|
  {
    Rows(costs, lo, hi + 1) + Sizes(costs, lo, hi + 1) + Rows(costs, lo, hi) + HEADROOM <= max
  }

  predicate Alone(c: Cost, max: nat) {
    c.rows + c.size + HEADROOM <= max
  }

  /** One segment as the greedy loop cuts it: every call after its first joined, and the next one does not. */
  ghost predicate Greedy(costs: seq<Cost>, seg: Segment, max: nat) {
    && seg.lo <= seg.hi <= |costs|
    && (forall i :: seg.lo < i < seg.hi ==> Joins(costs, seg.lo, i, max))
    && (seg.hi < |costs| ==> seg.lo < seg.hi && !Joins(costs, seg.lo, seg.hi, max))
  }

  predicate Follows(segs: seq<Segment>, k: nat)
    requires 0 < k < |segs|
  {
    segs[k].lo == segs[k - 1].hi
  }

  /** The segments tile [from, |costs|) in order. */
  ghost predicate Tiles(costs: seq<Cost>, segs: seq<Segment>, from: nat) {
    && segs != [] && segs[0].lo == from && segs[|segs| - 1].hi == |costs|
    && (forall k :: 0 <= k < |segs| ==> segs[k].lo <= segs[k].hi <= |costs|)
    && (forall k :: 0 < k < |segs| ==> Follows(segs, k) && segs[k].lo < |costs|)
  }

  ghost predicate IsPacking(costs: seq<Cost>, max: nat, segs: seq<Segment>) {
    Tiles(costs, segs, 0) && forall k :: 0 <= k < |segs| ==> Greedy(costs, segs[k], max)
  }

  /** The segments cut off so far tile [0, start). */
  ghost predicate CutTo(costs: seq<Cost>, max: nat, segs: seq<Segment>, start: nat) {
    && (segs == [] ==> start == 0)
    && (segs != [] ==> segs[0].lo == 0 && segs[|segs| - 1].hi == start)
    && (forall k :: 0 <= k < |segs| ==> Greedy(costs, segs[k], max) && segs[k].hi < |costs|)
    && (forall k :: 0 < k < |segs| ==> Follows(segs, k))
  }

  lemma CutMore(costs: seq<Cost>, max: nat, segs: seq<Segment>, start: nat, i: nat)
    requires CutTo(costs, max, segs, start) && Greedy(costs, Segment(start, i), max)
    ensures i < |costs| ==> CutTo(costs, max, segs + [Segment(start, i)], i)
    ensures i == |costs| && (start < i || i == 0) ==> IsPacking(costs, max, segs + [Segment(start, i)])
  {
    hide Joins;
    var next := segs + [Segment(start, i)];
    forall k | 0 < k < |next| ensures Follows(next, k) {
      if k < |segs| { assert Follows(segs, k); }
    }
    forall k | 0 < k < |next| ensures next[k].lo < |costs| {
      assert next[k].lo == next[k - 1].hi by { assert Follows(next, k); }
    }
  }

  method Pack(costs: seq<Cost>, max: nat) returns (r: Option<seq<Segment>>)
    ensures r.Some? <==> forall i :: 0 <= i < |costs| ==> Alone(costs[i], max)
    ensures r.Some? ==> IsPacking(costs, max, r.value)
  {
    hide CutTo, IsPacking;
    var segs: seq<Segment> := [];
    var start, rowsAcc, progsAcc, ioAcc := 0, 0, 0, 0;
    var segProgs: set<nat> := {};
    CutNothing(costs, max);
    for i := 0 to |costs|
      invariant start <= i && (start == i ==> i == 0)
      invariant rowsAcc == ioAcc == Rows(costs, start, i) && progsAcc == Sizes(costs, start, i)
      invariant forall p :: p in segProgs <==> Seen(costs, start, i, p)
      invariant forall j :: 0 <= j < i ==> Alone(costs[j], max)
      invariant forall j :: start < j < i ==> Joins(costs, start, j, max)
      invariant CutTo(costs, max, segs, start)
    {
      var c := costs[i];
      var addProg := if c.prog in segProgs then 0 else c.size;
      if i > start && rowsAcc + c.rows + progsAcc + addProg + ioAcc + HEADROOM > max {
        CutMore(costs, max, segs, start, i);
        segs := segs + [Segment(start, i)];
        start := i;
        rowsAcc, progsAcc, ioAcc := 0, 0, 0;
        segProgs := {};
        addProg := c.size;
      }
      if c.rows + c.size + HEADROOM > max {
        assert !Alone(costs[i], max);
        return None;
      }
      SeenNext(costs, start, i);
      rowsAcc, ioAcc := rowsAcc + c.rows, ioAcc + c.rows;
      if c.prog !in segProgs {
        segProgs, progsAcc := segProgs + {c.prog}, progsAcc + addProg;
      }
    }
    CutMore(costs, max, segs, start, |costs|);
    segs := segs + [Segment(start, |costs|)];
    r := Some(segs);
  }

  lemma CutNothing(costs: seq<Cost>, max: nat)
    ensures CutTo(costs, max, [], 0)
  {
  }

  lemma SeenNext(costs: seq<Cost>, lo: nat, hi: nat)
    requires lo <= hi < |costs|
    ensures forall p :: Seen(costs, lo, hi + 1, p) <==> Seen(costs, lo, hi, p) || p == costs[hi].prog
  {
    forall p ensures Seen(costs, lo, hi + 1, p) <==> Seen(costs, lo, hi, p) || p == costs[hi].prog {
      if p == costs[hi].prog { assert costs[hi].prog == p; }
    }
  }

  /** Every segment keeps rows, different programs and headroom within the trace; one of several calls also keeps, as
    * its log, the rows of all of them but the last. */
  lemma PackedFits(costs: seq<Cost>, max: nat, seg: Segment)
    requires Greedy(costs, seg, max)
    requires forall i :: 0 <= i < |costs| ==> Alone(costs[i], max)
    ensures seg.lo < seg.hi ==> Fits(costs, seg.lo, seg.hi, max)
    ensures seg.hi - seg.lo > 1 ==>
              Rows(costs, seg.lo, seg.hi) + Sizes(costs, seg.lo, seg.hi)
              + Rows(costs, seg.lo, seg.hi - 1) + HEADROOM <= max
  {
    hide Joins, Fits, Rows, Sizes, Alone;
    if seg.hi - seg.lo > 1 {
      assert Joins(costs, seg.lo, seg.hi - 1, max);
      JoinedFits(costs, seg.lo, seg.hi - 1, max);
    } else if seg.lo < seg.hi {
      AloneFits(costs, seg.lo, max);
    }
  }

  lemma JoinedFits(costs: seq<Cost>, lo: nat, last: nat, max: nat)
    requires lo <= last < |costs| && Joins(costs, lo, last, max)
    ensures Fits(costs, lo, last + 1, max)
    ensures Rows(costs, lo, last + 1) + Sizes(costs, lo, last + 1) + Rows(costs, lo, last) + HEADROOM <= max
  {
  }

  lemma AloneFits(costs: seq<Cost>, lo: nat, max: nat)
    requires lo < |costs| && Alone(costs[lo], max)
    ensures Fits(costs, lo, lo + 1, max)
  {
    assert Rows(costs, lo, lo) == 0 && Sizes(costs, lo, lo) == 0;
  }

  /** The greedy tiling is the only one, so Pack's contract fixes its answer. */
  lemma {:induction false} PackingUnique(costs: seq<Cost>, max: nat, from: nat, x: seq<Segment>, y: seq<Segment>)
    requires Tiles(costs, x, from) && Tiles(costs, y, from)
    requires forall k :: 0 <= k < |x| ==> Greedy(costs, x[k], max)
    requires forall k :: 0 <= k < |y| ==> Greedy(costs, y[k], max)
    ensures x == y
    decreases |x|
  {
    hide Greedy;
    SameEnd(costs, max, x[0], y[0]);
    assert x == [x[0]] + x[1..] && y == [y[0]] + y[1..];
    if |x| > 1 { assert Follows(x, 1); }
    if |y| > 1 { assert Follows(y, 1); }
    if |x| > 1 && |y| > 1 {
      TilesRest(costs, x, from);
      TilesRest(costs, y, from);
      PackingUnique(costs, max, x[0].hi, x[1..], y[1..]);
    }
  }

  lemma SameEnd(costs: seq<Cost>, max: nat, a: Segment, b: Segment)
    requires Greedy(costs, a, max) && Greedy(costs, b, max) && a.lo == b.lo
    ensures a == b
  {
  }

  lemma TilesRest(costs: seq<Cost>, segs: seq<Segment>, from: nat)
    requires Tiles(costs, segs, from) && |segs| > 1
    ensures Tiles(costs, segs[1..], segs[0].hi)
  {
    var rest := segs[1..];
    assert Follows(segs, 1);
    forall k | 0 < k < |rest| ensures Follows(rest, k) && rest[k].lo < |costs| {
      assert Follows(segs, k + 1);
    }
  }

  // ---- the rows of a run ---------------------------------------------------------------------------

  /** The number of executed instructions: the rows of a call's witness. */
  function Steps(ctx: Ctx, prog: seq<Ins>, pc: nat, c: Core, gas: nat): (n: nat)
    ensures n <= gas
    decreases gas
  {
    if gas == 0 then 0
    else
      match StepAt(ctx, prog, pc, c)
      case Revert => 0
      case Halt(_, _) => 1
      case Go(pc', c') => 1 + Steps(ctx, prog, pc', c', gas - 1)
  }

  function RunRows(ctx: Ctx, prog: seq<Ins>, st: map<Elem, Elem>): nat {
    Steps(ctx, prog, 0, Entry0(ctx, st), GAS_LIMIT)
  }

  lemma StepLogsOnce(ctx: Ctx, ins: Ins, c: Core)
    requires Exec(ctx, ins, c).Some?
    ensures |Exec(ctx, ins, c).value.io| <= |c.io| + 1
  {
    hide Exec;
    R.ExecPublishes(ctx, ins, c);
  }

  /** The log is no longer than the run: the segmenter's estimate of it is safe. */
  lemma {:induction false} LogWithinRows(ctx: Ctx, prog: seq<Ins>, pc: nat, c: Core, gas: nat)
    requires RunFrom(ctx, prog, pc, c, gas).Success?
    ensures |RunFrom(ctx, prog, pc, c, gas).io| <= |c.io| + Steps(ctx, prog, pc, c, gas)
    decreases gas
  {
    hide Exec;
    StepLogsOnce(ctx, prog[pc], c);
    var to := StepAt(ctx, prog, pc, c);
    if to.Go? { LogWithinRows(ctx, prog, to.pc, to.core, gas - 1); }
  }

  // ---- one trace -----------------------------------------------------------------------------------

  /** What one call contributes to a trace: beside its cost, its log and its argument vector. */
  datatype Load = Load(cost: Cost, text: nat, io: nat, args: nat)

  function Costs(loads: seq<Load>): seq<Cost> {
    seq(|loads|, i requires 0 <= i < |loads| => loads[i].cost)
  }

  /** The trace counts programs by their text, which several program objects may share. */
  function ByText(loads: seq<Load>): seq<Cost> {
    seq(|loads|, i requires 0 <= i < |loads| => loads[i].cost.(prog := loads[i].text))
  }

  function Logged(loads: seq<Load>, lo: nat, hi: nat): nat
    requires lo <= hi <= |loads|
    decreases hi
  {
    if lo == hi then 0 else Logged(loads, lo, hi - 1) + loads[hi - 1].io
  }

  function Args(loads: seq<Load>, lo: nat, hi: nat): nat
    requires lo <= hi <= |loads|
    decreases hi
  {
    if lo == hi then 0 else Args(loads, lo, hi - 1) + loads[hi - 1].args
  }

  /** build_epoch_trace's bound: rows, programs, log and argument table each fit MAX_ROWS. */
  predicate TraceFits(loads: seq<Load>, lo: nat, hi: nat)
    requires lo <= hi <= |loads|
  {
    && Rows(Costs(loads), lo, hi) <= MAX_ROWS
    && Sizes(ByText(loads), lo, hi) <= MAX_ROWS
    && Logged(loads, lo, hi) <= MAX_ROWS
    && Args(loads, lo, hi) <= MAX_ROWS
  }

  /** A program object has one text, and a call logs at most an entry a row. */
  ghost predicate Honest(loads: seq<Load>) {
    && (forall i :: 0 <= i < |loads| ==> loads[i].io <= loads[i].cost.rows)
    && (forall i, j :: 0 <= i < |loads| && 0 <= j < |loads| && loads[i].cost.prog == loads[j].cost.prog ==>
          loads[i].text == loads[j].text)
  }

  lemma {:induction false} FewerTexts(loads: seq<Load>, lo: nat, hi: nat)
    requires lo <= hi <= |loads| && Honest(loads)
    ensures Sizes(ByText(loads), lo, hi) <= Sizes(Costs(loads), lo, hi)
    ensures Logged(loads, lo, hi) <= Rows(Costs(loads), lo, hi)
    decreases hi
  {
    if lo < hi {
      FewerTexts(loads, lo, hi - 1);
      var c, t := Costs(loads), ByText(loads);
      if Seen(c, lo, hi - 1, c[hi - 1].prog) {
        var i :| lo <= i < hi - 1 && c[i].prog == c[hi - 1].prog;
        assert t[i].prog == t[hi - 1].prog;
      }
    }
  }

  /** The lengths of the programs of some calls. */
  function SizesAt(costs: seq<Cost>, at: seq<nat>): nat
    requires forall k :: 0 <= k < |at| ==> at[k] < |costs|
  {
    if at == [] then 0 else SizesAt(costs, at[..|at| - 1]) + costs[at[|at| - 1]].size
  }

  /** Calls of a segment, no two with the same program. */
  ghost predicate DifferentAt(costs: seq<Cost>, lo: nat, hi: nat, at: seq<nat>) {
    && (forall k :: 0 <= k < |at| ==> lo <= at[k] < hi <= |costs|)
    && (forall j, k :: 0 <= j < k < |at| ==> costs[at[j]].prog != costs[at[k]].prog)
  }

  /** A program has one length. */
  ghost predicate OneSize(costs: seq<Cost>) {
    forall i, j :: 0 <= i < |costs| && 0 <= j < |costs| && costs[i].prog == costs[j].prog ==>
      costs[i].size == costs[j].size
  }

  lemma {:induction false} SizesSame(costs: seq<Cost>, x: seq<nat>, y: seq<nat>)
    requires |x| == |y| && forall k :: 0 <= k < |x| ==> x[k] < |costs| && y[k] < |costs|
    requires forall k :: 0 <= k < |x| ==> costs[x[k]].size == costs[y[k]].size
    ensures SizesAt(costs, x) == SizesAt(costs, y)
  {
    if x != [] { SizesSame(costs, x[..|x| - 1], y[..|y| - 1]); }
  }

  lemma {:induction false} SizesWithout(costs: seq<Cost>, at: seq<nat>, k: nat)
    requires k < |at| && forall j :: 0 <= j < |at| ==> at[j] < |costs|
    ensures var rest := at[..k] + at[k + 1..];
            (forall j :: 0 <= j < |rest| ==> rest[j] < |costs|)
            && SizesAt(costs, at) == SizesAt(costs, rest) + costs[at[k]].size
  {
    var n, rest := |at| - 1, at[..k] + at[k + 1..];
    if k < n {
      SizesWithout(costs, at[..n], k);
      assert rest[..n - 1] == at[..n][..k] + at[..n][k + 1..] && rest[n - 1] == at[n];
    } else {
      assert rest == at[..n];
    }
  }

  lemma TakenEarlier(costs: seq<Cost>, lo: nat, last: nat, at: seq<nat>, k: nat, i: nat)
    requires DifferentAt(costs, lo, last + 1, at) && k < |at| && at[k] == last
    requires lo <= i < last && costs[i].prog == costs[last].prog
    ensures DifferentAt(costs, lo, last, at[k := i])
  {
    var next := at[k := i];
    forall j | 0 <= j < |next| ensures lo <= next[j] < last <= |costs| {
      if j != k { assert costs[at[j]].prog != costs[at[k]].prog; }
    }
  }

  lemma LeftOut(costs: seq<Cost>, lo: nat, last: nat, at: seq<nat>, k: nat)
    requires DifferentAt(costs, lo, last + 1, at) && k < |at| && at[k] == last
    ensures DifferentAt(costs, lo, last, at[..k] + at[k + 1..])
  {
    var rest := at[..k] + at[k + 1..];
    forall j | 0 <= j < |rest| ensures lo <= rest[j] < last <= |costs| {
      var from := if j < k then j else j + 1;
      assert rest[j] == at[from] && costs[at[from]].prog != costs[at[k]].prog;
    }
  }

  lemma SomeRoom(costs: seq<Cost>, lo: nat, hi: nat, at: seq<nat>)
    requires DifferentAt(costs, lo, hi, at)
    ensures at != [] ==> lo < hi
  {
    if at != [] { assert lo <= at[0] < hi; }
  }

  /** The summed lengths of a segment's programs cover any of them counted once each. */
  lemma {:induction false} SizesCover(costs: seq<Cost>, lo: nat, hi: nat, at: seq<nat>)
    requires lo <= hi <= |costs| && DifferentAt(costs, lo, hi, at) && OneSize(costs)
    ensures (forall k :: 0 <= k < |at| ==> at[k] < |costs|) && SizesAt(costs, at) <= Sizes(costs, lo, hi)
    decreases hi
  {
    SomeRoom(costs, lo, hi, at);
    if at != [] {
      var last := hi - 1;
      hide SizesAt;
      if k: nat :| k < |at| && at[k] == last {
        if Seen(costs, lo, last, costs[last].prog) {
          var i: nat :| lo <= i < last && costs[i].prog == costs[last].prog;
          TakenEarlier(costs, lo, last, at, k, i);
          SizesSame(costs, at, at[k := i]);
          SizesCover(costs, lo, last, at[k := i]);
        } else {
          SizesWithout(costs, at, k);
          LeftOut(costs, lo, last, at, k);
          SizesCover(costs, lo, last, at[..k] + at[k + 1..]);
        }
      } else {
        SizesCover(costs, lo, last, at);
      }
    }
  }

  /** Packing is enough exactly as far as it looks: a packed segment fits one trace if and only if its argument
    * table, which the segmenter does not count, does. */
  lemma {:induction false} PackedSegmentFitsTrace(loads: seq<Load>, max: nat, segs: seq<Segment>, k: nat)
    requires max <= MAX_ROWS
    requires Honest(loads) && IsPacking(Costs(loads), max, segs) && k < |segs|
    requires forall i :: 0 <= i < |loads| ==> Alone(loads[i].cost, max)
    ensures segs[k].lo <= segs[k].hi <= |loads|
    ensures TraceFits(loads, segs[k].lo, segs[k].hi) <==> Args(loads, segs[k].lo, segs[k].hi) <= MAX_ROWS
  {
    hide Tiles, Rows, Sizes, Logged, Args, Alone;
    assert Greedy(Costs(loads), segs[k], max);
    CostsLength(loads);
    FewerTexts(loads, segs[k].lo, segs[k].hi);
    if segs[k].lo < segs[k].hi {
      PackedFits(Costs(loads), max, segs[k]);
    } else {
      EmptySegment(loads, segs[k].lo);
    }
  }

  /** A stretch of the span fits a trace as it would by itself. */
  lemma {:induction false} FitsAlone(loads: seq<Load>, lo: nat, hi: nat)
    requires lo <= hi <= |loads|
    ensures TraceFits(loads[lo..hi], 0, hi - lo) <==> TraceFits(loads, lo, hi)
    ensures Args(loads[lo..hi], 0, hi - lo) == Args(loads, lo, hi)
  {
    hide Sizes, Logged, Args, Rows;
    Shifted(loads, lo, hi, hi);
  }

  lemma {:induction false} Shifted(loads: seq<Load>, lo: nat, hi: nat, end: nat)
    requires lo <= hi <= end <= |loads|
    ensures var part := loads[lo..end];
            && Rows(Costs(part), 0, hi - lo) == Rows(Costs(loads), lo, hi)
            && Sizes(ByText(part), 0, hi - lo) == Sizes(ByText(loads), lo, hi)
            && Logged(part, 0, hi - lo) == Logged(loads, lo, hi)
            && Args(part, 0, hi - lo) == Args(loads, lo, hi)
    decreases hi
  {
    if lo < hi {
      var part := loads[lo..end];
      Shifted(loads, lo, hi - 1, end);
      assert part[hi - 1 - lo] == loads[hi - 1];
      var prog := ByText(loads)[hi - 1].prog;
      SeenShifted(loads, lo, hi - 1, end, prog);
      assert ByText(part)[hi - 1 - lo] == ByText(loads)[hi - 1];
      assert Costs(part)[hi - 1 - lo] == Costs(loads)[hi - 1];
    }
  }

  lemma SeenShifted(loads: seq<Load>, lo: nat, hi: nat, end: nat, prog: nat)
    requires lo <= hi <= end <= |loads|
    ensures Seen(ByText(loads[lo..end]), 0, hi - lo, prog) <==> Seen(ByText(loads), lo, hi, prog)
  {
    var x, y := ByText(loads[lo..end]), ByText(loads);
    if Seen(y, lo, hi, prog) {
      var i :| lo <= i < hi && y[i].prog == prog;
      assert x[i - lo].prog == prog;
    }
    if Seen(x, 0, hi - lo, prog) {
      var i :| 0 <= i < hi - lo && x[i].prog == prog;
      assert y[lo + i].prog == prog;
    }
  }

  lemma EmptySegment(loads: seq<Load>, lo: nat)
    requires lo <= |loads|
    ensures Rows(Costs(loads), lo, lo) == 0 && Sizes(Costs(loads), lo, lo) == 0
  {
  }

  lemma {:induction false} UniformRows(costs: seq<Cost>, prog: nat, hi: nat)
    requires hi <= |costs| && forall i :: 0 <= i < |costs| ==> costs[i] == Cost(1, prog, 1)
    ensures Rows(costs, 0, hi) == hi
    ensures Sizes(costs, 0, hi) == if hi == 0 then 0 else 1
  {
    if hi > 0 {
      UniformRows(costs, prog, hi - 1);
      if hi > 1 { assert costs[0].prog == costs[hi - 1].prog; }
    }
  }

  /** Calls of one row each of one program of one instruction share a segment, a thousand of them and more. */
  lemma UniformPacks(costs: seq<Cost>, prog: nat)
    requires |costs| <= 1024 && forall i :: 0 <= i < |costs| ==> costs[i] == Cost(1, prog, 1)
    ensures IsPacking(costs, MAX_ROWS, [Segment(0, |costs|)])
    ensures forall i :: 0 <= i < |costs| ==> Alone(costs[i], MAX_ROWS)
  {
    hide Rows, Sizes;
    forall i | 0 < i < |costs| ensures Joins(costs, 0, i, MAX_ROWS) {
      UniformRows(costs, prog, i);
      UniformRows(costs, prog, i + 1);
    }
    assert Greedy(costs, Segment(0, |costs|), MAX_ROWS);
  }

  lemma CostsLength(loads: seq<Load>)
    ensures |Costs(loads)| == |loads| == |ByText(loads)|
  {
  }
}
