/** What acceptance of a settlement is worth, and what segmenting a span is good for. */
module SettleSound {
  import opened Options
  import opened Field
  import opened ZkVM
  import opened SettleLog
  import opened SettleCall
  import opened SettleSpan
  import opened SettleRoot
  import opened SettleEpoch
  import SettleAgree
  import G = ZkGuards
  import R = ZkReplay
  import K = SettlePacking
  import M = SortedMerkle

  // ---- what a proof shows --------------------------------------------------------------------------

  /** Everything a proof leaves the prover free to choose about one call: the chain data and the holdings the call saw,
    * the values its loads returned, and so its log. */
  datatype Witness = Witness(ctx: Ctx, oracle: nat -> Elem, log: seq<Entry>)

  /** The context agrees with the public statement and the verifier's hash constants; chain data and holdings are not
    * part of it. */
  ghost predicate Stated(v: Verifier, stmt: Stmt, ctx: Ctx) {
    var args := Digest(v.digest, map[], stmt.caller, stmt.args);
    && args.Some? && ctx.args == args.value.args && |ctx.args| <= MAX_ARGS
    && ctx.caller == v.digest(stmt.caller) && ctx.selfd == stmt.selfd && ctx.sponge == v.sponge
    && ctx.value == stmt.value % P && ctx.asset == stmt.asset % P
    && ctx.cursor == stmt.cursor % P && ctx.time == stmt.timestamp % P
  }

  /** The stated method, run on loads taken from anywhere, emits this log. */
  ghost predicate Emits(v: Verifier, stmt: Stmt, w: Witness) {
    && ValidCode(stmt.code) && stmt.name in stmt.code
    && Stated(v, stmt, w.ctx)
    && var out := R.OracleRun(w.ctx, w.oracle, stmt.code[stmt.name], 0, Entry0(w.ctx, map[]), GAS_LIMIT);
       out.Success? && out.io == w.log
  }

  function LogsIn(ws: seq<Witness>): seq<seq<Entry>> {
    seq(|ws|, i requires 0 <= i < |ws| => ws[i].log)
  }

  ghost predicate Explains(v: Verifier, stmts: seq<Stmt>, io: seq<Entry>, ws: seq<Witness>) {
    && |ws| == |stmts| && io == Concat(LogsIn(ws))
    && forall i :: 0 <= i < |ws| ==> Emits(v, stmts[i], ws[i])
  }

  /** Soundness of the opaque check: a log it passes was emitted by the stated calls in order. */
  ghost predicate SoundCheck(v: Verifier) {
    forall proof, stmts, io :: v.check(proof, stmts, io) ==> exists ws :: Explains(v, stmts, io, ws)
  }

  // ---- really running the calls --------------------------------------------------------------------

  /** The public calls executed in order on real storage. */
  function Execution(contracts: Contracts, calls: seq<PublicCall>, ctxs: seq<Ctx>): Option<Contracts>
    requires |ctxs| == |calls|
    decreases |calls|
  {
    if calls == [] then Some(contracts)
    else if calls[0].cid !in contracts then None
    else
      var c := contracts[calls[0].cid];
      var out := Execute(c.code, calls[0].name, ctxs[0], c.slots);
      if out.Failure? then None
      else Execution(contracts[calls[0].cid := c.(slots := out.st)], calls[1..], ctxs[1..])
  }

  ghost predicate Contexts(v: Verifier, stmts: seq<Stmt>, ctxs: seq<Ctx>) {
    |ctxs| == |stmts| && forall i :: 0 <= i < |ctxs| ==> Stated(v, stmts[i], ctxs[i])
  }

  /** The accepted epoch is a real execution of its calls from its pre-state to its post root. */
  ghost predicate Executed(v: Verifier, b: Epoch, ctxs: seq<Ctx>, post: Contracts) {
    && Known(b.pre, b.calls)
    && Contexts(v, Stmts(v.digest, b.pre, b.calls), ctxs)
    && |ctxs| == |b.calls|
    && Execution(b.pre, b.calls, ctxs) == Some(post)
    && RootOf(v.sch, b.pre) == b.preRoot && RootOf(v.sch, post) == b.postRoot
  }

  lemma OracleLogs(ctx: Ctx, oracle: nat -> Elem, ins: Ins, c: Core)
    requires R.OracleExec(ctx, oracle, ins, c).Some? && R.NoRet(c.io)
    ensures var c' := R.OracleExec(ctx, oracle, ins, c).value;
            if ins.op.RET? then c'.io == c.io + [Entry(IO_RET, c.regs[ins.s], 0)] else R.NoRet(c'.io)
  {
    hide Exec;
    if !ins.op.SLOAD? { R.RetLogged(ctx, ins, c); }
  }

  /** A log emitted on oracle loads also has one return, at its end. */
  lemma {:induction false} OracleOneRet(ctx: Ctx, oracle: nat -> Elem, prog: seq<Ins>, pc: nat, c: Core, gas: nat)
    requires R.NoRet(c.io) && R.OracleRun(ctx, oracle, prog, pc, c, gas).Success?
    ensures R.EndsInRet(R.OracleRun(ctx, oracle, prog, pc, c, gas).io)
    decreases gas
  {
    hide R.OracleExec;
    var ins := prog[pc];
    OracleLogs(ctx, oracle, ins, c);
    var c' := R.OracleExec(ctx, oracle, ins, c).value;
    if ins.op.RET? {
      assert c'.io[..|c'.io| - 1] == c.io;
    } else if ins.op.JMP? || (ins.op.JNZ? && c.regs[ins.s] != 0) {
      OracleOneRet(ctx, oracle, prog, ins.imm, c', gas - 1);
    } else {
      OracleOneRet(ctx, oracle, prog, pc + 1, c', gas - 1);
    }
  }

  lemma EmitsCallLog(v: Verifier, stmt: Stmt, w: Witness)
    requires Emits(v, stmt, w)
    ensures R.EndsInRet(w.log)
  {
    hide R.OracleRun, ValidCode;
    OracleOneRet(w.ctx, w.oracle, stmt.code[stmt.name], 0, Entry0(w.ctx, map[]), GAS_LIMIT);
  }

  /** One call: an emitted log that replays is the log of the real execution, which ends in the replayed storage. */
  lemma EmittedIsRun(v: Verifier, code: Code, pub: PublicCall, w: Witness, slots: map<Elem, Elem>)
    requires Emits(v, StmtOf(v.digest, code, pub), w)
    requires R.ReplayIo(true, w.log, slots).Some?
    ensures var out := Execute(code, pub.name, w.ctx, slots);
            out.Success? && out.io == w.log && out.st == R.ReplayIo(true, w.log, slots).value.st
  {
    hide R.OracleRun, R.ReplayIo, Run, G.ValidMethod;
    SettleAgree.ValidIsGuarded(code[pub.name]);
    R.ProvenLogIsExecution(w.ctx, w.oracle, code[pub.name], map[], slots);
  }

  lemma {:induction false} ReplayIsRun(v: Verifier, contracts: Contracts, calls: seq<PublicCall>,
                                       ws: seq<Witness>)
    requires |ws| == |calls| && Known(contracts, calls)
    requires forall i :: 0 <= i < |ws| ==> Emits(v, Stmts(v.digest, contracts, calls)[i], ws[i])
    requires ReplayAll(contracts, calls, LogsIn(ws)).Some?
    ensures Execution(contracts, calls, ContextsIn(ws)) == ReplayAll(contracts, calls, LogsIn(ws))
    decreases |calls|
  {
    hide Emits, R.ReplayIo, Execute;
    if calls != [] {
      var cid := calls[0].cid;
      var c, logs, ctxs := contracts[cid], LogsIn(ws), ContextsIn(ws);
      assert Stmts(v.digest, contracts, calls)[0] == StmtOf(v.digest, c.code, calls[0]);
      EmittedIsRun(v, c.code, calls[0], ws[0], c.slots);
      var next := ReplayOne(contracts, cid, logs[0]).value;
      assert logs[1..] == LogsIn(ws[1..]) && ctxs[1..] == ContextsIn(ws[1..]);
      forall i | 0 <= i < |ws[1..]| ensures Emits(v, Stmts(v.digest, next, calls[1..])[i], ws[1..][i]) {
        assert Stmts(v.digest, next, calls[1..])[i] == Stmts(v.digest, contracts, calls)[i + 1];
      }
      ReplayIsRun(v, next, calls[1..], ws[1..]);
    }
  }

  function ContextsIn(ws: seq<Witness>): seq<Ctx> {
    seq(|ws|, i requires 0 <= i < |ws| => ws[i].ctx)
  }

  /** Provable means executed: with a sound proof check, an accepted epoch really takes the committed pre-state to the
    * committed post-state. */
  lemma {:induction false} AcceptedEpochExecutes(v: Verifier, b: Epoch) returns (ctxs: seq<Ctx>, post: Contracts)
    requires EpochAccepted(v, b) && v.checkProofs && SoundCheck(v)
    ensures Executed(v, b, ctxs, post)
  {
    hide RootOf, ReplayAll, Emits, Execution, Stated;
    var stmts := Stmts(v.digest, b.pre, b.calls);
    var segs, tail, out :| Replays(b, segs, tail, out) && RootOf(v.sch, out) == b.postRoot;
    var ws :| Explains(v, stmts, b.io, ws);
    var logs := LogsIn(ws);
    forall i | 0 <= i < |logs| ensures R.EndsInRet(logs[i]) {
      EmitsCallLog(v, stmts[i], ws[i]);
    }
    assert b.io == Concat(logs) + [];
    CutIsUnique(segs, tail, logs, []);
    ReplayIsRun(v, b.pre, b.calls, ws);
    ctxs, post := ContextsIn(ws), out;
    forall i | 0 <= i < |ctxs| ensures Stated(v, stmts[i], ctxs[i]) {
      EmitsContext(v, stmts[i], ws[i]);
    }
  }

  lemma EmitsContext(v: Verifier, stmt: Stmt, w: Witness)
    requires Emits(v, stmt, w)
    ensures Stated(v, stmt, w.ctx)
  {
  }

  ghost predicate ReallyRan(v: Verifier, b: Epoch, post: Contracts) {
    exists ctxs :: Executed(v, b, ctxs, post)
  }

  lemma RanBy(v: Verifier, b: Epoch, ctxs: seq<Ctx>, post: Contracts)
    requires Executed(v, b, ctxs, post)
    ensures ReallyRan(v, b, post)
  {
  }

  /** The states an accepted settlement went through. */
  ghost predicate History(v: Verifier, b: Bundle, posts: seq<Contracts>) {
    && |posts| == |b.segments|
    && (forall j :: 0 <= j < |posts| ==> ReallyRan(v, b.segments[j], posts[j]))
    && (forall j :: 0 < j < |posts| ==>
          Apart(v.sch, posts[j - 1], b.segments[j].pre) ==> Kvs(posts[j - 1]) == Kvs(b.segments[j].pre))
  }

  /** An accepted settlement is a chain of real executions, each starting from the storage the one before it left:
    * equal roots bind the storage wherever the hash does not collide. */
  lemma {:induction false} AcceptedSettlementExecutes(v: Verifier, b: Bundle) returns (posts: seq<Contracts>)
    requires Accepted(v, b) && v.checkProofs && SoundCheck(v)
    ensures History(v, b, posts)
    ensures RootOf(v.sch, b.segments[0].pre) == b.preRoot
    ensures RootOf(v.sch, posts[|posts| - 1]) == b.postRoot
  {
    hide EpochAccepted, ReallyRan, Executed, Apart, RootOf, Kvs;
    posts := [];
    for j := 0 to |b.segments|
      invariant |posts| == j
      invariant forall i :: 0 <= i < j ==> ReallyRan(v, b.segments[i], posts[i])
    {
      var ctxs, post := AcceptedEpochExecutes(v, b.segments[j]);
      RanBy(v, b.segments[j], ctxs, post);
      posts := posts + [post];
    }
    forall j | 0 <= j < |posts|
      ensures RootOf(v.sch, b.segments[j].pre) == b.segments[j].preRoot
      ensures RootOf(v.sch, posts[j]) == b.segments[j].postRoot
    {
      ExecutedRoots(v, b.segments[j], posts[j]);
    }
    forall j | 0 < j < |posts| && Apart(v.sch, posts[j - 1], b.segments[j].pre)
      ensures Kvs(posts[j - 1]) == Kvs(b.segments[j].pre)
    {
      assert b.segments[j - 1 + 1].preRoot == b.segments[j - 1].postRoot;
      RootBindsStorage(v.sch, posts[j - 1], b.segments[j].pre);
    }
  }

  lemma ExecutedRoots(v: Verifier, b: Epoch, post: Contracts)
    requires ReallyRan(v, b, post)
    ensures RootOf(v.sch, b.pre) == b.preRoot && RootOf(v.sch, post) == b.postRoot
  {
  }

  // ---- what packing is good for --------------------------------------------------------------------

  function ArgTotal(calls: seq<EpochCall>): nat {
    if calls == [] then 0 else ArgTotal(calls[..|calls| - 1]) + |calls[|calls| - 1].ctx.args|
  }

  function IdentOf(p: Prover, c: EpochCall): nat {
    p.ident(c.pub.cid, c.pub.name)
  }

  /** One program object has one text. */
  ghost predicate OneText(p: Prover, calls: seq<EpochCall>) {
    forall x, y :: x in calls && y in calls && IdentOf(p, x) == IdentOf(p, y) && Provable(x) && Provable(y) ==>
      x.code[x.pub.name] == y.code[y.pub.name]
  }

  lemma LoadHonest(p: Prover, c: EpochCall)
    requires Provable(c)
    ensures LoadOf(p, c).io <= LoadOf(p, c).cost.rows
  {
    hide RunFrom, K.Steps;
    K.LogWithinRows(c.ctx, c.code[c.pub.name], 0, Entry0(c.ctx, c.slots), GAS_LIMIT);
  }

  lemma {:induction false} ArgsAre(p: Prover, calls: seq<EpochCall>, hi: nat)
    requires hi <= |calls| && forall i :: 0 <= i < |calls| ==> Provable(calls[i])
    ensures K.Args(Loads(p, calls), 0, hi) == ArgTotal(calls[..hi])
    decreases hi
  {
    hide Provable, CostOf;
    if hi > 0 {
      ArgsAre(p, calls, hi - 1);
      assert calls[..hi][..hi - 1] == calls[..hi - 1];
      assert Loads(p, calls)[hi - 1] == LoadOf(p, calls[hi - 1]);
    }
  }

  /** Under the default limit or a smaller one, the trace of every packed segment of a provable span builds if and only
    * if the segment's argument vectors together fit it: the one table the segmenter does not count. */
  lemma {:induction false} PackedSegmentBuilds(p: Prover, calls: seq<EpochCall>, max: nat,
                                               cuts: seq<K.Segment>, k: nat)
    requires forall i :: 0 <= i < |calls| ==> Provable(calls[i]) && K.Alone(CostOf(p, calls[i]), max)
    requires OneText(p, calls) && max <= K.MAX_ROWS
    requires K.IsPacking(K.Costs(Loads(p, calls)), max, cuts) && k < |cuts|
    ensures cuts[k].lo <= cuts[k].hi <= |calls|
    ensures var part := calls[cuts[k].lo..cuts[k].hi]; TraceBuilds(p, part) <==> ArgTotal(part) <= K.MAX_ROWS
  {
    hide Provable, K.TraceFits, K.Args, K.IsPacking, K.Alone;
    var loads := Loads(p, calls);
    forall i | 0 <= i < |loads| ensures loads[i].io <= loads[i].cost.rows {
      LoadHonest(p, calls[i]);
    }
    forall i, j | 0 <= i < |loads| && 0 <= j < |loads| && loads[i].cost.prog == loads[j].cost.prog
      ensures loads[i].text == loads[j].text
    {
      SameText(p, calls, i, j);
    }
    K.PackedSegmentFitsTrace(loads, max, cuts, k);
    var lo, hi := cuts[k].lo, cuts[k].hi;
    var part := calls[lo..hi];
    K.FitsAlone(loads, lo, hi);
    assert loads[lo..hi] == Loads(p, part);
    ArgsAre(p, part, |part|);
    assert part[..|part|] == part;
  }

  lemma SameText(p: Prover, calls: seq<EpochCall>, i: nat, j: nat)
    requires i < |calls| && j < |calls| && Provable(calls[i]) && Provable(calls[j]) && OneText(p, calls)
    requires CostOf(p, calls[i]).prog == CostOf(p, calls[j]).prog
    ensures LoadOf(p, calls[i]).text == LoadOf(p, calls[j]).text
  {
    hide Run, G.ValidMethod;
  }

  // ---- what a trace that builds holds --------------------------------------------------------------

  /** The method a call runs. */
  function Program(c: EpochCall): seq<Ins> {
    if c.pub.name in c.code then c.code[c.pub.name] else []
  }

  function StepTotal(calls: seq<EpochCall>): nat {
    if calls == [] then 0
    else
      var c := calls[|calls| - 1];
      StepTotal(calls[..|calls| - 1]) + K.Steps(c.ctx, Program(c), 0, Entry0(c.ctx, c.slots), GAS_LIMIT)
  }

  function LogTotal(calls: seq<EpochCall>): nat {
    if calls == [] then 0 else LogTotal(calls[..|calls| - 1]) + |LogOf(calls[|calls| - 1])|
  }

  function ProgramTotal(calls: seq<EpochCall>, at: seq<nat>): nat
    requires forall k :: 0 <= k < |at| ==> at[k] < |calls|
  {
    if at == [] then 0 else ProgramTotal(calls, at[..|at| - 1]) + |Program(calls[at[|at| - 1]])|
  }

  /** Some of the calls, no two of them running the same text. */
  ghost predicate DifferentTexts(p: Prover, calls: seq<EpochCall>, at: seq<nat>) {
    && (forall k :: 0 <= k < |at| ==> at[k] < |calls|)
    && forall j, k :: 0 <= j < k < |at| ==> p.text(Program(calls[at[j]])) != p.text(Program(calls[at[k]]))
  }

  lemma {:induction false} TotalsAre(p: Prover, calls: seq<EpochCall>, hi: nat)
    requires hi <= |calls| && forall i :: 0 <= i < |calls| ==> Provable(calls[i])
    ensures K.Rows(K.Costs(Loads(p, calls)), 0, hi) == StepTotal(calls[..hi])
    ensures K.Logged(Loads(p, calls), 0, hi) == LogTotal(calls[..hi])
    decreases hi
  {
    hide Provable, CostOf, K.Steps, Program, LogOf;
    if hi > 0 {
      TotalsAre(p, calls, hi - 1);
      assert calls[..hi][..hi - 1] == calls[..hi - 1] && calls[..hi][hi - 1] == calls[hi - 1];
      LoadAt(p, calls, hi - 1);
    }
  }

  lemma LoadAt(p: Prover, calls: seq<EpochCall>, i: nat)
    requires i < |calls| && forall i :: 0 <= i < |calls| ==> Provable(calls[i])
    ensures var c, load := calls[i], Loads(p, calls)[i];
            && load.cost.rows == K.Steps(c.ctx, Program(c), 0, Entry0(c.ctx, c.slots), GAS_LIMIT)
            && load.io == |LogOf(c)| && K.Costs(Loads(p, calls))[i] == load.cost
  {
    hide Run, K.Steps, G.ValidMethod;
  }

  lemma {:induction false} ProgramsAre(p: Prover, calls: seq<EpochCall>, at: seq<nat>)
    requires (forall i :: 0 <= i < |calls| ==> Provable(calls[i])) && forall k :: 0 <= k < |at| ==> at[k] < |calls|
    ensures K.SizesAt(K.ByText(Loads(p, calls)), at) == ProgramTotal(calls, at)
  {
    hide Provable;
    if at != [] {
      ProgramsAre(p, calls, at[..|at| - 1]);
      TextAt(p, calls, at[|at| - 1]);
    }
  }

  lemma TextAt(p: Prover, calls: seq<EpochCall>, i: nat)
    requires i < |calls| && forall i :: 0 <= i < |calls| ==> Provable(calls[i])
    ensures var t := K.ByText(Loads(p, calls))[i];
            t.prog == p.text(Program(calls[i])) && t.size == |Program(calls[i])|
  {
    hide Run, K.Steps, G.ValidMethod;
  }

  /** A trace that builds has room for every step and every log entry of its calls, and for their methods, counted once
    * a text, each in a table of its own. */
  lemma TraceHolds(p: Prover, calls: seq<EpochCall>, at: seq<nat>)
    requires TraceBuilds(p, calls) && DifferentTexts(p, calls, at)
    requires forall x: seq<Ins>, y: seq<Ins> :: p.text(x) == p.text(y) ==> |x| == |y|
    ensures StepTotal(calls) <= K.MAX_ROWS && LogTotal(calls) <= K.MAX_ROWS
    ensures ProgramTotal(calls, at) <= K.MAX_ROWS && ArgTotal(calls) <= K.MAX_ROWS
  {
    hide Provable, Program, StepTotal, LogTotal, ProgramTotal, ArgTotal;
    hide K.Rows, K.Logged, K.Sizes, K.Args, K.SizesAt;
    assert calls[..|calls|] == calls;
    TotalsAre(p, calls, |calls|);
    ArgsAre(p, calls, |calls|);
    ProgramsAre(p, calls, at);
    var costs := K.ByText(Loads(p, calls));
    forall i: nat | i < |calls|
      ensures costs[i].prog == p.text(Program(calls[i])) && costs[i].size == |Program(calls[i])|
    {
      TextAt(p, calls, i);
    }
    K.SizesCover(costs, 0, |calls|, at);
  }
}
