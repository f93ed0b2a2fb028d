/**
 Epoch bundles and settlements (settlement_proofs.prove_epoch, prove_settlement, verify_epoch, verify_settlement). The
 STARK itself is opaque: a function that makes a proof and a predicate that checks one.
 */
module SettleEpoch {
  import opened Options
  import opened Field
  import opened ZkVM
  import opened SettleLog
  import opened SettleCall
  import opened SettleSpan
  import opened SettleRoot
  import A = SettleAssets
  import G = ZkGuards
  import R = ZkReplay
  import K = SettlePacking
  import M = SortedMerkle

  /** One call as the proof's public statement has it. */
  datatype Stmt = Stmt(code: Code, name: string, caller: Addr, args: seq<Arg>, value: int, asset: int,
                       cursor: int, timestamp: int, selfd: Elem)

  datatype Proof = Proof(blob: seq<nat>)

  datatype Stark = Stark(prove: seq<EpochCall> -> Proof, check: (Proof, seq<Stmt>, seq<Entry>) -> bool)

  datatype Epoch = Epoch(preRoot: M.Bytes, postRoot: M.Bytes, calls: seq<PublicCall>, io: seq<Entry>, proof: Proof,
                         pre: Contracts)

  datatype Bundle = Bundle(preRoot: M.Bytes, postRoot: M.Bytes, segments: seq<Epoch>)

  function StmtOf(digest: Addr -> Elem, code: Code, pub: PublicCall): Stmt {
    Stmt(code, pub.name, pub.caller, pub.args, pub.value, pub.asset, pub.cursor, pub.timestamp, digest(pub.cid))
  }

  // ---- verifying -----------------------------------------------------------------------------------

  datatype Verifier = Verifier(sch: Scheme, digest: Addr -> Elem, sponge: Sponge,
                               check: (Proof, seq<Stmt>, seq<Entry>) -> bool, checkProofs: bool)

  predicate Known(pre: Contracts, calls: seq<PublicCall>) {
    forall i :: 0 <= i < |calls| ==> calls[i].cid in pre && pre[calls[i].cid].zk
  }

  function Stmts(digest: Addr -> Elem, pre: Contracts, calls: seq<PublicCall>): seq<Stmt>
    requires Known(pre, calls)
  {
    seq(|calls|, i requires 0 <= i < |calls| => StmtOf(digest, pre[calls[i].cid].code, calls[i]))
  }

  /** One call's log applied to its contract's storage. */
  function ReplayOne(contracts: Contracts, cid: Addr, log: seq<Entry>): Option<Contracts>
    requires cid in contracts
  {
    var c := contracts[cid];
    var r :- R.ReplayIo(true, log, c.slots);
    Some(contracts[cid := c.(slots := r.st)])
  }

  function ReplayAll(contracts: Contracts, calls: seq<PublicCall>, logs: seq<seq<Entry>>): Option<Contracts>
    decreases |calls|
  {
    if calls == [] || logs == [] then Some(contracts)
    else if calls[0].cid !in contracts then None
    else
      var next :- ReplayOne(contracts, calls[0].cid, logs[0]);
      ReplayAll(next, calls[1..], logs[1..])
  }

  /** The log is these calls' logs, and replaying them in order gives `post`. */
  ghost predicate Replays(b: Epoch, segs: seq<seq<Entry>>, tail: seq<Entry>, post: Contracts) {
    && b.io == Concat(segs) + tail && CallLogs(segs) && R.NoRet(tail)
    && |segs| == |b.calls|
    && ReplayAll(b.pre, b.calls, segs) == Some(post)
  }

  ghost predicate EpochAccepted(v: Verifier, b: Epoch) {
    && RootOf(v.sch, b.pre) == b.preRoot
    && Known(b.pre, b.calls)
    && (v.checkProofs ==> v.check(b.proof, Stmts(v.digest, b.pre, b.calls), b.io))
    && exists segs, tail, post :: Replays(b, segs, tail, post) && RootOf(v.sch, post) == b.postRoot
  }

  method ReplayLogs(pre: Contracts, calls: seq<PublicCall>, logs: seq<seq<Entry>>) returns (r: Option<Contracts>)
    requires |calls| == |logs| && Known(pre, calls)
    ensures r == ReplayAll(pre, calls, logs)
  {
    hide R.ReplayIo;
    var contracts := pre;
    for i := 0 to |calls|
      invariant contracts.Keys == pre.Keys
      invariant ReplayAll(contracts, calls[i..], logs[i..]) == ReplayAll(pre, calls, logs)
    {
      assert calls[i..][1..] == calls[i + 1..] && logs[i..][1..] == logs[i + 1..];
      var c := contracts[calls[i].cid];
      var rep := R.Replay(true, logs[i], c.slots);
      if rep.None? {
        return None;
      }
      contracts := contracts[calls[i].cid := c.(slots := rep.value.st)];
    }
    r := Some(contracts);
  }

  method VerifyEpoch(v: Verifier, b: Epoch) returns (r: Option<M.Bytes>)
    ensures r.Some? <==> EpochAccepted(v, b)
    ensures r.Some? ==> r.value == b.postRoot
  {
    hide RootOf, ReplayAll;
    var preRoot := ZkvmRoot(v.sch, b.pre);
    if preRoot != b.preRoot || !Known(b.pre, b.calls) {
      return None;
    }
    if v.checkProofs && !v.check(b.proof, Stmts(v.digest, b.pre, b.calls), b.io) {
      return None;
    }
    var segs, tail := CutAtRets(b.io);
    forall xs, t, post | Replays(b, xs, t, post) ensures xs == segs && t == tail {
      CutIsUnique(xs, t, segs, tail);
    }
    if |segs| != |b.calls| {
      return None;
    }
    var contracts := ReplayLogs(b.pre, b.calls, segs);
    if contracts.None? {
      return None;
    }
    assert Replays(b, segs, tail, contracts.value);
    var post := ZkvmRoot(v.sch, contracts.value);
    if post != b.postRoot {
      return None;
    }
    r := Some(post);
  }

  ghost predicate Chained(segs: seq<Epoch>, preRoot: M.Bytes, postRoot: M.Bytes) {
    && segs != [] && segs[0].preRoot == preRoot && segs[|segs| - 1].postRoot == postRoot
    && forall j :: 0 <= j < |segs| - 1 ==> segs[j + 1].preRoot == segs[j].postRoot
  }

  ghost predicate Accepted(v: Verifier, b: Bundle) {
    Chained(b.segments, b.preRoot, b.postRoot) && forall j :: 0 <= j < |b.segments| ==> EpochAccepted(v, b.segments[j])
  }

  method VerifySettlement(v: Verifier, b: Bundle) returns (r: Option<M.Bytes>)
    ensures r.Some? <==> Accepted(v, b)
    ensures r.Some? ==> r.value == b.postRoot
  {
    hide EpochAccepted;
    var segs := b.segments;
    if segs == [] {
      return None;
    }
    var expected, post := b.preRoot, b.preRoot;
    for j := 0 to |segs|
      invariant forall i :: 0 <= i < j ==> EpochAccepted(v, segs[i])
      invariant expected == post == if j == 0 then b.preRoot else segs[j - 1].postRoot
      invariant j > 0 ==> segs[0].preRoot == b.preRoot
      invariant forall i :: 0 <= i < j - 1 ==> segs[i + 1].preRoot == segs[i].postRoot
    {
      if segs[j].preRoot != expected {
        return None;
      }
      var got := VerifyEpoch(v, segs[j]);
      if got.None? {
        return None;
      }
      post := got.value;
      expected := post;
    }
    if post != b.postRoot {
      return None;
    }
    r := Some(post);
  }

  // ---- proving -------------------------------------------------------------------------------------

  /** The prover's tools: the span's context, the STARK, the identity of a contract's program object, and the number a
    * program text gets in the trace. */
  datatype Prover = Prover(sch: Scheme, env: Env, stark: Stark, ident: (Addr, string) -> nat, text: seq<Ins> -> nat)

  predicate ValidCode(code: Code) {
    forall m :: m in code ==> G.ValidMethod(code[m])
  }

  predicate Provable(c: EpochCall) {
    ValidCode(c.code) && Execute(c.code, c.pub.name, c.ctx, c.slots).Success?
  }

  function CostOf(p: Prover, c: EpochCall): K.Cost {
    var prog := if c.pub.name in c.code then c.code[c.pub.name] else [];
    K.Cost(K.RunRows(c.ctx, prog, c.slots), p.ident(c.pub.cid, c.pub.name), |prog|)
  }

  function LoadOf(p: Prover, c: EpochCall): K.Load
    requires Provable(c)
  {
    K.Load(CostOf(p, c), p.text(c.code[c.pub.name]), |Execute(c.code, c.pub.name, c.ctx, c.slots).io|, |c.ctx.args|)
  }

  function Loads(p: Prover, calls: seq<EpochCall>): seq<K.Load>
    requires forall i :: 0 <= i < |calls| ==> Provable(calls[i])
  {
    seq(|calls|, i requires 0 <= i < |calls| => LoadOf(p, calls[i]))
  }

  /** build_epoch_trace goes through: valid code, no revert, and everything within one trace. */
  predicate TraceBuilds(p: Prover, calls: seq<EpochCall>) {
    (forall i :: 0 <= i < |calls| ==> Provable(calls[i])) && K.TraceFits(Loads(p, calls), 0, |calls|)
  }

  function CallsOf(done: seq<Done>): seq<EpochCall> {
    seq(|done|, i requires 0 <= i < |done| => done[i].call)
  }

  function PubsOf(done: seq<Done>): seq<PublicCall> {
    seq(|done|, i requires 0 <= i < |done| => done[i].call.pub)
  }

  /** A call's log, as its execution gives it. */
  function LogOf(c: EpochCall): seq<Entry> {
    var out := Execute(c.code, c.pub.name, c.ctx, c.slots);
    if out.Success? then out.io else []
  }

  function LogsOf(calls: seq<EpochCall>): seq<seq<Entry>> {
    seq(|calls|, i requires 0 <= i < |calls| => LogOf(calls[i]))
  }

  function ZkOnly(contracts: Contracts): Contracts {
    map cid | cid in contracts && contracts[cid].zk :: contracts[cid]
  }

  function Fresh(s: State): State {
    s.(reg := map[])
  }

  /** prove_epoch, from a registry of its own. */
  ghost function EpochOf(p: Prover, s: State, calls: seq<Call>): Option<Epoch> {
    var ran :- Span(p.env, Fresh(s), calls);
    var done := CallsOf(ran.done);
    if !TraceBuilds(p, done) then None
    else
      Some(Epoch(RootOf(p.sch, s.contracts), RootOf(p.sch, ran.post.contracts), PubsOf(ran.done), Concat(LogsOf(done)),
                 p.stark.prove(done), ZkOnly(s.contracts)))
  }

  /** Runs a span on a shadow of its own. */
  method RunSpan(env: Env, s: State, calls: seq<Call>) returns (r: Option<Ran>)
    ensures r == Span(env, s, calls)
  {
    hide CallStep, Span;
    var shadow := new Shadow(s);
    var done: seq<Done> := [];
    SpanNothing(env, s);
    for i := 0 to |calls|
      invariant Span(env, s, calls[..i]) == Some(Ran(shadow.Now(), done))
    {
      SpanPush(env, s, calls[..i], calls[i]);
      assert calls[..i] + [calls[i]] == calls[..i + 1];
      var d := shadow.RunCall(env, calls[i]);
      if d.None? {
        SpanFails(env, s, calls, i + 1);
        return None;
      }
      done := done + [d.value];
    }
    assert calls[..|calls|] == calls;
    r := Some(Ran(shadow.Now(), done));
  }

  method ProveEpoch(p: Prover, s: State, calls: seq<Call>) returns (r: Option<Epoch>)
    ensures r == EpochOf(p, s, calls)
  {
    hide Span, RootOf, TraceBuilds;
    var preRoot := ZkvmRoot(p.sch, s.contracts);
    var ran :- RunSpan(p.env, Fresh(s), calls);
    var done := CallsOf(ran.done);
    if !TraceBuilds(p, done) {
      return None;
    }
    var postRoot := ZkvmRoot(p.sch, ran.post.contracts);
    r := Some(Epoch(preRoot, postRoot, PubsOf(ran.done), Concat(LogsOf(done)), p.stark.prove(done),
                    ZkOnly(s.contracts)));
  }

  datatype Segmented = Segmented(post: State, epochs: seq<Epoch>)

  ghost predicate Within(cuts: seq<K.Segment>, n: nat) {
    forall k :: 0 <= k < |cuts| ==> cuts[k].lo <= cuts[k].hi <= n
  }

  /** The second pass: each segment proved, then run again to move the shadows on. */
  ghost function Segments(p: Prover, s: State, calls: seq<Call>, cuts: seq<K.Segment>): Option<Segmented>
    requires Within(cuts, |calls|)
    decreases |cuts|
  {
    if cuts == [] then Some(Segmented(s, []))
    else
      var part := calls[cuts[0].lo..cuts[0].hi];
      var epoch :- EpochOf(p, s, part);
      var ran :- Span(p.env, Fresh(s), part);
      var rest :- Segments(p, ran.post, calls, cuts[1..]);
      Some(Segmented(rest.post, [epoch] + rest.epochs))
  }

  function CostsOf(p: Prover, done: seq<Done>): seq<K.Cost> {
    seq(|done|, i requires 0 <= i < |done| => CostOf(p, done[i].call))
  }

  ghost function BundleOf(p: Prover, s: State, calls: seq<Call>, cuts: seq<K.Segment>): Option<Bundle>
    requires Within(cuts, |calls|)
  {
    var g :- Segments(p, s, calls, cuts);
    Some(Bundle(RootOf(p.sch, s.contracts), RootOf(p.sch, g.post.contracts), g.epochs))
  }

  /** What prove_settlement returns: nothing when a call fails or fills a trace by itself, and otherwise the chain of
    * the packed segments' epochs, if each of them can be proved. */
  ghost predicate Proved(p: Prover, s: State, calls: seq<Call>, max: nat, r: Option<Bundle>) {
    match Span(p.env, Fresh(s), calls)
    case None => r.None?
    case Some(ran) =>
      var costs := CostsOf(p, ran.done);
      if exists i :: 0 <= i < |costs| && !K.Alone(costs[i], max) then r.None?
      else exists cuts :: Packs(costs, calls, max, cuts) && r == BundleOf(p, s, calls, cuts)
  }

  ghost predicate Packs(costs: seq<K.Cost>, calls: seq<Call>, max: nat, cuts: seq<K.Segment>) {
    |costs| == |calls| && K.IsPacking(costs, max, cuts)
  }

  /** A call sees no contract but its own. */
  lemma CallPeek(env: Env, s: State, call: Call)
    requires call.cid in s.contracts
    ensures var own := s.(contracts := map[call.cid := s.contracts[call.cid]]);
            var d, e := CallStep(env, s, call), CallStep(env, own, call);
            (d.Some? <==> e.Some?) && (d.Some? ==> d.value.call == e.value.call)
  {
    hide Digest, Escrow, A.View, Run, Split, ApplyPayouts, Settle;
  }

  /** The first pass: measure every call on scratch copies, then run it for real. */
  method Measure(p: Prover, s: State, calls: seq<Call>) returns (r: Option<seq<K.Cost>>)
    ensures match Span(p.env, Fresh(s), calls)
            case None => r.None?
            case Some(ran) => r == Some(CostsOf(p, ran.done))
  {
    hide CallStep, Span, K.RunRows;
    var shadow := new Shadow(Fresh(s));
    var costs: seq<K.Cost> := [];
    ghost var done: seq<Done> := [];
    SpanNothing(p.env, Fresh(s));
    for i := 0 to |calls|
      invariant Span(p.env, Fresh(s), calls[..i]) == Some(Ran(shadow.Now(), done))
      invariant costs == CostsOf(p, done)
    {
      ghost var now := shadow.Now();
      SpanPush(p.env, Fresh(s), calls[..i], calls[i]);
      SpanConcat(p.env, Fresh(s), calls[..i + 1], calls[i + 1..]);
      assert calls[..i] + [calls[i]] == calls[..i + 1];
      assert calls[..i + 1] + calls[i + 1..] == calls;
      var cid := calls[i].cid;
      var own: Contracts := if cid in shadow.contracts then map[cid := shadow.contracts[cid]] else map[];
      var scratch := new Shadow(State(own, shadow.bridge, shadow.assets, shadow.registry));
      var peek := scratch.RunCall(p.env, calls[i]);
      if cid in now.contracts {
        CallPeek(p.env, now, calls[i]);
      } else {
        NoContract(p.env, now, calls[i]);
      }
      var d := shadow.RunCall(p.env, calls[i]);
      if peek.None? || d.None? {
        if peek.None? && cid !in now.contracts { NoContract(p.env, now, calls[i]); }
        return None;
      }
      costs := costs + [CostOf(p, peek.value.call)];
      done := done + [d.value];
    }
    assert calls[..|calls|] == calls;
    r := Some(costs);
  }

  lemma NoContract(env: Env, s: State, call: Call)
    requires call.cid !in s.contracts
    ensures CallStep(env, s, call).None?
  {
  }

  /** What the second pass has and what it still owes. */
  ghost predicate Reached(all: Option<Segmented>, epochs: seq<Epoch>, rest: Option<Segmented>) {
    if rest.None? then all.None? else all == Some(Segmented(rest.value.post, epochs + rest.value.epochs))
  }

  lemma ReachedMore(all: Option<Segmented>, epochs: seq<Epoch>, epoch: Epoch, rest: Option<Segmented>)
    requires rest.Some? ==> Reached(all, epochs, Some(Segmented(rest.value.post, [epoch] + rest.value.epochs)))
    requires rest.None? ==> Reached(all, epochs, None)
    ensures Reached(all, epochs + [epoch], rest)
  {
    if rest.Some? {
      assert epochs + ([epoch] + rest.value.epochs) == epochs + [epoch] + rest.value.epochs;
    }
  }

  lemma SegmentsStep(p: Prover, s: State, calls: seq<Call>, cuts: seq<K.Segment>)
    requires cuts != [] && Within(cuts, |calls|)
    ensures var part := calls[cuts[0].lo..cuts[0].hi];
            Segments(p, s, calls, cuts) ==
            match EpochOf(p, s, part)
            case None => None
            case Some(epoch) =>
              match Span(p.env, Fresh(s), part)
              case None => None
              case Some(ran) =>
                match Segments(p, ran.post, calls, cuts[1..])
                case None => None
                case Some(rest) => Some(Segmented(rest.post, [epoch] + rest.epochs))
  {
    hide EpochOf, Span;
  }

  /** The second pass. */
  method ProveSegments(p: Prover, s: State, calls: seq<Call>, cuts: seq<K.Segment>) returns (r: Option<Segmented>)
    requires Within(cuts, |calls|)
    ensures r == Segments(p, s, calls, cuts)
  {
    hide Span, EpochOf, Segments;
    var now, epochs := s, [];
    ghost var all := Segments(p, s, calls, cuts);
    assert cuts[0..] == cuts;
    assert Reached(all, [], all) by { if all.Some? { assert [] + all.value.epochs == all.value.epochs; } }
    for k := 0 to |cuts|
      invariant Reached(all, epochs, Segments(p, now, calls, cuts[k..]))
    {
      assert cuts[k..][0] == cuts[k] && cuts[k..][1..] == cuts[k + 1..];
      SegmentsStep(p, now, calls, cuts[k..]);
      var part := calls[cuts[k].lo..cuts[k].hi];
      var epoch := ProveEpoch(p, now, part);
      if epoch.None? {
        return None;
      }
      var ran := RunSpan(p.env, Fresh(now), part);
      if ran.None? {
        return None;
      }
      ReachedMore(all, epochs, epoch.value, Segments(p, ran.value.post, calls, cuts[k + 1..]));
      now, epochs := ran.value.post, epochs + [epoch.value];
    }
    NoSegments(p, now, calls);
    assert epochs + [] == epochs && cuts[|cuts|..] == [];
    r := Some(Segmented(now, epochs));
  }

  lemma NoSegments(p: Prover, s: State, calls: seq<Call>)
    ensures Segments(p, s, calls, []) == Some(Segmented(s, []))
  {
  }

  method ProveSettlement(p: Prover, s: State, calls: seq<Call>, max: nat) returns (r: Option<Bundle>)
    ensures Proved(p, s, calls, max, r)
  {
    hide Span, RootOf, Segments, K.Alone;
    var preRoot := ZkvmRoot(p.sch, s.contracts);
    var costs := Measure(p, s, calls);
    if costs.None? {
      return None;
    }
    SpanLength(p.env, Fresh(s), calls);
    var packed := K.Pack(costs.value, max);
    if packed.None? {
      return None;
    }
    var cuts := packed.value;
    assert Packs(costs.value, calls, max, cuts);
    var segmented := ProveSegments(p, s, calls, cuts);
    if segmented.None? {
      return None;
    }
    var postRoot := ZkvmRoot(p.sch, segmented.value.post.contracts);
    r := Some(Bundle(preRoot, postRoot, segmented.value.epochs));
  }
}
