/**
 One call of a span against the mutable ledgers (settlement_proofs._run_call, _apply_payouts), and spans of calls. The
 specification works on values; class Shadow is the prover's dictionaries, mutated call by call.
 */
module SettleCall {
  import opened Options
  import opened Field
  import opened Sums
  import opened ZkVM
  import opened SettleLog
  import A = SettleAssets

  type Code = map<string, seq<Ins>>
  type Bridge = map<Addr, int>

  datatype Contract = Contract(code: Code, zk: bool, slots: map<Elem, Elem>)
  type Contracts = map<Addr, Contract>

  /** A JSON call argument: an integer, an address string, or anything else. */
  datatype Arg = Num(n: int) | Text(s: Addr) | Junk

  datatype Call = Call(cid: Addr, name: string, caller: Option<Addr>, args: seq<Arg>, value: int, asset: int,
                       cursor: Option<int>, timestamp: Option<int>)

  /** What the whole span shares. */
  datatype Env = Env(digest: Addr -> Elem, sponge: Sponge, cursor: int, timestamp: int,
                     beacons: map<Elem, nat>, blockHashes: map<Elem, nat>)

  datatype State = State(contracts: Contracts, bridge: Bridge, assets: A.Assets, reg: Registry)

  /** The call as the bundle publishes it, every default filled in. */
  datatype PublicCall = PublicCall(cid: Addr, name: string, caller: Addr, args: seq<Arg>, value: int, asset: int,
                                   cursor: int, timestamp: int)

  datatype EpochCall = EpochCall(pub: PublicCall, code: Code, ctx: Ctx, slots: map<Elem, Elem>)

  datatype Done = Done(post: State, call: EpochCall, out: Outcome, payouts: seq<(Addr, Elem)>)

  const NO_CALLER: Addr := "epoch"

  function Publish(env: Env, call: Call): PublicCall {
    PublicCall(call.cid, call.name, Or(call.caller, NO_CALLER), call.args, call.value, call.asset,
               Or(call.cursor, env.cursor), Or(call.timestamp, env.timestamp))
  }

  // ---- the statement (runtimes.zkvm_statement) -----------------------------------------------------

  datatype Statement = Statement(reg: Registry, args: seq<Elem>)

  function DigestArgs(digest: Addr -> Elem, reg: Registry, args: seq<Arg>): Option<Statement>
    decreases |args|
  {
    if args == [] then Some(Statement(reg, []))
    else
      match args[0]
      case Junk => None
      case Num(n) =>
        if !(0 <= n < P) then None
        else
          var rest :- DigestArgs(digest, reg, args[1..]);
          Some(rest.(args := [n] + rest.args))
      case Text(s) =>
        var rest :- DigestArgs(digest, reg[digest(s) := s], args[1..]);
        Some(rest.(args := [digest(s)] + rest.args))
  }

  /** Registers the caller, then every address argument. */
  function Digest(digest: Addr -> Elem, reg: Registry, caller: Addr, args: seq<Arg>): Option<Statement> {
    DigestArgs(digest, reg[digest(caller) := caller], args)
  }

  // ---- native moves --------------------------------------------------------------------------------

  /** Debit, dropping an emptied row; then credit. */
  function Transfer(b: Bridge, from: Addr, to: Addr, amt: int): Bridge {
    var debited := Put(b, from, Get(b, from) - amt);
    debited[to := Get(debited, to) + amt]
  }

  function TotalOwed(payouts: seq<(Addr, Elem)>): int {
    if payouts == [] then 0 else payouts[0].1 + TotalOwed(payouts[1..])
  }

  function PayAll(b: Bridge, cid: Addr, payouts: seq<(Addr, Elem)>): Bridge
    decreases |payouts|
  {
    if payouts == [] then b else PayAll(Transfer(b, cid, payouts[0].0, payouts[0].1), cid, payouts[1..])
  }

  function ApplyPayouts(b: Bridge, cid: Addr, payouts: seq<(Addr, Elem)>): Option<Bridge> {
    if TotalOwed(payouts) > Get(b, cid) then None else Some(PayAll(b, cid, payouts))
  }

  // ---- one call ------------------------------------------------------------------------------------

  datatype Purse = Purse(bridge: Bridge, assets: A.Assets)

  /** The call value moves from the caller to the contract; None when the caller cannot cover it. */
  function Escrow(b: Bridge, l: A.Assets, pub: PublicCall): Option<Purse> {
    if pub.value <= 0 then Some(Purse(b, l))
    else if pub.asset != 0 then
      if !(0 <= pub.asset < P) then None
      else
        var l' :- A.Escrow(l, pub.asset, pub.caller, pub.cid, pub.value);
        Some(Purse(b, l'))
    else if Get(b, pub.caller) < pub.value then None
    else Some(Purse(Transfer(b, pub.caller, pub.cid, pub.value), l))
  }

  /** The machine reduces every context value into the field. */
  function Context(env: Env, pub: PublicCall, args: seq<Elem>, abal: map<Elem, nat>): Ctx {
    Ctx(env.digest(pub.caller), pub.value % P, pub.cursor % P, pub.timestamp % P, pub.asset % P, env.digest(pub.cid),
        args, env.blockHashes, env.beacons, abal, env.sponge)
  }

  function Execute(code: Code, name: string, ctx: Ctx, slots: map<Elem, Elem>): Outcome {
    if name in code then Run(ctx, code[name], slots) else Failure
  }

  /** Asset effects are staged and committed together, or fail the call. */
  function Settle(l: A.Assets, cid: Addr, effects: seq<Effect>): Option<A.Assets> {
    if effects == [] then Some(l)
    else
      var staged :- A.Stage(l, cid, A.NOTHING, effects);
      Some(A.Commit(l, staged))
  }

  /** _run_call: the whole state after one call, or None where it raises. */
  function CallStep(env: Env, s: State, call: Call): Option<Done> {
    var pub := Publish(env, call);
    if pub.cid !in s.contracts || !s.contracts[pub.cid].zk then None
    else
      var c := s.contracts[pub.cid];
      var stmt :- Digest(env.digest, s.reg, pub.caller, pub.args);
      var purse :- Escrow(s.bridge, s.assets, pub);
      var ctx := Context(env, pub, stmt.args, A.View(purse.assets, pub.cid));
      var out := Execute(c.code, pub.name, ctx, c.slots);
      if out.Failure? then None
      else
        var log :- Split(stmt.reg, out.io);
        var bridge :- ApplyPayouts(purse.bridge, pub.cid, log.payouts);
        var assets :- Settle(purse.assets, pub.cid, log.effects);
        Some(Done(State(s.contracts[pub.cid := c.(slots := out.st)], bridge, assets, stmt.reg),
                  EpochCall(pub, c.code, ctx, c.slots), out, log.payouts))
  }

  /** The whole statement, against what has been collected and what is left. */
  ghost predicate Collected(all: Option<Statement>, out: seq<Elem>, rest: Option<Statement>) {
    if rest.None? then all.None? else all == Some(Statement(rest.value.reg, out + rest.value.args))
  }

  /** The prover's shadow ledgers. A call that raises leaves them half updated: the span is given up. */
  class Shadow {
    var contracts: Contracts
    var bridge: Bridge
    var assets: A.Assets
    var registry: Registry

    function Now(): State
      reads this
    {
      State(contracts, bridge, assets, registry)
    }

    constructor (s: State)
      ensures Now() == s
    {
      contracts, bridge, assets, registry := s.contracts, s.bridge, s.assets, s.reg;
    }

    /** runtimes.zkvm_statement */
    method Register(digest: Addr -> Elem, caller: Addr, args: seq<Arg>) returns (r: Option<seq<Elem>>)
      modifies this`registry
      ensures match Digest(digest, old(registry), caller, args)
              case None => r.None?
              case Some(stmt) => r == Some(stmt.args) && registry == stmt.reg
    {
      registry := registry[digest(caller) := caller];
      var out: seq<Elem> := [];
      ghost var all := DigestArgs(digest, registry, args);
      assert forall xs: seq<Elem> :: [] + xs == xs;
      for i := 0 to |args|
        invariant Collected(all, out, DigestArgs(digest, registry, args[i..]))
      {
        assert args[i..][1..] == args[i + 1..];
        assert forall x: Elem, xs: seq<Elem> :: out + ([x] + xs) == out + [x] + xs;
        match args[i] {
          case Junk => return None;
          case Num(n) =>
            if !(0 <= n < P) {
              return None;
            }
            out := out + [n];
          case Text(s) =>
            registry := registry[digest(s) := s];
            out := out + [digest(s)];
        }
      }
      assert out + [] == out;
      r := Some(out);
    }

    /** settlement_proofs._apply_payouts */
    method Pay(cid: Addr, payouts: seq<(Addr, Elem)>) returns (ok: bool)
      modifies this`bridge
      ensures match ApplyPayouts(old(bridge), cid, payouts)
              case None => !ok && bridge == old(bridge)
              case Some(b) => ok && bridge == b
    {
      var total: int := 0;
      for i := 0 to |payouts|
        invariant total + TotalOwed(payouts[i..]) == TotalOwed(payouts)
      {
        assert payouts[i..][1..] == payouts[i + 1..];
        total := total + payouts[i].1;
      }
      if total > Get(bridge, cid) {
        return false;
      }
      for i := 0 to |payouts|
        invariant PayAll(bridge, cid, payouts[i..]) == PayAll(old(bridge), cid, payouts)
      {
        assert payouts[i..][1..] == payouts[i + 1..];
        var (to, amt) := payouts[i];
        ghost var before := bridge;
        bridge := bridge[cid := Get(bridge, cid) - amt];
        if bridge[cid] == 0 {
          bridge := bridge - {cid};
        }
        assert bridge == Put(before, cid, Get(before, cid) - amt);
        bridge := bridge[to := Get(bridge, to) + amt];
      }
      ok := true;
    }

    method EscrowValue(pub: PublicCall) returns (ok: bool)
      modifies this`bridge, this`assets
      ensures match Escrow(old(bridge), old(assets), pub)
              case None => !ok
              case Some(purse) => ok && Purse(bridge, assets) == purse
    {
      if pub.value > 0 {
        if pub.asset != 0 {
          if !(0 <= pub.asset < P) {
            return false;
          }
          var moved := A.Escrow(assets, pub.asset, pub.caller, pub.cid, pub.value);
          if moved.None? {
            return false;
          }
          assets := moved.value;
        } else {
          if Get(bridge, pub.caller) < pub.value {
            return false;
          }
          bridge := bridge[pub.caller := Get(bridge, pub.caller) - pub.value];
          if bridge[pub.caller] == 0 {
            bridge := bridge - {pub.caller};
          }
          assert bridge == Put(old(bridge), pub.caller, Get(old(bridge), pub.caller) - pub.value);
          bridge := bridge[pub.cid := Get(bridge, pub.cid) + pub.value];
        }
      }
      ok := true;
    }

    method RunCall(env: Env, call: Call) returns (r: Option<Done>)
      modifies this
      ensures r == CallStep(env, old(Now()), call)
      ensures r.Some? ==> Now() == r.value.post
    {
      hide Digest, Escrow, A.View, Run, Split, ApplyPayouts, A.Stage, A.Commit;
      var pub := Publish(env, call);
      if pub.cid !in contracts || !contracts[pub.cid].zk {
        return None;
      }
      var c := contracts[pub.cid];
      var args :- Register(env.digest, pub.caller, pub.args);
      var covered := EscrowValue(pub);
      if !covered {
        return None;
      }
      var ctx := Context(env, pub, args, A.View(assets, pub.cid));
      if pub.name !in c.code {
        return None;
      }
      var out := Interpret(ctx, c.code[pub.name], c.slots);
      if out.Failure? {
        return None;
      }
      var log :- SplitIo(out.io, registry);
      var paid := Pay(pub.cid, log.payouts);
      if !paid {
        return None;
      }
      if log.effects != [] {
        var staged :- A.StageEffects(assets, pub.cid, log.effects);
        assets := A.Commit(assets, staged);
      }
      contracts := contracts[pub.cid := c.(slots := out.st)];
      r := Some(Done(Now(), EpochCall(pub, c.code, ctx, c.slots), out, log.payouts));
    }
  }
}
