/** The alias registry and its rollback without an undo log (ops/alias_ops.py). */
module Alias {
  import opened Options

  type Addr = string
  type Names = map<string, Addr>

  const ALIAS_REGISTRATION_FEE: int := 10_000_000
  const MIN_TX_FEE: int := 1000

  datatype Data = Data(op: string, name: string, to: Addr)

  /** An alias transaction; data that is not an object is None. */
  datatype Tx = Tx(sender: Addr, amount: int, fee: int, data: Option<Data>)

  /** The name and address checks, opaque here. */
  datatype Syntax = Syntax(validName: string -> bool, validAddress: Addr -> bool)

  function Owner(names: Names, name: string): Option<Addr> {
    if name in names then Some(names[name]) else None
  }

  predicate Valid(sx: Syntax, names: Names, tx: Tx) {
    tx.data.Some? &&
    var d := tx.data.value;
    tx.amount == 0 && sx.validName(d.name) &&
    if d.op == "register" then Owner(names, d.name).None? && tx.fee >= ALIAS_REGISTRATION_FEE
    else if d.op == "transfer" then
      Owner(names, d.name) == Some(tx.sender) && sx.validAddress(d.to) && tx.fee >= MIN_TX_FEE
    else d.op == "unregister" && Owner(names, d.name) == Some(tx.sender) && tx.fee >= MIN_TX_FEE
  }

  /** The registry after applying, or reverting, one transaction. */
  function Applied(names: Names, tx: Tx, revert: bool): Names {
    if tx.data.None? then names
    else
      var d := tx.data.value;
      if d.op == "register" then if revert then names - {d.name} else names[d.name := tx.sender]
      else if d.op == "transfer" then names[d.name := if revert then tx.sender else d.to]
      else if d.op == "unregister" then if revert then names[d.name := tx.sender] else names - {d.name}
      else names
  }

  /** Whom a valid transaction leaves the name to: its recipient, its sender, or nobody. */
  lemma ValidLeaves(sx: Syntax, names: Names, tx: Tx)
    requires Valid(sx, names, tx)
    ensures var d := tx.data.value;
            && (d.op == "register" || d.op == "transfer" || d.op == "unregister")
            && Owner(Applied(names, tx, false), d.name) ==
               (if d.op == "transfer" then Some(d.to) else if d.op == "register" then Some(tx.sender) else None)
            && Owner(names, d.name) == (if d.op == "register" then None else Some(tx.sender))
            && forall n :: n != d.name ==> Owner(Applied(names, tx, false), n) == Owner(names, n)
  {
  }

  class Registry {
    var names: Names

    constructor (names: Names)
      ensures this.names == names
    {
      this.names := names;
    }

    /** An accepted transaction is about a free name or one of the sender's own, and undoing it undoes it. */
    method Validate(sx: Syntax, tx: Tx) returns (ok: bool)
      ensures ok <==> Valid(sx, names, tx)
      ensures ok ==> Owner(names, tx.data.value.name) == None || Owner(names, tx.data.value.name) == Some(tx.sender)
      ensures ok ==> Applied(Applied(names, tx, false), tx, true) == names
    {
      if Valid(sx, names, tx) { OneUndone(sx, names, tx); }
      if tx.data.None? || tx.amount != 0 || !sx.validName(tx.data.value.name) {
        return false;
      }
      var d := tx.data.value;
      var owner := Owner(names, d.name);
      if d.op == "register" {
        return owner.None? && tx.fee >= ALIAS_REGISTRATION_FEE;
      } else if d.op == "transfer" {
        return owner == Some(tx.sender) && sx.validAddress(d.to) && tx.fee >= MIN_TX_FEE;
      } else if d.op == "unregister" {
        return owner == Some(tx.sender) && tx.fee >= MIN_TX_FEE;
      }
      ok := false;
    }

    method Apply(tx: Tx, revert: bool)
      modifies this
      ensures names == Applied(old(names), tx, revert)
      ensures forall n :: !Touches(tx, n) ==> Owner(names, n) == Owner(old(names), n)
    {
      if tx.data.Some? {
        var d := tx.data.value;
        if d.op == "register" {
          names := if revert then names - {d.name} else names[d.name := tx.sender];
        } else if d.op == "transfer" {
          names := names[d.name := if revert then tx.sender else d.to];
        } else if d.op == "unregister" {
          names := if revert then names[d.name := tx.sender] else names - {d.name};
        }
      }
    }

    method ApplyAll(txs: seq<Tx>, revert: bool)
      modifies this
      ensures names == Through(old(names), txs, revert)
    {
      for i := 0 to |txs|
        invariant Through(names, txs[i..], revert) == Through(old(names), txs, revert)
      {
        assert txs[i..][1..] == txs[i + 1..];
        Apply(txs[i], revert);
      }
    }
  }

  function Through(names: Names, txs: seq<Tx>, revert: bool): Names
    decreases |txs|
  {
    if txs == [] then names else Through(Applied(names, txs[0], revert), txs[1..], revert)
  }

  // ---- undoing a block -----------------------------------------------------------------------------

  ghost predicate AllValid(sx: Syntax, names: Names, txs: seq<Tx>) {
    forall i :: 0 <= i < |txs| ==> Valid(sx, names, txs[i])
  }

  predicate Touches(tx: Tx, name: string) {
    tx.data.Some? && tx.data.value.name == name
  }

  predicate Touched(txs: seq<Tx>, name: string) {
    txs != [] && (Touches(txs[0], name) || Touched(txs[1..], name))
  }

  lemma {:induction false} TouchedBy(txs: seq<Tx>, name: string)
    ensures Touched(txs, name) <==> exists tx :: tx in txs && Touches(tx, name)
  {
    if txs != [] {
      TouchedBy(txs[1..], name);
      assert forall tx :: tx in txs <==> tx == txs[0] || tx in txs[1..];
    }
  }

  lemma {:induction false} Untouched(names: Names, txs: seq<Tx>, revert: bool, name: string)
    requires !Touched(txs, name)
    ensures Owner(Through(names, txs, revert), name) == Owner(names, name)
    decreases |txs|
  {
    if txs != [] {
      Untouched(Applied(names, txs[0], revert), txs[1..], revert, name);
    }
  }

  /** A transaction valid against a registry reverts its name to what that registry says, from any state. */
  lemma RevertsToBase(sx: Syntax, base: Names, now: Names, tx: Tx)
    requires Valid(sx, base, tx)
    ensures Owner(Applied(now, tx, true), tx.data.value.name) == Owner(base, tx.data.value.name)
    ensures forall n :: n != tx.data.value.name ==> Owner(Applied(now, tx, true), n) == Owner(now, n)
  {
  }

  lemma OneUndone(sx: Syntax, names: Names, tx: Tx)
    requires Valid(sx, names, tx)
    ensures Applied(Applied(names, tx, false), tx, true) == names
  {
    var next := Applied(names, tx, false);
    RevertsToBase(sx, names, next, tx);
    forall n ensures Owner(Applied(next, tx, true), n) == Owner(names, n) {}
    SameNames(Applied(next, tx, true), names);
  }

  /** After undoing transactions valid against `base`, in whatever order, every name they touch is as in `base` and
    * every other name is left alone. */
  lemma {:induction false} UndoRestores(sx: Syntax, base: Names, now: Names, undo: seq<Tx>, name: string)
    requires AllValid(sx, base, undo)
    ensures Owner(Through(now, undo, true), name) == if Touched(undo, name) then Owner(base, name) else Owner(now, name)
    decreases |undo|
  {
    if undo != [] {
      RevertsToBase(sx, base, now, undo[0]);
      UndoRestores(sx, base, Applied(now, undo[0], true), undo[1..], name);
    }
  }

  lemma SameNames(x: Names, y: Names)
    requires forall n :: Owner(x, n) == Owner(y, n)
    ensures x == y
  {
    forall n | n in x ensures n in y && x[n] == y[n] { assert Owner(x, n) == Owner(y, n); }
    forall n | n in y ensures n in x { assert Owner(x, n) == Owner(y, n); }
  }

  /** Rollback symmetry: transactions each valid against the registry before the block -- even several on one name --
    * applied in any order and undone in any order leave that registry. */
  lemma {:induction false} BlockRollback(sx: Syntax, names: Names, txs: seq<Tx>, undo: seq<Tx>)
    requires AllValid(sx, names, txs)
    requires forall tx :: tx in txs <==> tx in undo
    ensures Through(Through(names, txs, false), undo, true) == names
  {
    var after := Through(names, txs, false);
    forall i | 0 <= i < |undo| ensures Valid(sx, names, undo[i]) {
      assert undo[i] in txs;
    }
    forall n ensures Owner(Through(after, undo, true), n) == Owner(names, n) {
      UndoRestores(sx, names, after, undo, n);
      TouchedBy(txs, n);
      TouchedBy(undo, n);
      if !Touched(undo, n) { Untouched(names, txs, false, n); }
    }
    SameNames(Through(after, undo, true), names);
  }

  /** A chain of blocks, each valid against the registry it is applied to. */
  ghost predicate ChainValid(sx: Syntax, names: Names, blocks: seq<seq<Tx>>)
    decreases |blocks|
  {
    blocks == [] || (AllValid(sx, names, blocks[0]) && ChainValid(sx, Through(names, blocks[0], false), blocks[1..]))
  }

  function Forward(names: Names, blocks: seq<seq<Tx>>): Names
    decreases |blocks|
  {
    if blocks == [] then names else Forward(Through(names, blocks[0], false), blocks[1..])
  }

  /** Undoing blocks from the last to the first. */
  function Back(names: Names, blocks: seq<seq<Tx>>): Names
    decreases |blocks|
  {
    if blocks == [] then names else Through(Back(names, blocks[1..]), blocks[0], true)
  }

  /** Any number of blocks undone last first restores the registry before them. */
  lemma {:induction false} ChainRollback(sx: Syntax, names: Names, blocks: seq<seq<Tx>>)
    requires ChainValid(sx, names, blocks)
    ensures Back(Forward(names, blocks), blocks) == names
    decreases |blocks|
  {
    if blocks != [] {
      ChainRollback(sx, Through(names, blocks[0], false), blocks[1..]);
      BlockRollback(sx, names, blocks[0], blocks[0]);
    }
  }

  function Reversed(txs: seq<Tx>): seq<Tx> {
    if txs == [] then [] else Reversed(txs[1..]) + [txs[0]]
  }

  ghost predicate ValidInTurn(sx: Syntax, names: Names, txs: seq<Tx>)
    decreases |txs|
  {
    txs == [] || (Valid(sx, names, txs[0]) && ValidInTurn(sx, Applied(names, txs[0], false), txs[1..]))
  }

  // ---- what an owner has and what it cost ----------------------------------------------------------

  function FeesPaid(txs: seq<Tx>): int {
    if txs == [] then 0 else txs[0].fee + FeesPaid(txs[1..])
  }

  /** How many names the registry gains, less those it loses. */
  function Gained(names: Names, tx: Tx): int {
    |Applied(names, tx, false)| - |names|
  }

  lemma ValidCosts(sx: Syntax, names: Names, tx: Tx)
    requires Valid(sx, names, tx)
    ensures tx.amount == 0 && tx.fee >= ALIAS_REGISTRATION_FEE * Gained(names, tx) && tx.fee >= MIN_TX_FEE
  {
    var name := tx.data.value.name;
    var next := Applied(names, tx, false);
    if tx.data.value.op == "register" {
      assert next.Keys == names.Keys + {name};
    } else if tx.data.value.op == "transfer" {
      assert next.Keys == names.Keys;
    } else {
      assert next.Keys == names.Keys - {name};
    }
    assert |names| == |names.Keys| && |next| == |next.Keys|;
  }

  /** Every name held beyond those held before has been paid for, and every transaction paid something. */
  lemma {:induction false} NamesPaidFor(sx: Syntax, names: Names, txs: seq<Tx>)
    requires ValidInTurn(sx, names, txs)
    ensures FeesPaid(txs) >= ALIAS_REGISTRATION_FEE * (|Through(names, txs, false)| - |names|)
    ensures FeesPaid(txs) >= MIN_TX_FEE * |txs|
    decreases |txs|
  {
    if txs != [] {
      ValidCosts(sx, names, txs[0]);
      NamesPaidFor(sx, Applied(names, txs[0], false), txs[1..]);
    }
  }

  /** A name changes hands only through its owner: whoever held it and no longer does sent a transaction for it. */
  lemma {:induction false} OwnerLetGo(sx: Syntax, names: Names, txs: seq<Tx>, name: string, who: Addr)
    requires ValidInTurn(sx, names, txs)
    requires Owner(names, name) == Some(who) && Owner(Through(names, txs, false), name) != Some(who)
    ensures exists tx :: tx in txs && Touches(tx, name) && tx.sender == who
                         && (tx.data.value.op == "transfer" || tx.data.value.op == "unregister")
    decreases |txs|
  {
    ValidLeaves(sx, names, txs[0]);
    if !(Touches(txs[0], name) && txs[0].sender == who) {
      OwnerLetGo(sx, Applied(names, txs[0], false), txs[1..], name, who);
    } else {
      assert txs[0] in txs;
    }
  }

  /** Every name in the registry passes the name check. */
  ghost predicate Named(sx: Syntax, names: Names) {
    forall n :: n in names ==> sx.validName(n)
  }

  /** Every owner passes the address check. */
  ghost predicate Addressed(sx: Syntax, names: Names) {
    forall n :: n in names ==> sx.validAddress(names[n])
  }

  /** Names stay well formed, and so do owners as long as the senders are. */
  lemma {:induction false} StaysWellFormed(sx: Syntax, names: Names, txs: seq<Tx>)
    requires ValidInTurn(sx, names, txs)
    ensures Named(sx, names) ==> Named(sx, Through(names, txs, false))
    ensures Addressed(sx, names) && (forall tx :: tx in txs ==> sx.validAddress(tx.sender)) ==>
              Addressed(sx, Through(names, txs, false))
    decreases |txs|
  {
    if txs != [] {
      assert txs[0] in txs && forall tx :: tx in txs[1..] ==> tx in txs;
      StaysWellFormed(sx, Applied(names, txs[0], false), txs[1..]);
    }
  }

  lemma {:induction false} ThroughConcat(names: Names, x: seq<Tx>, y: seq<Tx>, revert: bool)
    ensures Through(names, x + y, revert) == Through(Through(names, x, revert), y, revert)
    decreases |x|
  {
    if x == [] {
      assert x + y == y;
    } else {
      assert (x + y)[1..] == x[1..] + y;
      ThroughConcat(Applied(names, x[0], revert), x[1..], y, revert);
    }
  }

  /** Transactions valid one after another also undo, but only last first. */
  lemma {:induction false} TurnRollback(sx: Syntax, names: Names, txs: seq<Tx>)
    requires ValidInTurn(sx, names, txs)
    ensures Through(Through(names, txs, false), Reversed(txs), true) == names
    decreases |txs|
  {
    if txs != [] {
      var next := Applied(names, txs[0], false);
      TurnRollback(sx, next, txs[1..]);
      ThroughConcat(Through(names, txs, false), Reversed(txs[1..]), [txs[0]], true);
      assert [txs[0]][1..] == [];
      OneUndone(sx, names, txs[0]);
    }
  }

  lemma ThroughTwo(names: Names, x: Tx, y: Tx, revert: bool)
    ensures Through(names, [x, y], revert) == Applied(Applied(names, x, revert), y, revert)
  {
    hide Applied;
    var next := Applied(names, x, revert);
    assert [x, y][1..] == [y] && [y][1..] == [];
    assert Through(next, [y], revert) == Applied(next, y, revert);
  }

  lemma InTurn(sx: Syntax, names: Names, x: Tx, y: Tx)
    ensures ValidInTurn(sx, names, [x, y]) <==> Valid(sx, names, x) && Valid(sx, Applied(names, x, false), y)
  {
    hide Applied, Valid;
    var next := Applied(names, x, false);
    assert [x, y][1..] == [y] && [y][1..] == [];
    assert ValidInTurn(sx, next, [y]) <==> Valid(sx, next, y);
  }

  /** First first, a registration followed by its own transfer leaves the name behind. */
  lemma TurnNeedsOrder(sx: Syntax, a: Addr, b: Addr, name: string)
    requires sx.validName(name) && sx.validAddress(b)
    ensures var reg := Tx(a, 0, ALIAS_REGISTRATION_FEE, Some(Data("register", name, "")));
            var move := Tx(a, 0, MIN_TX_FEE, Some(Data("transfer", name, b)));
            && ValidInTurn(sx, map[], [reg, move])
            && Through(Through(map[], [reg, move], false), [reg, move], true) == map[name := a]
  {
    var reg := Tx(a, 0, ALIAS_REGISTRATION_FEE, Some(Data("register", name, "")));
    var move := Tx(a, 0, MIN_TX_FEE, Some(Data("transfer", name, b)));
    InTurn(sx, map[], reg, move);
    ThroughTwo(map[], reg, move, false);
    ThroughTwo(map[name := b], reg, move, true);
    assert Applied(map[], reg, false) == map[name := a];
    assert Applied(map[name := a], move, false) == map[name := b];
    assert Applied(map[name := b], reg, true) == map[];
    assert Applied(map[], move, true) == map[name := a];
  }
}
