/**
 The asset half of a call (state.stage_asset_effects_pure, commit_asset_effects_pure, asset_credit_dict): effects are
 staged as one batch against the ledger and committed only when every one of them is legal.
 */
module SettleAssets {
  import opened Options
  import opened Field
  import opened Sums
  import opened SettleLog

  const ASSET_SUPPLY_CAP: int := 0x4000_0000_0000_0000

  type Row = (Elem, Addr)
  type Rows = map<Row, int>

  datatype Meta = Meta(issuer: Addr, mintable: bool, supply: int)

  /** Balances by asset and holder, a missing row being zero, and what is recorded of each asset. */
  datatype Assets = Assets(rows: Rows, meta: map<Elem, Meta>)

  datatype Staged = Staged(deltas: Rows, sup: map<Elem, int>, sealed: set<Elem>)

  const NOTHING := Staged(map[], map[], {})

  function Balance(l: Assets, s: Staged, k: Row): int {
    Get(l.rows, k) + Get(s.deltas, k)
  }

  function Move(s: Staged, k: Row, amt: int): Staged {
    s.(deltas := s.deltas[k := Get(s.deltas, k) + amt])
  }

  function Issue(s: Staged, a: Elem, amt: int): Staged {
    s.(sup := s.sup[a := Get(s.sup, a) + amt])
  }

  /** One effect of `actor`; None fails the batch. */
  function StageStep(l: Assets, actor: Addr, s: Staged, e: Effect): Option<Staged> {
    match e
    case Bal(a, v) => if Balance(l, s, (a, actor)) != v then None else Some(s)
    case Renounce(a) =>
      if a !in l.meta || l.meta[a].issuer != actor then None else Some(s.(sealed := s.sealed + {a}))
    case Pay(a, to, n) =>
      if n == 0 then Some(s)
      else if n >= ASSET_SUPPLY_CAP || a !in l.meta || to.None? || Balance(l, s, (a, actor)) < n then None
      else Some(Move(Move(s, (a, actor), 0 - n), (a, to.value), n))
    case Mint(a, to, n) =>
      if n == 0 then Some(s)
      else if n >= ASSET_SUPPLY_CAP || a !in l.meta || l.meta[a].issuer != actor || !l.meta[a].mintable then None
      else if to.None? || l.meta[a].supply + Get(s.sup, a) + n > ASSET_SUPPLY_CAP then None
      else Some(Issue(Move(s, (a, to.value), n), a, n))
    case Burn(a, n) =>
      if n == 0 then Some(s)
      else if n >= ASSET_SUPPLY_CAP || a !in l.meta || Balance(l, s, (a, actor)) < n then None
      else Some(Issue(Move(s, (a, actor), 0 - n), a, 0 - n))
  }

  function Stage(l: Assets, actor: Addr, s: Staged, effects: seq<Effect>): Option<Staged>
    decreases |effects|
  {
    if effects == [] then Some(s)
    else
      var next :- StageStep(l, actor, s, effects[0]);
      Stage(l, actor, next, effects[1..])
  }

  method StageEffects(l: Assets, actor: Addr, effects: seq<Effect>) returns (r: Option<Staged>)
    ensures r == Stage(l, actor, NOTHING, effects)
  {
    var s := NOTHING;
    for i := 0 to |effects|
      invariant Stage(l, actor, NOTHING, effects) == Stage(l, actor, s, effects[i..])
    {
      match StageStep(l, actor, s, effects[i]) {
        case None => return None;
        case Some(next) =>
          assert effects[i..][1..] == effects[i + 1..];
          s := next;
      }
    }
    r := Some(s);
  }

  /** The rows after crediting every delta: a touched row that comes to zero goes away. */
  function CommitRows(rows: Rows, deltas: Rows): Rows {
    map k | k in rows.Keys + deltas.Keys && (k in deltas ==> Get(rows, k) + deltas[k] != 0)
      :: Get(rows, k) + Get(deltas, k)
  }

  function Commit(l: Assets, s: Staged): Assets {
    Assets(CommitRows(l.rows, s.deltas),
           map a | a in l.meta ::
             l.meta[a].(supply := l.meta[a].supply + Get(s.sup, a),
                        mintable := l.meta[a].mintable && a !in s.sealed))
  }

  /** The loop over the staged deltas, in whatever order the dictionary yields them. */
  method CreditAll(rows: Rows, deltas: Rows) returns (r: Rows)
    ensures r == CommitRows(rows, deltas)
  {
    hide CommitRows;
    r := rows;
    var todo := deltas;
    while todo != map[]
      invariant CommitRows(r, todo) == CommitRows(rows, deltas)
      decreases |todo|
    {
      var k :| k in todo;
      CreditOne(r, todo, k);
      r, todo := Put(r, k, Get(r, k) + todo[k]), todo - {k};
    }
    CommitNothing(r);
  }

  lemma CreditOne(rows: Rows, deltas: Rows, k: Row)
    requires k in deltas
    ensures CommitRows(Put(rows, k, Get(rows, k) + deltas[k]), deltas - {k}) == CommitRows(rows, deltas)
  {
    hide CommitRows;
    var credited, rest := Put(rows, k, Get(rows, k) + deltas[k]), deltas - {k};
    var m, n := CommitRows(credited, rest), CommitRows(rows, deltas);
    forall x ensures SameAt(m, n, x) {
      CommitAt(credited, rest, x);
      CommitAt(rows, deltas, x);
    }
    SameRows(m, n);
  }

  lemma CommitNothing(rows: Rows)
    ensures CommitRows(rows, map[]) == rows
  {
    forall k ensures SameAt(CommitRows(rows, map[]), rows, k) {
      CommitAt(rows, map[], k);
    }
    SameRows(CommitRows(rows, map[]), rows);
  }

  /** Staging one more move and committing is committing and then writing the one row. */
  lemma CommitMoves(rows: Rows, deltas: Rows, k: Row, amt: int)
    ensures Get(CommitRows(rows, deltas), k) == Get(rows, k) + Get(deltas, k)
    ensures CommitRows(rows, deltas[k := Get(deltas, k) + amt]) ==
            Put(CommitRows(rows, deltas), k, Get(CommitRows(rows, deltas), k) + amt)
  {
    var was, after := CommitRows(rows, deltas), deltas[k := Get(deltas, k) + amt];
    CommitAt(rows, deltas, k);
    var m, n := CommitRows(rows, after), Put(was, k, Get(was, k) + amt);
    forall x ensures SameAt(m, n, x) {
      CommitAt(rows, deltas, x);
      CommitAt(rows, after, x);
    }
    SameRows(m, n);
  }

  lemma CommitAt(rows: Rows, deltas: Rows, k: Row)
    ensures k in CommitRows(rows, deltas) <==>
              (if k in deltas then Get(rows, k) + deltas[k] != 0 else k in rows)
    ensures Get(CommitRows(rows, deltas), k) == Get(rows, k) + Get(deltas, k)
  {
  }

  ghost predicate SameAt(m: Rows, n: Rows, k: Row) {
    (k in m <==> k in n) && Get(m, k) == Get(n, k)
  }

  lemma SameRows(m: Rows, n: Rows)
    requires forall k :: SameAt(m, n, k)
    ensures m == n
  {
    forall k | k in m ensures k in n && m[k] == n[k] { assert SameAt(m, n, k); }
    forall k | k in n ensures k in m { assert SameAt(m, n, k); }
  }

  // ---- supply --------------------------------------------------------------------------------------

  function OfAsset(rows: Rows, a: Elem): Rows {
    map k | k in rows && k.0 == a :: rows[k]
  }

  /** What all holders of an asset have together. */
  ghost function Held(rows: Rows, a: Elem): int {
    Total(OfAsset(rows, a))
  }

  lemma HeldPut(rows: Rows, k: Row, v: int, a: Elem)
    ensures Held(Put(rows, k, v), a) == Held(rows, a) + if k.0 == a then v - Get(rows, k) else 0
  {
    var part := OfAsset(rows, a);
    if k.0 == a {
      assert OfAsset(Put(rows, k, v), a) == Put(part, k, v);
      TotalPut(part, k, v);
    } else {
      assert OfAsset(Put(rows, k, v), a) == part;
    }
  }

  /** Every row is positive and of a known asset, and the holders of an asset share out its supply exactly. */
  ghost predicate Backed(rows: Rows, meta: map<Elem, Meta>, sup: map<Elem, int>) {
    && Positive(rows)
    && (forall k :: k in rows ==> k.0 in meta)
    && (forall a :: a in meta ==>
          Held(rows, a) == meta[a].supply + Get(sup, a) <= ASSET_SUPPLY_CAP)
  }

  ghost predicate Sound(l: Assets) {
    Backed(l.rows, l.meta, map[])
  }

  ghost predicate StagedSound(l: Assets, s: Staged) {
    Backed(CommitRows(l.rows, s.deltas), l.meta, s.sup)
  }

  lemma MoveKeeps(l: Assets, s: Staged, k: Row, amt: int)
    requires k.0 in l.meta && Positive(CommitRows(l.rows, s.deltas))
    requires forall x :: x in CommitRows(l.rows, s.deltas) ==> x.0 in l.meta
    requires Balance(l, s, k) + amt >= 0
    ensures var r, r' := CommitRows(l.rows, s.deltas), CommitRows(l.rows, Move(s, k, amt).deltas);
            && Positive(r')
            && (forall x :: x in r' ==> x.0 in l.meta)
            && (forall a :: Held(r', a) == Held(r, a) + if k.0 == a then amt else 0)
            && (forall x :: Get(r', x) == Get(r, x) + if x == k then amt else 0)
  {
    hide CommitRows, Held;
    var r := CommitRows(l.rows, s.deltas);
    CommitMoves(l.rows, s.deltas, k, amt);
    forall a ensures Held(Put(r, k, Get(r, k) + amt), a) == Held(r, a) + if k.0 == a then amt else 0 {
      HeldPut(r, k, Get(r, k) + amt, a);
    }
  }

  lemma StageStepSound(l: Assets, actor: Addr, s: Staged, e: Effect)
    requires StagedSound(l, s) && StageStep(l, actor, s, e).Some?
    ensures StagedSound(l, StageStep(l, actor, s, e).value)
  {
    hide CommitRows, Held, Get;
    match e
    case Bal(_, _) =>
    case Renounce(_) =>
    case Pay(a, to, n) =>
      if n != 0 {
        MoveKeeps(l, s, (a, actor), 0 - n);
        RecipientCovered(l, Move(s, (a, actor), 0 - n), (a, to.value));
        MoveKeeps(l, Move(s, (a, actor), 0 - n), (a, to.value), n);
      }
    case Mint(a, to, n) =>
      if n != 0 {
        RecipientCovered(l, s, (a, to.value));
        MoveKeeps(l, s, (a, to.value), n);
        IssueKeeps(s, a, n);
      }
    case Burn(a, n) =>
      if n != 0 {
        MoveKeeps(l, s, (a, actor), 0 - n);
        IssueKeeps(s, a, 0 - n);
        HeldCovers(CommitRows(l.rows, s.deltas), (a, actor));
      }
  }

  lemma RecipientCovered(l: Assets, s: Staged, k: Row)
    requires Positive(CommitRows(l.rows, s.deltas))
    ensures Balance(l, s, k) >= 0
  {
    CommitMoves(l.rows, s.deltas, k, 0);
  }

  lemma IssueKeeps(s: Staged, a: Elem, n: int)
    ensures forall x :: Get(Issue(s, a, n).sup, x) == Get(s.sup, x) + if x == a then n else 0
  {
  }

  lemma HeldCovers(rows: Rows, k: Row)
    requires Positive(rows)
    ensures 0 <= Get(rows, k) <= Held(rows, k.0)
  {
    TotalCovers(OfAsset(rows, k.0), k);
  }

  lemma {:induction false} StageSound(l: Assets, actor: Addr, s: Staged, effects: seq<Effect>)
    requires StagedSound(l, s) && Stage(l, actor, s, effects).Some?
    ensures StagedSound(l, Stage(l, actor, s, effects).value)
    decreases |effects|
  {
    hide StageStep, StagedSound;
    if effects != [] {
      StageStepSound(l, actor, s, effects[0]);
      StageSound(l, actor, StageStep(l, actor, s, effects[0]).value, effects[1..]);
    }
  }

  /** Supply is conserved: a committed batch leaves every asset's holders sharing out exactly its new supply. */
  lemma CommitSound(l: Assets, actor: Addr, effects: seq<Effect>)
    requires Sound(l) && Stage(l, actor, NOTHING, effects).Some?
    ensures Sound(Commit(l, Stage(l, actor, NOTHING, effects).value))
  {
    hide Stage;
    var s := Stage(l, actor, NOTHING, effects).value;
    CommitNothing(l.rows);
    StageSound(l, actor, NOTHING, effects);
    var c := Commit(l, s);
    forall a | a in c.meta ensures Held(c.rows, a) == c.meta[a].supply <= ASSET_SUPPLY_CAP {}
  }

  // ---- what a batch does to one holder -------------------------------------------------------------

  /** The change an effect is meant to make to one row, read off the effect alone. */
  function Gain(actor: Addr, e: Effect, k: Row): int {
    match e
    case Pay(a, Some(to), n) => (if k == (a, to) then n else 0) - (if k == (a, actor) then n else 0)
    case Mint(a, Some(to), n) => if k == (a, to) then n else 0
    case Burn(a, n) => if k == (a, actor) then 0 - n else 0
    case _ => 0
  }

  function Gains(actor: Addr, effects: seq<Effect>, k: Row): int {
    if effects == [] then 0 else Gain(actor, effects[0], k) + Gains(actor, effects[1..], k)
  }

  lemma {:induction false} StageGains(l: Assets, actor: Addr, s: Staged, effects: seq<Effect>, k: Row)
    requires Stage(l, actor, s, effects).Some?
    ensures Balance(l, Stage(l, actor, s, effects).value, k) == Balance(l, s, k) + Gains(actor, effects, k)
    decreases |effects|
  {
    if effects != [] {
      var next := StageStep(l, actor, s, effects[0]).value;
      StageGains(l, actor, next, effects[1..], k);
      assert Get(next.deltas, k) == Get(s.deltas, k) + Gain(actor, effects[0], k);
    }
  }

  /** A committed batch gives every holder the sum of what its effects say, and nobody else anything. */
  lemma CommitGains(l: Assets, actor: Addr, effects: seq<Effect>, k: Row)
    requires Stage(l, actor, NOTHING, effects).Some?
    ensures Get(Commit(l, Stage(l, actor, NOTHING, effects).value).rows, k) == Get(l.rows, k) + Gains(actor, effects, k)
  {
    StageGains(l, actor, NOTHING, effects, k);
    CommitMoves(l.rows, Stage(l, actor, NOTHING, effects).value.deltas, k, 0);
  }

  /** Recipients only matter once they are needed: a batch legal with some of them unresolved is the same batch
    * with them resolved. */
  lemma {:induction false} StageSameIntents(l: Assets, actor: Addr, s: Staged, es: seq<Effect>, fs: seq<Effect>)
    requires SameIntents(es, fs) && Stage(l, actor, s, es).Some?
    ensures Stage(l, actor, s, fs) == Stage(l, actor, s, es)
    decreases |es|
  {
    if es != [] {
      assert SameIntent(es[0], fs[0]);
      assert StageStep(l, actor, s, fs[0]) == StageStep(l, actor, s, es[0]);
      StageSameIntents(l, actor, StageStep(l, actor, s, es[0]).value, es[1..], fs[1..]);
    }
  }

  /** Sealing is staged like everything else, so a mint later in the same call still goes through. */
  lemma RenounceThenMint(l: Assets, actor: Addr, a: Elem, to: Addr, n: Elem)
    requires Stage(l, actor, NOTHING, [Mint(a, Some(to), n)]).Some? && n > 0
    ensures var r := Stage(l, actor, NOTHING, [Renounce(a)] + [Mint(a, Some(to), n)]);
            && r.Some?
            && !Commit(l, r.value).meta[a].mintable
            && Commit(l, r.value).meta[a].supply == l.meta[a].supply + n
  {
    var mint := Mint(a, Some(to), n);
    StageOne(l, actor, NOTHING, mint, []);
    var sealed := NOTHING.(sealed := NOTHING.sealed + {a});
    assert StageStep(l, actor, NOTHING, Renounce(a)) == Some(sealed);
    StageOne(l, actor, NOTHING, Renounce(a), [mint]);
    StageOne(l, actor, sealed, mint, []);
  }

  // ---- sealed assets -------------------------------------------------------------------------------

  /** A known asset whose issuer has given up minting. */
  predicate Sealed(l: Assets, a: Elem) {
    a in l.meta && !l.meta[a].mintable
  }

  /** What a batch issues of an asset: its mints less its burns. */
  function Issued(effects: seq<Effect>, a: Elem): int {
    if effects == [] then 0 else IssuedBy(effects[0], a) + Issued(effects[1..], a)
  }

  function IssuedBy(e: Effect, a: Elem): int {
    if e.Mint? && e.asset == a then e.amount else if e.Burn? && e.asset == a then 0 - e.amount else 0
  }

  lemma {:induction false} StageIssues(l: Assets, actor: Addr, s: Staged, effects: seq<Effect>, a: Elem)
    requires Stage(l, actor, s, effects).Some?
    ensures var r := Stage(l, actor, s, effects).value;
            && Get(r.sup, a) == Get(s.sup, a) + Issued(effects, a)
            && (Sealed(l, a) ==> Issued(effects, a) <= 0)
    decreases |effects|
  {
    hide Sealed;
    if effects != [] {
      var next := StageStep(l, actor, s, effects[0]).value;
      StageStepIssues(l, actor, s, effects[0], a);
      StageIssues(l, actor, next, effects[1..], a);
    }
  }

  lemma StageStepIssues(l: Assets, actor: Addr, s: Staged, e: Effect, a: Elem)
    requires StageStep(l, actor, s, e).Some?
    ensures var r := StageStep(l, actor, s, e).value;
            && Get(r.sup, a) == Get(s.sup, a) + IssuedBy(e, a)
            && r.sealed == (if e.Renounce? then s.sealed + {e.asset} else s.sealed)
            && (Sealed(l, a) ==> IssuedBy(e, a) <= 0)
  {
  }

  /** A committed batch changes every supply by what it issues. It leaves an asset sealed exactly when the asset was
    * sealed before or is renounced in it, and a batch on a sealed asset issues nothing. */
  lemma CommitSeals(l: Assets, actor: Addr, effects: seq<Effect>, a: Elem)
    requires Stage(l, actor, NOTHING, effects).Some? && a in l.meta
    ensures var c := Commit(l, Stage(l, actor, NOTHING, effects).value);
            && a in c.meta && c.meta[a].supply == l.meta[a].supply + Issued(effects, a)
            && (Sealed(c, a) <==> Sealed(l, a) || Renounce(a) in effects)
            && (Sealed(l, a) ==> Issued(effects, a) <= 0)
  {
    hide Stage, CommitRows;
    StageIssues(l, actor, NOTHING, effects, a);
    StageSeals(l, actor, NOTHING, effects, a);
  }

  lemma {:induction false} StageSeals(l: Assets, actor: Addr, s: Staged, effects: seq<Effect>, a: Elem)
    requires Stage(l, actor, s, effects).Some?
    ensures a in Stage(l, actor, s, effects).value.sealed <==> a in s.sealed || Renounce(a) in effects
    decreases |effects|
  {
    hide Sealed;
    if effects != [] {
      StageStepIssues(l, actor, s, effects[0], a);
      StageSeals(l, actor, StageStep(l, actor, s, effects[0]).value, effects[1..], a);
      assert effects[0] in effects && forall e :: e in effects <==> e == effects[0] || e in effects[1..];
    }
  }

  // ---- exactly which batches are legal -------------------------------------------------------------

  /** What an effect needs besides balances: a known asset, its issuer to mint or renounce it, a known recipient, and
    * amounts and supply within the cap. */
  predicate Authorized(l: Assets, actor: Addr, before: seq<Effect>, e: Effect) {
    match e
    case Bal(_, _) => true
    case Renounce(a) => a in l.meta && l.meta[a].issuer == actor
    case Pay(a, to, n) => n > 0 ==> n < ASSET_SUPPLY_CAP && a in l.meta && to.Some?
    case Burn(a, n) => n > 0 ==> n < ASSET_SUPPLY_CAP && a in l.meta
    case Mint(a, to, n) =>
      n > 0 ==>
        && n < ASSET_SUPPLY_CAP && a in l.meta && to.Some?
        && l.meta[a].issuer == actor && l.meta[a].mintable
        && l.meta[a].supply + Issued(before, a) + n <= ASSET_SUPPLY_CAP
  }

  /** What the actor holds of an asset after the effects before. */
  function HeldAfter(l: Assets, actor: Addr, before: seq<Effect>, a: Elem): int {
    Get(l.rows, (a, actor)) + Gains(actor, before, (a, actor))
  }

  /** A read gives what is held, a payment or burn is covered by it. */
  predicate CoveredBy(l: Assets, actor: Addr, before: seq<Effect>, e: Effect) {
    && (e.Bal? ==> e.value == HeldAfter(l, actor, before, e.asset))
    && ((e.Pay? || e.Burn?) && e.amount > 0 ==> e.amount <= HeldAfter(l, actor, before, e.asset))
  }

  predicate Legal(l: Assets, actor: Addr, before: seq<Effect>, e: Effect) {
    Authorized(l, actor, before, e) && CoveredBy(l, actor, before, e)
  }

  lemma LegalStep(l: Assets, actor: Addr, before: seq<Effect>, s: Staged, e: Effect)
    requires Stage(l, actor, NOTHING, before) == Some(s)
    ensures StageStep(l, actor, s, e).Some? <==> Legal(l, actor, before, e)
  {
    hide Stage;
    StageIssues(l, actor, NOTHING, before, e.asset);
    StageGains(l, actor, NOTHING, before, (e.asset, actor));
  }

  /** A batch is staged if and only if every effect in it is legal after the ones before it. */
  lemma StageExactly(l: Assets, actor: Addr, effects: seq<Effect>)
    ensures Stage(l, actor, NOTHING, effects).Some? <==>
              forall i :: 0 <= i < |effects| ==> Legal(l, actor, effects[..i], effects[i])
    decreases |effects|
  {
    hide Stage, Legal;
    StageOne(l, actor, NOTHING, Bal(0, 0), []);
    if effects != [] {
      var init, last := effects[..|effects| - 1], effects[|effects| - 1];
      StageExactly(l, actor, init);
      StageConcat(l, actor, NOTHING, init, [last]);
      assert init + [last] == effects;
      assert forall i :: 0 <= i < |init| ==> effects[..i] == init[..i] && effects[i] == init[i];
      var s := Stage(l, actor, NOTHING, init);
      if s.Some? {
        LegalStep(l, actor, init, s.value, last);
        StageOne(l, actor, s.value, last, []);
        if StageStep(l, actor, s.value, last).Some? {
          StageOne(l, actor, StageStep(l, actor, s.value, last).value, last, []);
        }
      }
    }
  }

  /** So in a staged batch only the issuer of a known asset mints any of it or renounces it. */
  lemma OnlyIssuer(l: Assets, actor: Addr, effects: seq<Effect>, e: Effect)
    requires Stage(l, actor, NOTHING, effects).Some? && e in effects
    requires e.Renounce? || (e.Mint? && e.amount > 0)
    ensures e.asset in l.meta && l.meta[e.asset].issuer == actor
  {
    hide Stage;
    StageExactly(l, actor, effects);
    var i :| 0 <= i < |effects| && effects[i] == e;
    assert Legal(l, actor, effects[..i], effects[i]);
  }

  /** A committed batch that adds to an asset's supply, or seals it, was the issuer's. */
  lemma IssuersBatch(l: Assets, actor: Addr, effects: seq<Effect>, a: Elem)
    requires Stage(l, actor, NOTHING, effects).Some? && a in l.meta
    ensures var c := Commit(l, Stage(l, actor, NOTHING, effects).value);
            && a in c.meta && c.meta[a].issuer == l.meta[a].issuer
            && (c.meta[a].supply > l.meta[a].supply || (Sealed(c, a) && !Sealed(l, a)) ==> l.meta[a].issuer == actor)
  {
    hide Stage, CommitRows;
    CommitSeals(l, actor, effects, a);
    if Issued(effects, a) > 0 {
      var e := IssuedFrom(effects, a);
      OnlyIssuer(l, actor, effects, e);
    }
    if Renounce(a) in effects { OnlyIssuer(l, actor, effects, Renounce(a)); }
  }

  lemma {:induction false} IssuedFrom(effects: seq<Effect>, a: Elem) returns (e: Effect)
    requires Issued(effects, a) > 0
    ensures e in effects && e.Mint? && e.asset == a && e.amount > 0
  {
    if IssuedBy(effects[0], a) > 0 {
      e := effects[0];
    } else {
      e := IssuedFrom(effects[1..], a);
    }
  }

  /** Sealing is staged like everything else, so where in its batch a renounce stands makes no difference. */
  lemma RenounceAnywhere(l: Assets, actor: Addr, s: Staged, a: Elem, x: seq<Effect>, y: seq<Effect>)
    ensures Stage(l, actor, s, x + [Renounce(a)] + y) == Stage(l, actor, s, [Renounce(a)] + (x + y))
  {
    hide Stage;
    var e := Renounce(a);
    assert x + [e] + y == x + ([e] + y);
    StageConcat(l, actor, s, x, [e] + y);
    StageOne(l, actor, s, e, x + y);
    var sealed := s.(sealed := s.sealed + {a});
    StageConcat(l, actor, sealed, x, y);
    StageUnderSeal(l, actor, s, a, x);
    if Stage(l, actor, s, x).Some? {
      StageOne(l, actor, Stage(l, actor, s, x).value, e, y);
    }
  }

  lemma {:induction false} StageConcat(l: Assets, actor: Addr, s: Staged, x: seq<Effect>, y: seq<Effect>)
    ensures Stage(l, actor, s, x + y) ==
            match Stage(l, actor, s, x) case None => None case Some(mid) => Stage(l, actor, mid, y)
    decreases |x|
  {
    hide StageStep;
    if x == [] {
      assert x + y == y;
    } else {
      assert (x + y)[0] == x[0] && (x + y)[1..] == x[1..] + y;
      var next := StageStep(l, actor, s, x[0]);
      if next.Some? { StageConcat(l, actor, next.value, x[1..], y); }
    }
  }

  /** No effect looks at what is being sealed. */
  lemma {:induction false} StageUnderSeal(l: Assets, actor: Addr, s: Staged, a: Elem, x: seq<Effect>)
    ensures Stage(l, actor, s.(sealed := s.sealed + {a}), x) ==
            match Stage(l, actor, s, x) case None => None case Some(r) => Some(r.(sealed := r.sealed + {a}))
    decreases |x|
  {
    hide StageStep;
    if x != [] {
      StepUnderSeal(l, actor, s, a, x[0]);
      var next := StageStep(l, actor, s, x[0]);
      if next.Some? { StageUnderSeal(l, actor, next.value, a, x[1..]); }
    }
  }

  lemma StepUnderSeal(l: Assets, actor: Addr, s: Staged, a: Elem, e: Effect)
    ensures StageStep(l, actor, s.(sealed := s.sealed + {a}), e) ==
            match StageStep(l, actor, s, e) case None => None case Some(r) => Some(r.(sealed := r.sealed + {a}))
  {
    if e.Renounce? { assert s.sealed + {a} + {e.asset} == s.sealed + {e.asset} + {a}; }
  }

  lemma StageOne(l: Assets, actor: Addr, s: Staged, e: Effect, rest: seq<Effect>)
    ensures [e] + [] == [e]
    ensures Stage(l, actor, s, [e] + rest) ==
            match StageStep(l, actor, s, e) case None => None case Some(next) => Stage(l, actor, next, rest)
    ensures Stage(l, actor, s, []) == Some(s)
  {
    assert ([e] + rest)[1..] == rest;
  }

  // ---- escrow of an asset call value ---------------------------------------------------------------

  function Escrow(l: Assets, a: Elem, from: Addr, to: Addr, value: int): Option<Assets> {
    if a !in l.meta || Get(l.rows, (a, from)) < value then None
    else
      var debited := Put(l.rows, (a, from), Get(l.rows, (a, from)) - value);
      Some(l.(rows := Put(debited, (a, to), Get(debited, (a, to)) + value)))
  }

  lemma EscrowSound(l: Assets, a: Elem, from: Addr, to: Addr, value: int)
    requires Sound(l) && value > 0 && Escrow(l, a, from, to, value).Some?
    ensures Sound(Escrow(l, a, from, to, value).value)
  {
    hide Held;
    var debited := Put(l.rows, (a, from), Get(l.rows, (a, from)) - value);
    forall b ensures Held(Escrow(l, a, from, to, value).value.rows, b) == Held(l.rows, b) {
      HeldPut(l.rows, (a, from), Get(l.rows, (a, from)) - value, b);
      HeldPut(debited, (a, to), Get(debited, (a, to)) + value, b);
    }
  }

  /** No balance is ever negative (Sound); the type of the machine's view needs to be told. */
  function AsNat(x: int): nat {
    if x < 0 then 0 else x
  }

  /** The balances a contract sees: its own rows. */
  function View(l: Assets, cid: Addr): map<Elem, nat> {
    map k | k in l.rows && k.1 == cid && l.rows[k] != 0 :: k.0 := AsNat(l.rows[k])
  }

  lemma ViewIsBalance(l: Assets, cid: Addr, a: Elem)
    requires Positive(l.rows)
    ensures (if a in View(l, cid) then View(l, cid)[a] else 0) == Get(l.rows, (a, cid))
  {
    var k := (a, cid);
    if k in l.rows { assert k.1 == cid && k.0 == a && a in View(l, cid); }
  }
}
