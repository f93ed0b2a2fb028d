/** The settled execution root (execnode/exec_root.py): record positions, projections of the ledgers onto them, and the
  * persistent store that is kept in step with a projection. */
module ExecRoot {
  import opened Options
  import opened Field
  import opened Numbers
  import opened SparseTree
  import opened SparseStore
  import Sums

  const LIMB: nat := 0x10_0000_0000_0000
  const LANE: nat := 0x1_0000_0000_0000_0000
  const DOM_REC: nat := 8
  const DEPTH: nat := 256

  // ---- limbs and lanes -----------------------------------------------------------------------------

  /** The lowest `count` limbs of 52 bits. */
  function Digits(n: nat, count: nat): (d: seq<nat>)
    ensures |d| == count
    decreases count
  {
    if count == 0 then [] else [n % LIMB] + Digits(n / LIMB, count - 1)
  }

  lemma Scaled(x: nat, y: nat, b: nat)
    ensures x <= y ==> b * x <= b * y
  {
  }

  lemma Below(n: nat, b: nat, p: nat)
    requires b > 0 && n < b * p
    ensures n / b < p
  {
    assert b * (n / b) <= n;
    Scaled(p, n / b, b);
  }

  /** What the limbs stand for, the lowest first. */
  function Weighed(d: seq<nat>): nat {
    if d == [] then 0 else d[0] + LIMB * Weighed(d[1..])
  }

  /** Each limb is below 2^52, and together they are the number. */
  lemma {:induction false} DigitsWeigh(n: nat, count: nat)
    requires n < Power(LIMB, count)
    ensures Weighed(Digits(n, count)) == n && forall i :: 0 <= i < count ==> Digits(n, count)[i] < LIMB
    decreases count
  {
    if count > 0 {
      Below(n, LIMB, Power(LIMB, count - 1));
      DigitsWeigh(n / LIMB, count - 1);
      assert Digits(n, count)[1..] == Digits(n / LIMB, count - 1);
    }
  }

  /** Limbs lose nothing of a number they are wide enough for. */
  lemma {:induction false} DigitsInjective(m: nat, n: nat, count: nat)
    requires m < Power(LIMB, count) && n < Power(LIMB, count)
    requires Digits(m, count) == Digits(n, count)
    ensures m == n
    decreases count
  {
    if count > 0 {
      var x, y := Digits(m, count), Digits(n, count);
      assert x[0] == m % LIMB && y[0] == n % LIMB;
      assert x[1..] == Digits(m / LIMB, count - 1) && y[1..] == Digits(n / LIMB, count - 1);
      Below(m, LIMB, Power(LIMB, count - 1));
      Below(n, LIMB, Power(LIMB, count - 1));
      DigitsInjective(m / LIMB, n / LIMB, count - 1);
    }
  }

  /** The 256-bit fold of any public value, and the four-lane sponge over field elements. */
  datatype Scheme = Scheme(fold: string -> nat, hashn: seq<nat> -> seq<Elem>)

  ghost predicate Wide(sc: Scheme) {
    && (forall part :: sc.fold(part) < Power(LANE, 4))
    && (forall els :: |sc.hashn(els)| == 4)
  }

  function Limbs(sc: Scheme, part: string): seq<nat> {
    Digits(sc.fold(part), 5)
  }

  lemma FiveLimbsSuffice()
    ensures Power(LANE, 4) <= Power(LIMB, 5)
  {
    assert Power(LANE, 1) == LANE && Power(LIMB, 1) == LIMB;
    assert Power(LANE, 2) == LANE * LANE && Power(LIMB, 2) == LIMB * LIMB;
    assert Power(LANE, 3) == LANE * Power(LANE, 2) && Power(LIMB, 3) == LIMB * Power(LIMB, 2);
    assert Power(LIMB, 4) == LIMB * Power(LIMB, 3);
    assert Power(LANE, 4) == LANE * Power(LANE, 3) && Power(LIMB, 5) == LIMB * Power(LIMB, 4);
  }

  /** Equal limbs mean equal digests. */
  lemma LimbsBind(sc: Scheme, p: string, q: string)
    requires Wide(sc) && Limbs(sc, p) == Limbs(sc, q)
    ensures sc.fold(p) == sc.fold(q)
  {
    FiveLimbsSuffice();
    DigitsInjective(sc.fold(p), sc.fold(q), 5);
  }

  datatype Id = Id(tag: nat, parts: seq<string>)

  function AllLimbs(sc: Scheme, parts: seq<string>): seq<nat> {
    if parts == [] then [] else Limbs(sc, parts[0]) + AllLimbs(sc, parts[1..])
  }

  function Elements(sc: Scheme, id: Id): seq<nat> {
    [DOM_REC, id.tag] + AllLimbs(sc, id.parts)
  }

  function Pack(lanes: seq<nat>): nat {
    if lanes == [] then 0 else Pack(lanes[..|lanes| - 1]) * LANE + lanes[|lanes| - 1]
  }

  lemma Unpack(a: nat, b: nat, x: nat, y: nat)
    requires x < LANE && y < LANE && a * LANE + x == b * LANE + y
    ensures a == b && x == y
  {
  }

  lemma PackPush(lanes: seq<nat>, lane: nat)
    ensures Pack(lanes + [lane]) == Pack(lanes) * LANE + lane
  {
    assert (lanes + [lane])[..|lanes|] == lanes;
  }

  /** A position is its four lanes side by side, the first the highest. */
  lemma PackFour(a: Elem, b: Elem, c: Elem, d: Elem)
    ensures Pack([a, b, c, d]) == a * Power(LANE, 3) + b * Power(LANE, 2) + c * LANE + d
    ensures Pack([a, b, c, d]) < Power(LANE, 4)
  {
    var lanes: seq<nat> := [a, b, c, d];
    assert lanes == [] + [a] + [b] + [c] + [d];
    PackPush([], a);
    PackPush([] + [a], b);
    PackPush([] + [a] + [b], c);
    PackPush([] + [a] + [b] + [c], d);
    assert Power(LANE, 2) == LANE * LANE && Power(LANE, 3) == LANE * Power(LANE, 2);
    PackBound(lanes);
  }

  /** Lanes below 2^64 are recovered from the packed position. */
  lemma {:induction false} PackInjective(x: seq<nat>, y: seq<nat>)
    requires |x| == |y| && Pack(x) == Pack(y)
    requires (forall i :: 0 <= i < |x| ==> x[i] < LANE) && forall i :: 0 <= i < |y| ==> y[i] < LANE
    ensures x == y
  {
    if x != [] {
      var n := |x| - 1;
      Unpack(Pack(x[..n]), Pack(y[..n]), x[n], y[n]);
      PackInjective(x[..n], y[..n]);
      assert x == x[..n] + [x[n]] && y == y[..n] + [y[n]];
    }
  }

  lemma {:induction false} PackBound(lanes: seq<nat>)
    requires forall i :: 0 <= i < |lanes| ==> lanes[i] < LANE
    ensures Pack(lanes) < Power(LANE, |lanes|)
  {
    if lanes != [] {
      var n := |lanes| - 1;
      PackBound(lanes[..n]);
      var p, q := Pack(lanes[..n]), Power(LANE, n);
      assert (p + 1) * LANE <= q * LANE;
    }
  }

  function RecordKey(sc: Scheme, id: Id): nat {
    Pack(sc.hashn(Elements(sc, id))) % Power(LANE, 4)
  }

  method PackLanes(lanes: seq<Elem>) returns (acc: nat)
    ensures acc == Pack(lanes)
  {
    acc := 0;
    for i := 0 to |lanes|
      invariant acc == Pack(lanes[..i])
    {
      assert lanes[..i + 1][..i] == lanes[..i];
      acc := acc * LANE + lanes[i];
    }
    assert lanes[..|lanes|] == lanes;
  }

  lemma LimbsStep(sc: Scheme, parts: seq<string>, i: nat, els: seq<nat>)
    requires i < |parts|
    ensures els + AllLimbs(sc, parts[i..]) == els + Limbs(sc, parts[i]) + AllLimbs(sc, parts[i + 1..])
  {
    hide Limbs;
    assert parts[i..][1..] == parts[i + 1..];
  }

  /** record_key's two loops: the limbs of every part, then the lanes of the hash. */
  method MakeKey(sc: Scheme, id: Id) returns (key: nat)
    ensures key == RecordKey(sc, id)
  {
    hide AllLimbs, Limbs, Pack, Power;
    var els := [DOM_REC, id.tag];
    assert id.parts[0..] == id.parts;
    for i := 0 to |id.parts|
      invariant els + AllLimbs(sc, id.parts[i..]) == Elements(sc, id)
    {
      LimbsStep(sc, id.parts, i, els);
      els := els + Limbs(sc, id.parts[i]);
    }
    NoLimbs(sc);
    assert id.parts[|id.parts|..] == [] && els + [] == els;
    var acc := PackLanes(sc.hashn(els));
    key := acc % Power(LANE, 4);
  }

  lemma NoLimbs(sc: Scheme)
    ensures AllLimbs(sc, []) == []
  {
  }

  /** Neither the fold nor the sponge collides on these two records. */
  ghost predicate NoCollision(sc: Scheme, x: Id, y: Id) {
    && (forall p, q :: p in x.parts && q in y.parts && sc.fold(p) == sc.fold(q) ==> p == q)
    && (sc.hashn(Elements(sc, x)) == sc.hashn(Elements(sc, y)) ==> Elements(sc, x) == Elements(sc, y))
  }

  lemma {:induction false} PartsBind(sc: Scheme, x: seq<string>, y: seq<string>)
    requires Wide(sc) && AllLimbs(sc, x) == AllLimbs(sc, y)
    requires forall p, q :: p in x && q in y && sc.fold(p) == sc.fold(q) ==> p == q
    ensures x == y
  {
    if x != [] && y != [] {
      var a, b := Limbs(sc, x[0]), Limbs(sc, y[0]);
      assert AllLimbs(sc, x)[..5] == a && AllLimbs(sc, y)[..5] == b;
      assert AllLimbs(sc, x)[5..] == AllLimbs(sc, x[1..]) && AllLimbs(sc, y)[5..] == AllLimbs(sc, y[1..]);
      LimbsBind(sc, x[0], y[0]);
      PartsBind(sc, x[1..], y[1..]);
      assert x == [x[0]] + x[1..] && y == [y[0]] + y[1..];
    }
  }

  /** A position names one record: packing and limbs lose nothing, so only a collision could share it. */
  lemma KeyBinds(sc: Scheme, x: Id, y: Id)
    requires Wide(sc) && NoCollision(sc, x, y)
    requires RecordKey(sc, x) == RecordKey(sc, y)
    ensures x == y
  {
    var a, b := sc.hashn(Elements(sc, x)), sc.hashn(Elements(sc, y));
    PackBound(a);
    PackBound(b);
    PackInjective(a, b);
    var u, v := Elements(sc, x), Elements(sc, y);
    assert u[1] == x.tag && v[1] == y.tag;
    assert u[2..] == AllLimbs(sc, x.parts) && v[2..] == AllLimbs(sc, y.parts);
    PartsBind(sc, x.parts, y.parts);
  }

  // ---- projections ---------------------------------------------------------------------------------

  /** The amounts of a ledger by record: balances, allowances, withdrawals. */
  type Rows = map<Id, int>

  ghost predicate KeysApart(sc: Scheme, ids: set<Id>) {
    forall x, y :: x in ids && y in ids ==> NoCollision(sc, x, y)
  }

  /** Every row at its key, and nothing else. */
  ghost predicate Maps(key: Id -> nat, rows: Rows, proj: Values) {
    && (forall id :: id in rows ==> key(id) in proj && proj[key(id)] == rows[id] % P)
    && (forall k :: k in proj ==> exists id :: id in rows && key(id) == k)
  }

  function Key(sc: Scheme): Id -> nat {
    id => RecordKey(sc, id)
  }

  ghost predicate IsProjection(sc: Scheme, rows: Rows, proj: Values) {
    Maps(Key(sc), rows, proj)
  }

  /** The projection loop, in whatever order the rows come. */
  method Project(sc: Scheme, rows: Rows) returns (proj: Values)
    requires Wide(sc) && KeysApart(sc, rows.Keys)
    ensures IsProjection(sc, rows, proj)
  {
    hide RecordKey, NoCollision, Wide, Maps, KeysApart;
    proj := map[];
    var todo := rows.Keys;
    NothingMapped(Key(sc));
    KeysInjective(sc, rows.Keys);
    assert rows - rows.Keys == map[];
    while todo != {}
      invariant todo <= rows.Keys
      invariant Maps(Key(sc), rows - todo, proj)
      decreases |todo|
    {
      var id :| id in todo;
      var key := MakeKey(sc, id);
      MapMore(Key(sc), rows, rows - todo, proj, id);
      assert (rows - todo)[id := rows[id]] == rows - (todo - {id});
      proj := proj[key := rows[id] % P];
      todo := todo - {id};
    }
    assert rows - {} == rows;
  }

  lemma NothingMapped(key: Id -> nat)
    ensures Maps(key, map[], map[])
  {
  }

  ghost predicate OneToOne(key: Id -> nat, ids: set<Id>) {
    forall x, y :: x in ids && y in ids && key(x) == key(y) ==> x == y
  }

  lemma KeysInjective(sc: Scheme, ids: set<Id>)
    requires Wide(sc) && KeysApart(sc, ids)
    ensures OneToOne(Key(sc), ids)
  {
    hide RecordKey, NoCollision, Wide;
    forall x, y | x in ids && y in ids && Key(sc)(x) == Key(sc)(y) ensures x == y {
      KeyBinds(sc, x, y);
    }
  }

  lemma MapMore(key: Id -> nat, rows: Rows, done: Rows, proj: Values, id: Id)
    requires OneToOne(key, rows.Keys) && done.Keys <= rows.Keys && id in rows
    requires Maps(key, done, proj)
    ensures Maps(key, done[id := rows[id]], proj[key(id) := rows[id] % P])
  {
    var next, after := done[id := rows[id]], proj[key(id) := rows[id] % P];
    forall k | k in after ensures exists x :: x in next && key(x) == k {
      if k == key(id) {
        assert id in next;
      } else {
        var x :| x in done && key(x) == k;
        assert x in next;
      }
    }
  }

  function NonZero(proj: Values): Values {
    map k | k in proj && proj[k] != 0 :: proj[k]
  }

  ghost predicate Amounts(rows: Rows) {
    forall id :: id in rows ==> 0 <= rows[id] < P
  }

  lemma ProjectedAmount(sc: Scheme, rows: Rows, proj: Values, id: Id)
    requires Wide(sc) && IsProjection(sc, rows, proj)
    requires forall x :: x in rows ==> NoCollision(sc, x, id)
    ensures Sums.Get(rows, id) % P == Get(proj, RecordKey(sc, id))
  {
    hide RecordKey, NoCollision, Wide;
    var k := RecordKey(sc, id);
    if id !in rows && k in proj {
      var x :| x in rows && RecordKey(sc, x) == k;
      KeyBinds(sc, x, id);
    }
  }

  lemma BothProjected(sc: Scheme, xs: Rows, ys: Rows, x: Values, y: Values, id: Id)
    requires Wide(sc) && IsProjection(sc, xs, x) && IsProjection(sc, ys, y)
    requires KeysApart(sc, xs.Keys + ys.Keys) && id in xs.Keys + ys.Keys
    ensures Sums.Get(xs, id) % P == Get(x, RecordKey(sc, id))
    ensures Sums.Get(ys, id) % P == Get(y, RecordKey(sc, id))
  {
    hide RecordKey, NoCollision, Wide, Maps;
    var all := xs.Keys + ys.Keys;
    forall r | r in xs ensures NoCollision(sc, r, id) { assert r in all && id in all; }
    forall r | r in ys ensures NoCollision(sc, r, id) { assert r in all && id in all; }
    ProjectedAmount(sc, xs, x, id);
    ProjectedAmount(sc, ys, y, id);
  }

  /** The two ledgers agree on every record up to multiples of the field's order. */
  ghost predicate Congruent(xs: Rows, ys: Rows) {
    forall id :: Sums.Get(xs, id) % P == Sums.Get(ys, id) % P
  }

  lemma ProjectedFrom(sc: Scheme, rows: Rows, proj: Values, k: nat) returns (id: Id)
    requires IsProjection(sc, rows, proj) && k in proj
    ensures id in rows && RecordKey(sc, id) == k
  {
    hide RecordKey;
    id :| id in rows && Key(sc)(id) == k;
  }

  lemma CongruentProjections(sc: Scheme, xs: Rows, ys: Rows, x: Values, y: Values, k: nat)
    requires Wide(sc) && IsProjection(sc, xs, x) && IsProjection(sc, ys, y) && KeysApart(sc, xs.Keys + ys.Keys)
    requires Congruent(xs, ys)
    ensures Get(x, k) == Get(y, k)
  {
    hide RecordKey, KeysApart, Wide, Maps;
    if k in x {
      var id := ProjectedFrom(sc, xs, x, k);
      BothProjected(sc, xs, ys, x, y, id);
    } else if k in y {
      var id := ProjectedFrom(sc, ys, y, k);
      BothProjected(sc, xs, ys, x, y, id);
    }
  }

  /** What a settled record root binds: two ledgers of any amounts share one if and only if they agree on every record
    * up to multiples of the field's order. */
  lemma {:induction false} RootsAgreeExactly(sc: Scheme, h: Hash, depth: nat, xs: Rows, ys: Rows, x: Values, y: Values)
    requires Wide(sc) && Injective(h) && Pow2(depth) == Power(LANE, 4)
    requires IsProjection(sc, xs, x) && IsProjection(sc, ys, y) && KeysApart(sc, xs.Keys + ys.Keys)
    ensures Root(h, x, depth) == Root(h, y, depth) <==> Congruent(xs, ys)
  {
    hide RecordKey, KeysApart, Wide, Plain, Injective, Maps, Power, Pow2;
    if Congruent(xs, ys) {
      forall k ensures Get(x, k) == Get(y, k) { CongruentProjections(sc, xs, ys, x, y, k); }
      SameLeaves(h, x, y, depth, 0);
    }
    if Root(h, x, depth) == Root(h, y, depth) {
      forall id ensures Sums.Get(xs, id) % P == Sums.Get(ys, id) % P {
        if id in xs.Keys + ys.Keys {
          BothProjected(sc, xs, ys, x, y, id);
          KeyInRange(sc, id);
          PositionBinds(h, x, y, depth, RecordKey(sc, id));
        }
      }
    }
  }

  lemma Powers()
    ensures Pow2(8) == 0x100
    ensures Power(LANE, 4) == LANE * LANE * (LANE * LANE)
  {
    assert Pow2(4) == 16;
    assert Power(LANE, 1) == LANE && Power(LANE, 2) == LANE * LANE;
  }

  /** The deployed depth has a place for every position. */
  lemma EveryPosition()
    ensures Pow2(DEPTH) == Power(LANE, 4)
  {
    hide Pow2, Power;
    Powers();
    PowerAdds(8, 8);
    PowerAdds(16, 16);
    PowerAdds(32, 32);
    PowerAdds(64, 64);
    PowerAdds(128, 128);
  }

  /** At that depth, equal settled record roots mean the same amount in every record, as long as amounts stay below the
    * field's order and nothing collides. */
  lemma {:induction false} RootBindsAmounts(sc: Scheme, h: Hash, xs: Rows, ys: Rows, x: Values, y: Values, id: Id)
    requires Wide(sc) && Injective(h) && Amounts(xs) && Amounts(ys)
    requires IsProjection(sc, xs, x) && IsProjection(sc, ys, y) && KeysApart(sc, xs.Keys + ys.Keys)
    requires Root(h, x, DEPTH) == Root(h, y, DEPTH)
    ensures Sums.Get(xs, id) == Sums.Get(ys, id)
  {
    hide KeysApart, Wide, Injective, Maps, Root, Power, Pow2;
    EveryPosition();
    RootsAgreeExactly(sc, h, DEPTH, xs, ys, x, y);
    assert 0 <= Sums.Get(xs, id) < P && 0 <= Sums.Get(ys, id) < P;
  }

  lemma KeyInRange(sc: Scheme, id: Id)
    ensures RecordKey(sc, id) < Power(LANE, 4)
  {
  }

  lemma PositionBinds(h: Hash, x: Values, y: Values, depth: nat, k: nat)
    requires Injective(h) && Root(h, x, depth) == Root(h, y, depth) && k < Pow2(depth)
    ensures Get(x, k) == Get(y, k)
  {
    UpRange(k, depth, 0);
    RootBinds(h, x, y, depth, 0, k);
  }

  /** For one: a single P more in a row changes no projection. */
  lemma AmountsWrap(sc: Scheme, rows: Rows, proj: Values, id: Id)
    requires IsProjection(sc, rows, proj) && id in rows
    ensures IsProjection(sc, rows[id := rows[id] + P], proj)
  {
    hide RecordKey;
    var more := rows[id := rows[id] + P];
    assert (rows[id] + P) % P == rows[id] % P;
    forall k | k in proj ensures exists x :: x in more && RecordKey(sc, x) == k {
      var x :| x in rows && RecordKey(sc, x) == k;
      assert x in more;
    }
  }

  // ---- keeping a store in step ---------------------------------------------------------------------

  method DeleteVanished(store: Store, proj: Values)
    requires store.Valid()
    modifies store
    ensures store.Valid() && forall k :: k in store.values ==> k in proj
  {
    hide Pow2, Written, Remembers, KeysOf;
    var gone: set<nat> := store.values.Keys - proj.Keys;
    while gone != {}
      invariant store.Valid()
      invariant forall k :: k in gone ==> k in store.values && k !in proj
      invariant forall k :: k in store.values ==> k in proj || k in gone
      decreases |gone|
    {
      var k :| k in gone;
      PositionWithin(store, k);
      WithinMask(k, Pow2(store.depth));
      ghost var before := store.values;
      store.Set(k, 0);
      WrittenAt(before, k, 0);
      gone := gone - {k};
    }
  }

  lemma PositionWithin(store: Store, k: nat)
    requires store.Valid() && k in store.values
    ensures k < Pow2(store.depth)
  {
  }

  lemma WrittenAt(values: Values, k: nat, v: Elem)
    ensures forall j :: Get(Written(values, k, v), j) == if j == k then v else Get(values, j)
    ensures forall j :: j in Written(values, k, v) <==> if j == k then v != 0 else j in values
  {
  }

  method WriteChanged(store: Store, proj: Values)
    requires store.Valid() && forall k :: k in proj ==> k < Pow2(store.depth)
    requires forall k :: k in store.values ==> k in proj
    modifies store
    ensures store.Valid()
    ensures forall k :: k in store.values ==> k in proj
    ensures forall k :: k in proj ==> Get(store.values, k) == proj[k]
  {
    hide Pow2, Written, Remembers, KeysOf;
    var todo := proj;
    while todo != map[]
      invariant store.Valid()
      invariant todo.Keys <= proj.Keys && forall k :: k in todo ==> todo[k] == proj[k]
      invariant forall k :: k in store.values ==> k in proj
      invariant forall k :: k in proj && k !in todo ==> Get(store.values, k) == proj[k]
      decreases |todo|
    {
      var k :| k in todo;
      WithinMask(k, Pow2(store.depth));
      if k !in store.values || store.values[k] != todo[k] {
        WithinField(todo[k]);
        ghost var before := store.values;
        store.Set(k, todo[k]);
        WrittenAt(before, k, todo[k]);
      }
      todo := todo - {k};
    }
  }

  /** apply_projection: delete what vanished, write what changed. Whatever the store held, it then holds exactly the
    * non-zero entries of the projection, and its root is the cold root. */
  method ApplyProjection(store: Store, proj: Values)
    requires store.Valid() && forall k :: k in proj ==> k < Pow2(store.depth)
    modifies store
    ensures store.Valid() && store.values == NonZero(proj)
    ensures Root(store.h, store.values, store.depth) == Root(store.h, proj, store.depth)
  {
    hide Pow2, Root;
    DeleteVanished(store, proj);
    WriteChanged(store, proj);
    NonZeroOnly(store.values, proj);
    ColdRoot(store.h, proj, store.depth);
  }

  lemma NonZeroOnly(values: Values, proj: Values)
    requires forall k :: k in values ==> values[k] != 0
    requires forall k :: k in values ==> k in proj
    requires forall k :: k in proj ==> Get(values, k) == proj[k]
    ensures values == NonZero(proj)
  {
  }

  lemma WithinMask(k: nat, m: nat)
    requires k < m
    ensures k % m == k
  {
  }

  lemma WithinField(v: Elem)
    ensures v % P == v
  {
  }

  lemma ColdRoot(h: Hash, proj: Values, depth: nat)
    ensures Root(h, NonZero(proj), depth) == Root(h, proj, depth)
  {
    hide Plain;
    SameLeaves(h, NonZero(proj), proj, depth, 0);
  }
}
