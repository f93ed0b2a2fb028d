/**
 Exactly which lists of leaves share a root in the sorted-pair tree: those whose leaf hashes, sorted and padded to a
 full tree by repeating the last subtree at every odd level, are the same list.
 */
module MerkleRepeats {
  import opened Options
  import opened Numbers
  import opened SortedMerkle

  // ---- padding -------------------------------------------------------------------------------------

  /** How often a level of n nodes is folded. */
  function Depth(n: nat): (d: nat)
    ensures n <= Pow2(d)
  {
    if n <= 1 then 0 else 1 + Depth((n + 1) / 2)
  }

  /** The level spread over the 2^d places of a full tree. */
  function Pad(level: seq<Bytes>, d: nat): (s: seq<Bytes>)
    requires 0 < |level| <= Pow2(d)
    ensures |s| == Pow2(d) && forall x :: x in s <==> x in level
    decreases d
  {
    if d == 0 then level
    else if |level| > Pow2(d - 1) then
      assert level == level[..Pow2(d - 1)] + level[Pow2(d - 1)..];
      Pad(level[..Pow2(d - 1)], d - 1) + Pad(level[Pow2(d - 1)..], d - 1)
    else Pad(level, d - 1) + Pad(level, d - 1)
  }

  /** The root of a full tree over 2^d places. */
  function Full(mh: Hash, d: nat, s: seq<Bytes>): Bytes
    requires |s| == Pow2(d)
    decreases d
  {
    if d == 0 then s[0]
    else Pair(mh, Full(mh, d - 1, s[..Pow2(d - 1)]), Full(mh, d - 1, s[Pow2(d - 1)..]))
  }

  /** Every input hashed in a full tree. */
  function FullInputs(mh: Hash, d: nat, s: seq<Bytes>): set<Bytes>
    requires |s| == Pow2(d)
    decreases d
  {
    if d == 0 then {}
    else
      var l, r := s[..Pow2(d - 1)], s[Pow2(d - 1)..];
      {Joined(Full(mh, d - 1, l), Full(mh, d - 1, r))} + FullInputs(mh, d - 1, l) + FullInputs(mh, d - 1, r)
  }

  // ---- folding is padding --------------------------------------------------------------------------

  /** A level folded d times, whatever its length. */
  function Up(mh: Hash, level: seq<Bytes>, d: nat): (up: seq<Bytes>)
    ensures level != [] ==> up != []
    decreases d
  {
    if d == 0 then level else Up(mh, Fold(mh, level), d - 1)
  }

  function Joins(level: seq<Bytes>): set<Bytes> {
    set i | 0 <= i < (|level| + 1) / 2 :: Joined(level[2 * i], Right(level, i))
  }

  function UpInputs(mh: Hash, level: seq<Bytes>, d: nat): set<Bytes>
    decreases d
  {
    if d == 0 then {} else Joins(level) + UpInputs(mh, Fold(mh, level), d - 1)
  }

  lemma {:induction false} UpLast(mh: Hash, level: seq<Bytes>, d: nat)
    ensures Up(mh, level, d + 1) == Fold(mh, Up(mh, level, d))
    ensures UpInputs(mh, level, d + 1) == UpInputs(mh, level, d) + Joins(Up(mh, level, d))
    decreases d
  {
    hide Fold, Joins;
    if d > 0 { UpLast(mh, Fold(mh, level), d - 1); }
  }

  /** The i-th pair of a level cut at an even position is a pair of one of the parts. */
  lemma PairAt(x: seq<Bytes>, y: seq<Bytes>, i: nat)
    requires |x| % 2 == 0 && 2 * i < |x + y|
    ensures if i < |x| / 2 then (x + y)[2 * i] == x[2 * i] && Right(x + y, i) == Right(x, i)
            else (x + y)[2 * i] == y[2 * (i - |x| / 2)] && Right(x + y, i) == Right(y, i - |x| / 2)
  {
  }

  lemma JoinsHas(level: seq<Bytes>, i: nat)
    requires 2 * i < |level|
    ensures Joined(level[2 * i], Right(level, i)) in Joins(level)
  {
    hide Joined;
  }

  lemma FoldSplit(mh: Hash, x: seq<Bytes>, y: seq<Bytes>)
    requires |x| % 2 == 0
    ensures Fold(mh, x + y) == Fold(mh, x) + Fold(mh, y)
  {
    hide Joined, Pair, Right;
    var all, parts := Fold(mh, x + y), Fold(mh, x) + Fold(mh, y);
    assert |all| == |parts|;
    forall i | 0 <= i < |all| ensures all[i] == parts[i] { PairAt(x, y, i); }
  }

  lemma JoinsSplit(x: seq<Bytes>, y: seq<Bytes>)
    requires |x| % 2 == 0
    ensures Joins(x) + Joins(y) <= Joins(x + y)
  {
    hide Joined, Right;
    forall j | j in Joins(x) ensures j in Joins(x + y) {
      var i :| 0 <= i < (|x| + 1) / 2 && j == Joined(x[2 * i], Right(x, i));
      PairAt(x, y, i);
      JoinsHas(x + y, i);
    }
    forall j | j in Joins(y) ensures j in Joins(x + y) {
      var i :| 0 <= i < (|y| + 1) / 2 && j == Joined(y[2 * i], Right(y, i));
      PairAt(x, y, |x| / 2 + i);
      JoinsHas(x + y, |x| / 2 + i);
    }
  }

  /** Folding keeps a full left part and the rest apart. */
  lemma {:induction false} UpSplit(mh: Hash, x: seq<Bytes>, y: seq<Bytes>, d: nat)
    requires |x| == Pow2(d)
    ensures Up(mh, x + y, d) == Up(mh, x, d) + Up(mh, y, d)
    ensures UpInputs(mh, x, d) + UpInputs(mh, y, d) <= UpInputs(mh, x + y, d)
    decreases d
  {
    hide Fold, Joins;
    if d > 0 {
      FoldSplit(mh, x, y);
      JoinsSplit(x, y);
      UpSplit(mh, Fold(mh, x), Fold(mh, y), d - 1);
    }
  }

  lemma FoldOne(mh: Hash, x: Bytes)
    ensures Fold(mh, [x]) == [Pair(mh, x, x)] && Joins([x]) == {Joined(x, x)}
  {
    hide Joined, Pair;
    assert Right([x], 0) == x;
    assert Joined([x][2 * 0], Right([x], 0)) in Joins([x]);
  }

  lemma FoldTwo(mh: Hash, x: Bytes, y: Bytes)
    ensures Fold(mh, [x, y]) == [Pair(mh, x, y)] && Joins([x, y]) == {Joined(x, y)}
  {
    hide Joined, Pair;
    assert Right([x, y], 0) == y;
    assert Joined([x, y][2 * 0], Right([x, y], 0)) in Joins([x, y]);
  }

  lemma PadStep(level: seq<Bytes>, d: nat)
    requires d > 0 && 0 < |level| <= Pow2(d)
    ensures Pow2(d) == 2 * Pow2(d - 1)
    ensures Pad(level, d) ==
            if |level| > Pow2(d - 1) then Pad(level[..Pow2(d - 1)], d - 1) + Pad(level[Pow2(d - 1)..], d - 1)
            else Pad(level, d - 1) + Pad(level, d - 1)
  {
  }

  lemma FoldLevel(mh: Hash, level: seq<Bytes>, d: nat)
    requires 0 < |level| <= Pow2(0) && d == 0
    ensures Up(mh, level, d) == [Full(mh, d, Pad(level, d))] && FullInputs(mh, d, Pad(level, d)) == {}
  {
  }

  /** Folding d times is hashing the full tree over the padded level. */
  lemma {:induction false} UpIsFull(mh: Hash, level: seq<Bytes>, d: nat)
    requires 0 < |level| <= Pow2(d)
    ensures Up(mh, level, d) == [Full(mh, d, Pad(level, d))]
    ensures FullInputs(mh, d, Pad(level, d)) <= UpInputs(mh, level, d)
    decreases d
  {
    hide Fold, Joins, Joined, Pair, Up, UpInputs, Full, FullInputs, Pad, Pow2;
    if d == 0 {
      FoldLevel(mh, level, d);
    } else {
      var h := Pow2(d - 1);
      UpLast(mh, level, d - 1);
      PadStep(level, d);
      if |level| > h {
        var x, y := level[..h], level[h..];
        assert level == x + y;
        UpSplit(mh, x, y, d - 1);
        UpIsFull(mh, x, d - 1);
        UpIsFull(mh, y, d - 1);
        FullOfTwo(mh, d, Pad(x, d - 1), Pad(y, d - 1));
        FoldTwo(mh, Full(mh, d - 1, Pad(x, d - 1)), Full(mh, d - 1, Pad(y, d - 1)));
        assert Up(mh, level, d - 1) ==
               [Full(mh, d - 1, Pad(x, d - 1)), Full(mh, d - 1, Pad(y, d - 1))];
      } else {
        UpIsFull(mh, level, d - 1);
        FullOfTwo(mh, d, Pad(level, d - 1), Pad(level, d - 1));
        FoldOne(mh, Full(mh, d - 1, Pad(level, d - 1)));
      }
    }
  }

  lemma FullOfTwo(mh: Hash, d: nat, x: seq<Bytes>, y: seq<Bytes>)
    requires d > 0 && |x| == |y| == Pow2(d - 1)
    ensures Full(mh, d, x + y) == Pair(mh, Full(mh, d - 1, x), Full(mh, d - 1, y))
    ensures FullInputs(mh, d, x + y) ==
            {Joined(Full(mh, d - 1, x), Full(mh, d - 1, y))} + FullInputs(mh, d - 1, x) + FullInputs(mh, d - 1, y)
  {
    assert (x + y)[..Pow2(d - 1)] == x && (x + y)[Pow2(d - 1)..] == y;
  }

  lemma {:induction false} TopIsUp(mh: Hash, level: seq<Bytes>)
    requires level != []
    ensures Up(mh, level, Depth(|level|)) == [Top(mh, level)]
    ensures UpInputs(mh, level, Depth(|level|)) == NodeInputs(mh, level)
    decreases |level|
  {
    hide Fold, Joined;
    if |level| > 1 { TopIsUp(mh, Fold(mh, level)); }
  }

  /** The leaf hashes in order, spread over the full tree. */
  function Padded(mh: Hash, leaves: seq<Bytes>): seq<Bytes> {
    var level := LeafLevel(mh, leaves);
    if level == [] then [] else Pad(level, Depth(|level|))
  }

  lemma RootIsFull(mh: Hash, leaves: seq<Bytes>)
    requires LeafLevel(mh, leaves) != []
    ensures var d := Depth(|LeafLevel(mh, leaves)|);
            && |Padded(mh, leaves)| == Pow2(d) && Root(mh, leaves) == Full(mh, d, Padded(mh, leaves))
            && FullInputs(mh, d, Padded(mh, leaves)) <= TreeNodes(mh, leaves)
  {
    hide LeafLevel, Top, NodeInputs, Full, FullInputs, Pad;
    var level := LeafLevel(mh, leaves);
    TopIsUp(mh, level);
    UpIsFull(mh, level, Depth(|level|));
  }

  // ---- what a full tree binds ----------------------------------------------------------------------

  ghost predicate AllLE(x: seq<Bytes>, y: seq<Bytes>) {
    forall a, b :: a in x && b in y ==> LE(a, b)
  }

  /** At every node the halves are in order, or the right is the left again. */
  ghost predicate Ordered(d: nat, s: seq<Bytes>)
    requires |s| == Pow2(d)
    decreases d
  {
    d == 0 ||
    var l, r := s[..Pow2(d - 1)], s[Pow2(d - 1)..];
    Ordered(d - 1, l) && Ordered(d - 1, r) && (l == r || AllLE(l, r))
  }

  lemma OrderedOfTwo(d: nat, x: seq<Bytes>, y: seq<Bytes>)
    requires d > 0 && |x| == |y| == Pow2(d - 1) && Ordered(d - 1, x) && Ordered(d - 1, y) && (x == y || AllLE(x, y))
    ensures Ordered(d, x + y)
  {
    hide LE;
    assert (x + y)[..Pow2(d - 1)] == x && (x + y)[Pow2(d - 1)..] == y;
  }

  lemma {:induction false} PadOrdered(level: seq<Bytes>, d: nat)
    requires 0 < |level| <= Pow2(d) && Sorted(level)
    ensures Ordered(d, Pad(level, d))
    decreases d
  {
    hide LE, Ordered, Pad, Pow2;
    if d == 0 {
      NothingAbove(level);
    } else {
      var h := Pow2(d - 1);
      PadStep(level, d);
      if |level| > h {
        var x, y := level[..h], level[h..];
        PadOrdered(x, d - 1);
        PadOrdered(y, d - 1);
        SortedHalves(level, h);
        OrderedOfTwo(d, Pad(x, d - 1), Pad(y, d - 1));
      } else {
        PadOrdered(level, d - 1);
        OrderedOfTwo(d, Pad(level, d - 1), Pad(level, d - 1));
      }
    }
  }

  lemma NothingAbove(level: seq<Bytes>)
    requires 0 < |level| <= Pow2(0)
    ensures Ordered(0, Pad(level, 0))
  {
  }

  lemma SortedHalves(level: seq<Bytes>, h: nat)
    requires h <= |level| && Sorted(level)
    ensures Sorted(level[..h]) && Sorted(level[h..]) && AllLE(level[..h], level[h..])
  {
    hide LE;
  }

  lemma PairsBind(mh: Hash, inputs: set<Bytes>, a: Bytes, b: Bytes, x: Bytes, y: Bytes)
    requires CollisionFree(mh, inputs) && Joined(a, b) in inputs && Joined(x, y) in inputs
    requires |a| == |b| == |x| == |y| == 32 && Pair(mh, a, b) == Pair(mh, x, y)
    ensures (a == x && b == y) || (a == y && b == x)
  {
    hide LE;
    var l, r := if LE(a, b) then a else b, if LE(a, b) then b else a;
    var u, v := if LE(x, y) then x else y, if LE(x, y) then y else x;
    assert Joined(a, b) == l + r && Joined(x, y) == u + v;
    assert (l + r)[..32] == l && (l + r)[32..] == r;
    assert (u + v)[..32] == u && (u + v)[32..] == v;
  }

  lemma FullSize(mh: Hash, d: nat, s: seq<Bytes>)
    requires Digests(mh) && |s| == Pow2(d) && forall x :: x in s ==> |x| == 32
    ensures |Full(mh, d, s)| == 32
  {
  }

  lemma Swapped(l: seq<Bytes>, r: seq<Bytes>)
    requires |l| == |r| && AllLE(l, r) && AllLE(r, l)
    ensures l == r
  {
    hide LE;
    forall i | 0 <= i < |l| ensures l[i] == r[i] {
      assert l[i] in l && r[i] in r;
      LEAntisymmetric(l[i], r[i]);
    }
  }

  /** A full tree over digests, all of whose inputs are among the given ones. */
  ghost predicate Placed(mh: Hash, inputs: set<Bytes>, d: nat, s: seq<Bytes>) {
    |s| == Pow2(d) && FullInputs(mh, d, s) <= inputs && forall x :: x in s ==> |x| == 32
  }

  lemma PlacedOfTwo(mh: Hash, inputs: set<Bytes>, d: nat, l: seq<Bytes>, r: seq<Bytes>)
    requires Digests(mh) && d > 0 && |l| == |r| == Pow2(d - 1) && Placed(mh, inputs, d, l + r)
    ensures Placed(mh, inputs, d - 1, l) && Placed(mh, inputs, d - 1, r)
    ensures var x, y := Full(mh, d - 1, l), Full(mh, d - 1, r);
            |x| == |y| == 32 && Joined(x, y) in inputs && Full(mh, d, l + r) == Pair(mh, x, y)
  {
    hide Joined, Pair, Full, FullInputs, Digests, Pow2;
    forall x | x in l ensures |x| == 32 { assert x in l + r; }
    forall x | x in r ensures |x| == 32 { assert x in l + r; }
    FullOfTwo(mh, d, l, r);
    FullSize(mh, d - 1, l);
    FullSize(mh, d - 1, r);
  }

  ghost predicate HalvesOf(mh: Hash, inputs: set<Bytes>, d: nat, s: seq<Bytes>, l: seq<Bytes>, r: seq<Bytes>)
    requires d > 0 && |l| == |r| == Pow2(d - 1) && |s| == Pow2(d)
  {
    && s == l + r && Placed(mh, inputs, d - 1, l) && Placed(mh, inputs, d - 1, r)
    && |Full(mh, d - 1, l)| == |Full(mh, d - 1, r)| == 32
    && Joined(Full(mh, d - 1, l), Full(mh, d - 1, r)) in inputs
    && Full(mh, d, s) == Pair(mh, Full(mh, d - 1, l), Full(mh, d - 1, r))
    && (Ordered(d, s) ==> Ordered(d - 1, l) && Ordered(d - 1, r) && (l == r || AllLE(l, r)))
  }

  lemma Halves(mh: Hash, inputs: set<Bytes>, d: nat, s: seq<Bytes>) returns (l: seq<Bytes>, r: seq<Bytes>)
    requires Digests(mh) && d > 0 && |s| == Pow2(d) && Placed(mh, inputs, d, s)
    ensures |l| == |r| == Pow2(d - 1)
    ensures HalvesOf(mh, inputs, d, s, l, r)
  {
    hide Joined, Pair, AllLE, Full, FullInputs, Ordered, Digests, Placed, Pow2;
    PowDoubles(d);
    l, r := s[..Pow2(d - 1)], s[Pow2(d - 1)..];
    assert s == l + r;
    PlacedOfTwo(mh, inputs, d, l, r);
    if Ordered(d, s) { OrderedHalves(d, s); }
  }

  lemma PowDoubles(d: nat)
    requires d > 0
    ensures Pow2(d) == 2 * Pow2(d - 1)
  {
  }

  lemma OrderedHalves(d: nat, s: seq<Bytes>)
    requires d > 0 && |s| == Pow2(d) && Ordered(d, s)
    ensures |s| == 2 * Pow2(d - 1)
    ensures var l, r := s[..Pow2(d - 1)], s[Pow2(d - 1)..];
            Ordered(d - 1, l) && Ordered(d - 1, r) && (l == r || AllLE(l, r))
  {
    hide AllLE;
  }

  /** Two ordered full trees of one depth with one root have the same places. */
  lemma {:induction false} FullBinds(mh: Hash, inputs: set<Bytes>, d: nat, s: seq<Bytes>, t: seq<Bytes>)
    requires Digests(mh) && CollisionFree(mh, inputs)
    requires Placed(mh, inputs, d, s) && Placed(mh, inputs, d, t)
    requires Ordered(d, s) && Ordered(d, t) && Full(mh, d, s) == Full(mh, d, t)
    ensures s == t
    decreases d
  {
    hide Joined, Pair, AllLE, Placed, Ordered, Full, FullInputs, Pow2, Digests, CollisionFree;
    PlacedSize(mh, inputs, d, s, s, t, t);
    if d == 0 {
      OnePlace(mh, s);
      OnePlace(mh, t);
    } else {
      var l, r := Halves(mh, inputs, d, s);
      var l', r' := Halves(mh, inputs, d, t);
      PlacedSize(mh, inputs, d - 1, l, r, l', r');
      var a, b, x, y := Full(mh, d - 1, l), Full(mh, d - 1, r), Full(mh, d - 1, l'), Full(mh, d - 1, r');
      PairsBind(mh, inputs, a, b, x, y);
      if a == x && b == y {
        FullBinds(mh, inputs, d - 1, l, l');
        FullBinds(mh, inputs, d - 1, r, r');
      } else {
        FullBinds(mh, inputs, d - 1, l, r');
        FullBinds(mh, inputs, d - 1, r, l');
        if l != r { Swapped(l, r); }
      }
    }
  }

  lemma OnePlace(mh: Hash, s: seq<Bytes>)
    requires |s| == Pow2(0)
    ensures s == [Full(mh, 0, s)]
  {
  }

  lemma PlacedSize(mh: Hash, inputs: set<Bytes>, d: nat, l: seq<Bytes>, r: seq<Bytes>, l': seq<Bytes>, r': seq<Bytes>)
    requires Placed(mh, inputs, d, l) && Placed(mh, inputs, d, r)
    requires Placed(mh, inputs, d, l') && Placed(mh, inputs, d, r')
    ensures |l| == |r| == |l'| == |r'| == Pow2(d)
  {
  }

  ghost predicate LeafHashes(mh: Hash, leaves: set<Bytes>, s: seq<Bytes>) {
    forall x :: x in s ==> exists leaf :: leaf in leaves && mh(leaf) == x
  }

  /** A full tree over leaf hashes is no part of a higher one: some leaf would be a node input. */
  lemma {:induction false} DepthsBind(mh: Hash, inputs: set<Bytes>, leaves: set<Bytes>, d: nat, s: seq<Bytes>, e: nat,
                                      t: seq<Bytes>)
    requires Digests(mh) && CollisionFree(mh, inputs + leaves) && leaves !! inputs && d < e
    requires Placed(mh, inputs, d, s) && Placed(mh, inputs, e, t) && LeafHashes(mh, leaves, s)
    ensures Full(mh, d, s) != Full(mh, e, t)
    decreases d
  {
    hide Joined, Pair, Placed, Full, FullInputs, Pow2, Digests, CollisionFree, Ordered, AllLE, LeafHashes;
    PlacedSize(mh, inputs, d, s, s, s, s);
    PlacedSize(mh, inputs, e, t, t, t, t);
    var l', r' := Halves(mh, inputs, e, t);
    PlacedSize(mh, inputs, e - 1, l', r', l', r');
    if Full(mh, d, s) == Full(mh, e, t) {
      if d == 0 {
        OnePlace(mh, s);
        LeafApart(mh, inputs, leaves, s, Full(mh, e - 1, l'), Full(mh, e - 1, r'));
      } else {
        Fewer(mh, inputs, leaves);
        var l, r := Halves(mh, inputs, d, s);
        PlacedSize(mh, inputs, d - 1, l, r, l, r);
        HashesOf(mh, leaves, l, r);
        PairsBind(mh, inputs, Full(mh, d - 1, l), Full(mh, d - 1, r), Full(mh, e - 1, l'), Full(mh, e - 1, r'));
        DepthsBind(mh, inputs, leaves, d - 1, l, e - 1, l');
        DepthsBind(mh, inputs, leaves, d - 1, l, e - 1, r');
      }
    }
  }

  lemma Fewer(mh: Hash, inputs: set<Bytes>, leaves: set<Bytes>)
    requires CollisionFree(mh, inputs + leaves)
    ensures CollisionFree(mh, inputs)
  {
  }

  lemma HashesOf(mh: Hash, leaves: set<Bytes>, l: seq<Bytes>, r: seq<Bytes>)
    requires LeafHashes(mh, leaves, l + r)
    ensures LeafHashes(mh, leaves, l)
  {
    forall x | x in l ensures exists leaf :: leaf in leaves && mh(leaf) == x { assert x in l + r; }
  }

  lemma LeafApart(mh: Hash, inputs: set<Bytes>, leaves: set<Bytes>, s: seq<Bytes>, x: Bytes, y: Bytes)
    requires CollisionFree(mh, inputs + leaves) && leaves !! inputs && Joined(x, y) in inputs
    requires |s| == 1 && LeafHashes(mh, leaves, s)
    ensures s[0] != Pair(mh, x, y)
  {
    hide Joined;
    assert s[0] in s;
    var leaf :| leaf in leaves && mh(leaf) == s[0];
    assert leaf in inputs + leaves && Joined(x, y) in inputs + leaves;
  }

  // ---- exactly which lists share a root ------------------------------------------------------------

  /** One padded list has one root, for every hash. */
  lemma SamePadding(mh: Hash, a: seq<Bytes>, b: seq<Bytes>)
    requires Padded(mh, a) == Padded(mh, b)
    ensures Root(mh, a) == Root(mh, b)
  {
    hide LeafLevel, Full, Pad, Top;
    if LeafLevel(mh, a) != [] && LeafLevel(mh, b) != [] {
      RootIsFull(mh, a);
      RootIsFull(mh, b);
      PowersDiffer(Depth(|LeafLevel(mh, a)|), Depth(|LeafLevel(mh, b)|));
    }
  }

  lemma {:induction false} PowersDiffer(d: nat, e: nat)
    ensures Pow2(d) == Pow2(e) <==> d == e
  {
    if d > 0 && e > 0 { PowersDiffer(d - 1, e - 1); }
  }

  /** No two inputs of the two trees collide, and no leaf is a node input. */
  ghost predicate Unmixed(mh: Hash, a: seq<Bytes>, b: seq<Bytes>) {
    && Digests(mh)
    && CollisionFree(mh, LeafInputs(a) + LeafInputs(b) + TreeNodes(mh, a) + TreeNodes(mh, b) + {EMPTY_TAG})
    && LeafInputs(a) + LeafInputs(b) !! TreeNodes(mh, a) + TreeNodes(mh, b)
  }

  /** No leaves, and the tag alone. */
  predicate TagPair(a: seq<Bytes>, b: seq<Bytes>) {
    (a == [] && b == [EMPTY_TAG]) || (a == [EMPTY_TAG] && b == [])
  }

  lemma LevelPlaced(mh: Hash, leaves: seq<Bytes>, inputs: set<Bytes>)
    requires Digests(mh) && leaves != [] && TreeNodes(mh, leaves) <= inputs
    ensures LeafLevel(mh, leaves) != []
    ensures var d, s := Depth(|LeafLevel(mh, leaves)|), Padded(mh, leaves);
            && Placed(mh, inputs, d, s) && Ordered(d, s) && Root(mh, leaves) == Full(mh, d, s)
            && LeafHashes(mh, LeafInputs(leaves), s)
  {
    hide Full, FullInputs, Pad, Ordered, LE, TreeNodes, Root;
    var level := LeafLevel(mh, leaves);
    assert |multiset(level)| == |leaves|;
    RootIsFull(mh, leaves);
    PadOrdered(level, Depth(|level|));
    LeafLevelSizes(mh, leaves);
    forall x | x in Padded(mh, leaves) ensures exists leaf :: leaf in LeafInputs(leaves) && mh(leaf) == x {
      var leaf := LeafLevelOrigin(mh, leaves, x);
      assert leaf in LeafInputs(leaves);
    }
  }

  lemma MorePlaces(mh: Hash, leaves: set<Bytes>, more: set<Bytes>, s: seq<Bytes>)
    requires LeafHashes(mh, leaves, s)
    ensures LeafHashes(mh, leaves + more, s) && LeafHashes(mh, more + leaves, s)
  {
    forall x | x in s
      ensures exists leaf :: leaf in leaves + more && mh(leaf) == x
      ensures exists leaf :: leaf in more + leaves && mh(leaf) == x
    {
      var leaf :| leaf in leaves && mh(leaf) == x;
      assert leaf in leaves + more && leaf in more + leaves;
    }
  }

  lemma DifferentDepths(mh: Hash, a: seq<Bytes>, b: seq<Bytes>)
    requires Unmixed(mh, a, b) && a != [] && b != []
    requires Depth(|LeafLevel(mh, a)|) < Depth(|LeafLevel(mh, b)|)
    ensures Root(mh, a) != Root(mh, b)
  {
    hide Full, Placed, Ordered, LeafHashes, Padded, LeafLevel, TreeNodes, Root, Digests;
    var inputs, leaves := TreeNodes(mh, a) + TreeNodes(mh, b), LeafInputs(a) + LeafInputs(b);
    LevelPlaced(mh, a, inputs);
    LevelPlaced(mh, b, inputs);
    MorePlaces(mh, LeafInputs(a), LeafInputs(b), Padded(mh, a));
    Fewer(mh, inputs + leaves, {EMPTY_TAG}) by {
      assert inputs + leaves + {EMPTY_TAG} ==
             LeafInputs(a) + LeafInputs(b) + TreeNodes(mh, a) + TreeNodes(mh, b) + {EMPTY_TAG};
    }
    DepthsBind(mh, inputs, leaves, Depth(|LeafLevel(mh, a)|), Padded(mh, a), Depth(|LeafLevel(mh, b)|), Padded(mh, b));
  }

  lemma SameDepth(mh: Hash, a: seq<Bytes>, b: seq<Bytes>)
    requires Unmixed(mh, a, b) && a != [] && b != [] && Root(mh, a) == Root(mh, b)
    requires Depth(|LeafLevel(mh, a)|) == Depth(|LeafLevel(mh, b)|)
    ensures Padded(mh, a) == Padded(mh, b)
  {
    hide Full, Placed, Ordered, LeafHashes, Padded, LeafLevel, TreeNodes, Root, Digests;
    var inputs := TreeNodes(mh, a) + TreeNodes(mh, b);
    LevelPlaced(mh, a, inputs);
    LevelPlaced(mh, b, inputs);
    Fewer(mh, inputs, LeafInputs(a) + LeafInputs(b) + {EMPTY_TAG}) by {
      assert inputs + (LeafInputs(a) + LeafInputs(b) + {EMPTY_TAG}) ==
             LeafInputs(a) + LeafInputs(b) + TreeNodes(mh, a) + TreeNodes(mh, b) + {EMPTY_TAG};
    }
    FullBinds(mh, inputs, Depth(|LeafLevel(mh, a)|), Padded(mh, a), Padded(mh, b));
  }

  lemma UnmixedSwaps(mh: Hash, a: seq<Bytes>, b: seq<Bytes>)
    requires Unmixed(mh, a, b)
    ensures Unmixed(mh, b, a)
  {
    assert LeafInputs(a) + LeafInputs(b) + TreeNodes(mh, a) + TreeNodes(mh, b) + {EMPTY_TAG} ==
           LeafInputs(b) + LeafInputs(a) + TreeNodes(mh, b) + TreeNodes(mh, a) + {EMPTY_TAG};
  }

  /** What a root binds, repetitions and all: two lists of leaves have one root if and only if their padded leaf hashes
    * are the same, or one is empty and the other the tag alone. */
  lemma RootsAgreeExactly(mh: Hash, a: seq<Bytes>, b: seq<Bytes>)
    requires Unmixed(mh, a, b)
    ensures Root(mh, a) == Root(mh, b) <==> Padded(mh, a) == Padded(mh, b) || TagPair(a, b)
  {
    hide Root, Padded, Unmixed;
    if a == [] || b == [] {
      OneEmpty(mh, a, b);
    } else if Padded(mh, a) == Padded(mh, b) {
      SamePadding(mh, a, b);
    } else if Root(mh, a) == Root(mh, b) {
      UnmixedSwaps(mh, a, b);
      var d, e := Depth(|LeafLevel(mh, a)|), Depth(|LeafLevel(mh, b)|);
      if d < e { DifferentDepths(mh, a, b); }
      if e < d { DifferentDepths(mh, b, a); }
      SameDepth(mh, a, b);
    }
  }

  lemma OneEmpty(mh: Hash, a: seq<Bytes>, b: seq<Bytes>)
    requires Unmixed(mh, a, b) && (a == [] || b == [])
    ensures Root(mh, a) == Root(mh, b) <==> Padded(mh, a) == Padded(mh, b) || TagPair(a, b)
  {
    hide Root, TreeNodes, Pad;
    EmptyRootExactly(mh, a);
    EmptyRootExactly(mh, b);
    assert |multiset(LeafLevel(mh, a))| == |a| && |multiset(LeafLevel(mh, b))| == |b|;
  }

  ghost predicate NoRepeats(s: seq<Bytes>) {
    forall i, j :: 0 <= i < j < |s| ==> s[i] != s[j]
  }

  lemma PaddingIncludes(mh: Hash, a: seq<Bytes>, b: seq<Bytes>)
    requires CollisionFree(mh, LeafInputs(a) + LeafInputs(b)) && Padded(mh, a) == Padded(mh, b)
    ensures LeafInputs(a) <= LeafInputs(b)
  {
    hide LeafLevel, Pad;
    forall x | x in LeafInputs(a) ensures x in LeafInputs(b) {
      HashInLevel(mh, a, x);
      assert mh(x) in Padded(mh, a);
      var y := LeafLevelOrigin(mh, b, mh(x));
      assert y in LeafInputs(b);
    }
  }

  lemma LeavesApart(mh: Hash, a: seq<Bytes>, b: seq<Bytes>)
    requires Unmixed(mh, a, b)
    ensures CollisionFree(mh, LeafInputs(a) + LeafInputs(b)) && CollisionFree(mh, LeafInputs(b) + LeafInputs(a))
  {
    hide TreeNodes;
  }

  /** So lists without repetitions have one root if and only if they are permutations of each other, the tag aside. */
  lemma DistinctRootsAgree(mh: Hash, a: seq<Bytes>, b: seq<Bytes>)
    requires Unmixed(mh, a, b) && NoRepeats(a) && NoRepeats(b)
    ensures Root(mh, a) == Root(mh, b) <==> multiset(a) == multiset(b) || TagPair(a, b)
  {
    hide Root, Padded, Unmixed, CollisionFree;
    RootsAgreeExactly(mh, a, b);
    if Padded(mh, a) == Padded(mh, b) {
      LeavesApart(mh, a, b);
      PaddingIncludes(mh, a, b);
      PaddingIncludes(mh, b, a);
      forall x ensures multiset(a)[x] == multiset(b)[x] {
        CountOnce(a, x);
        CountOnce(b, x);
        assert x in LeafInputs(a) <==> x in LeafInputs(b);
      }
    }
    if multiset(a) == multiset(b) { RootIgnoresOrder(mh, a, b); }
  }

  lemma {:induction false} CountOnce(s: seq<Bytes>, x: Bytes)
    requires NoRepeats(s)
    ensures multiset(s)[x] == if x in s then 1 else 0
  {
    if s != [] {
      CountOnce(s[1..], x);
      assert s == [s[0]] + s[1..];
      assert s[0] !in s[1..];
    }
  }
}
