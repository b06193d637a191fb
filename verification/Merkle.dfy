/** The Merkle Root mined_block of tools/regtest/liar.py builds, an odd level
    duplicating its last entry. */
module Merkle {
  import opened Bytes

  type Level = seq<Hash>

  function Node(h: Hasher, left: Hash, right: Hash): Hash {
    h(left + right)
  }

  /** An odd level with its last entry twice. */
  function Evened(level: Level): (e: Level)
    ensures |e| % 2 == 0
  {
    if |level| % 2 == 1 then level + [level[|level| - 1]] else level
  }

  function Paired(h: Hasher, level: Level): (up: Level)
    requires |level| % 2 == 0
    ensures |up| == |level| / 2
    ensures forall i {:trigger up[i]} | 0 <= i < |up| :: up[i] == Node(h, level[2 * i], level[2 * i + 1])
  {
    seq(|level| / 2, i requires 0 <= i < |level| / 2 => Node(h, level[2 * i], level[2 * i + 1]))
  }

  function Up(h: Hasher, level: Level): (up: Level)
    ensures |up| == (|level| + 1) / 2
  {
    Paired(h, Evened(level))
  }

  function Root(h: Hasher, ids: Level): Hash
    requires ids != []
    decreases |ids|
  {
    if |ids| == 1 then ids[0] else Root(h, Up(h, ids))
  }

  method PairUp(h: Hasher, level: Level) returns (next: Level)
    requires |level| % 2 == 0
    ensures next == Paired(h, level)
  {
    hide Node;
    next := [];
    for i := 0 to |level| / 2
      invariant next == Paired(h, level)[..i]
    {
      next := next + [Node(h, level[2 * i], level[2 * i + 1])];
    }
  }

  /** The loop; None is the IndexError of no Transactions at all. */
  method MerkleRoot(h: Hasher, ids: Level) returns (root: Option<Hash>)
    ensures root == if ids == [] then None else Some(Root(h, ids))
  {
    hide Paired;
    var level := ids;
    while |level| > 1
      invariant level == [] <==> ids == []
      invariant ids != [] ==> Root(h, level) == Root(h, ids)
      decreases |level|
    {
      ghost var was := level;
      if |level| % 2 == 1 { level := level + [level[|level| - 1]]; }
      level := PairUp(h, level);
      assert level == Up(h, was);
    }
    return if level == [] then None else Some(level[0]);
  }

  //
  // The same Root from the top down, no entry ever added.
  //

  /** How many entries level k of a tree over n ids has. */
  function Width(n: nat, k: nat): nat {
    if k == 0 then n else (Width(n, k - 1) + 1) / 2
  }

  function Height(n: nat): nat {
    if n <= 1 then 0 else 1 + Height((n + 1) / 2)
  }

  /** Entry i of level k: its two children hashed, or its one child twice. */
  function Entry(h: Hasher, ids: Level, k: nat, i: nat): Hash
    requires i < Width(|ids|, k)
    decreases k
  {
    if k == 0 then ids[i]
    else
      var left := Entry(h, ids, k - 1, 2 * i);
      Node(h, left, if 2 * i + 1 < Width(|ids|, k - 1) then Entry(h, ids, k - 1, 2 * i + 1) else left)
  }

  lemma {:induction false} WidthUp(n: nat, k: nat)
    ensures Width(n, k + 1) == Width((n + 1) / 2, k)
  {
    if k > 0 { WidthUp(n, k - 1); }
  }

  lemma FirstUp(h: Hasher, ids: Level, i: nat)
    requires i < Width(|ids|, 1)
    ensures Width(|ids|, 1) == |Up(h, ids)| && Entry(h, ids, 1, i) == Up(h, ids)[i]
  {
    hide Node;
    assert Width(|ids|, 1) == (|ids| + 1) / 2;
    assert Entry(h, ids, 0, 2 * i) == ids[2 * i];
    assert Up(h, ids)[i] == Node(h, Evened(ids)[2 * i], Evened(ids)[2 * i + 1]);
    if 2 * i + 1 < |ids| {
      assert Entry(h, ids, 0, 2 * i + 1) == ids[2 * i + 1];
    }
  }

  /** A level up and a level fewer. */
  lemma {:induction false} EntryUp(h: Hasher, ids: Level, k: nat, i: nat)
    requires i < Width(|ids|, k + 1)
    ensures i < Width(|Up(h, ids)|, k)
    ensures Entry(h, ids, k + 1, i) == Entry(h, Up(h, ids), k, i)
    decreases k
  {
    hide Node, Up;
    WidthUp(|ids|, k);
    if k == 0 {
      FirstUp(h, ids, i);
    } else {
      WidthUp(|ids|, k - 1);
      EntryUp(h, ids, k - 1, 2 * i);
      if 2 * i + 1 < Width(|ids|, k) {
        EntryUp(h, ids, k - 1, 2 * i + 1);
      }
    }
  }

  lemma RootUp(h: Hasher, ids: Level)
    requires |ids| > 1
    ensures Root(h, ids) == Root(h, Up(h, ids))
  {
  }

  lemma HeightUp(n: nat)
    requires n > 1
    ensures Height(n) == 1 + Height((n + 1) / 2)
  {
  }

  lemma OneIsItsRoot(h: Hasher, ids: Level)
    requires |ids| == 1
    ensures Height(1) == 0 && Width(1, 0) == 1
    ensures Root(h, ids) == Entry(h, ids, 0, 0)
  {
  }

  /** The loop from the bottom and the recursion from the top agree. */
  lemma {:induction false} RootIsTheTopEntry(h: Hasher, ids: Level)
    requires ids != []
    ensures Width(|ids|, Height(|ids|)) == 1
    ensures Root(h, ids) == Entry(h, ids, Height(|ids|), 0)
    decreases |ids|
  {
    hide Node, Up, Root, Entry, Width, Height;
    if |ids| == 1 {
      OneIsItsRoot(h, ids);
    } else {
      var up := Up(h, ids);
      RootIsTheTopEntry(h, up);
      HeightUp(|ids|);
      WidthUp(|ids|, Height(|up|));
      EntryUp(h, ids, Height(|up|), 0);
      RootUp(h, ids);
    }
  }

  //
  // The same Root from any one id and its siblings.
  //

  /** The level above: each entry with its right neighbour, the last with itself
      where it has none. */
  function Above(h: Hasher, level: Level): (up: Level)
    ensures |up| == (|level| + 1) / 2
  {
    seq((|level| + 1) / 2, i requires 0 <= i < (|level| + 1) / 2 =>
        var left: Bytes := level[2 * i];
        if 2 * i + 1 < |level| then h(left + level[2 * i + 1]) else h(left + left))
  }

  function Sibling(level: Level, i: nat): Hash
    requires i < |level|
  {
    if i % 2 == 1 then level[i - 1] else if i + 1 < |level| then level[i + 1] else level[i]
  }

  function Siblings(h: Hasher, level: Level, i: nat): seq<Hash>
    requires i < |level|
    decreases |level|
  {
    if |level| == 1 then [] else [Sibling(level, i)] + Siblings(h, Above(h, level), i / 2)
  }

  /** Up along the bits of i: on the left of its sibling on a nought, on the right
      on a one. */
  function Folded(h: Hasher, x: Hash, i: nat, path: seq<Hash>): Hash
    decreases |path|
  {
    if path == [] then x
    else Folded(h, if i % 2 == 0 then h(x + path[0]) else h(path[0] + x), i / 2, path[1..])
  }

  lemma UpIsAbove(h: Hasher, level: Level)
    ensures Up(h, level) == Above(h, level)
  {
    forall j | 0 <= j < |Up(h, level)| ensures Up(h, level)[j] == Above(h, level)[j] {
      assert Up(h, level)[j] == Node(h, Evened(level)[2 * j], Evened(level)[2 * j + 1]);
    }
  }

  lemma FoldedOnce(h: Hasher, level: Level, i: nat)
    requires i < |level| && |level| > 1
    ensures
      var s := Sibling(level, i);
      i / 2 < |Above(h, level)| && Above(h, level)[i / 2] == if i % 2 == 0 then h(level[i] + s) else h(s + level[i])
  {
  }

  /** Every id is under the Root: folded with its siblings, it gives it. */
  lemma {:induction false} EveryIdFoldsToTheRoot(h: Hasher, ids: Level, i: nat)
    requires i < |ids|
    ensures Folded(h, ids[i], i, Siblings(h, ids, i)) == Root(h, ids)
    decreases |ids|
  {
    if |ids| > 1 {
      hide Up, Above, Sibling;
      UpIsAbove(h, ids);
      FoldedOnce(h, ids, i);
      EveryIdFoldsToTheRoot(h, Above(h, ids), i / 2);
      assert Siblings(h, ids, i)[1..] == Siblings(h, Above(h, ids), i / 2);
    }
  }

  /** One id is its own Root, and two are hashed in their order. */
  lemma SmallRoots(h: Hasher, a: Hash, b: Hash)
    ensures Root(h, [a]) == a && Root(h, [a, b]) == h(a + b)
  {
    EveryIdFoldsToTheRoot(h, [a, b], 0);
    assert Siblings(h, [a, b], 0) == [b];
  }

  //
  // What a Root says of the ids under it.
  //

  datatype Pair = Pair(left: Hash, right: Hash)

  function Pairs(level: Level): (pairs: seq<Pair>)
    requires |level| % 2 == 0
    ensures |pairs| == |level| / 2
    ensures forall i {:trigger pairs[i]} | 0 <= i < |pairs| :: pairs[i] == Pair(level[2 * i], level[2 * i + 1])
  {
    seq(|level| / 2, i requires 0 <= i < |level| / 2 => Pair(level[2 * i], level[2 * i + 1]))
  }

  /** Every pair hashed on the way to the Root, in order. */
  function Hashed(h: Hasher, ids: Level): seq<Pair>
    decreases |ids|
  {
    if |ids| <= 1 then [] else Pairs(Evened(ids)) + Hashed(h, Up(h, ids))
  }

  /** Nowhere do two different pairs in the same place hash alike. (Of any
      pairs at all there must be two that do: 64 bytes into 32.) */
  ghost predicate NoCollision(h: Hasher, p: seq<Pair>, q: seq<Pair>) {
    forall i | 0 <= i < |p| && i < |q| :: Node(h, p[i].left, p[i].right) == Node(h, q[i].left, q[i].right) ==>
        p[i] == q[i]
  }

  lemma NoCollisionSplit(h: Hasher, p: seq<Pair>, p': seq<Pair>, q: seq<Pair>, q': seq<Pair>)
    requires NoCollision(h, p + p', q + q') && |p| == |q|
    ensures NoCollision(h, p, q) && NoCollision(h, p', q')
  {
    hide Node;
    forall i | 0 <= i < |p| ensures p[i] == (p + p')[i] && q[i] == (q + q')[i] {}
    forall i | 0 <= i < |p'| && i < |q'| ensures p'[i] == (p + p')[|p| + i] && q'[i] == (q + q')[|q| + i] {}
  }

  lemma UpFixesTheLevel(h: Hasher, a: Level, b: Level)
    requires |a| == |b| && NoCollision(h, Pairs(Evened(a)), Pairs(Evened(b)))
    requires Up(h, a) == Up(h, b)
    ensures a == b
  {
    hide Node, Evened;
    var p, q := Pairs(Evened(a)), Pairs(Evened(b));
    forall i | 0 <= i < |a| ensures a[i] == b[i] {
      var j := i / 2;
      assert Up(h, a)[j] == Up(h, b)[j];
      assert p[j] == q[j];
      EvenedAt(a, i);
      EvenedAt(b, i);
    }
  }

  lemma EvenedAt(level: Level, i: nat)
    requires i < |level|
    ensures i < |Evened(level)| && Evened(level)[i] == level[i]
    ensures |Evened(level)| == (|level| + 1) / 2 * 2
  {
  }

  /** As many ids under the same Root are the same ids in the same order,
      unless two of the pairs hashed collide. */
  lemma {:induction false} RootFixesTheIds(h: Hasher, a: Level, b: Level)
    requires |a| == |b| && a != [] && NoCollision(h, Hashed(h, a), Hashed(h, b))
    ensures Root(h, a) == Root(h, b) <==> a == b
    decreases |a|
  {
    if |a| > 1 && Root(h, a) == Root(h, b) {
      hide Up, Pairs, Evened, NoCollision;
      NoCollisionSplit(h, Pairs(Evened(a)), Hashed(h, Up(h, a)), Pairs(Evened(b)), Hashed(h, Up(h, b)));
      RootFixesTheIds(h, Up(h, a), Up(h, b));
      UpFixesTheLevel(h, a, b);
    } else if |a| == 1 {
      assert a == [a[0]] && b == [b[0]];
    }
  }

  /** Half of 2^k times m is 2^(k - 1) times m. */
  lemma Halved(n: nat, k: nat, m: nat)
    requires k > 0 && m > 1 && n == Pow2(k) * m
    ensures n > 1 && n % 2 == 0 && (n + 1) / 2 == Pow2(k - 1) * m
    ensures Pow2(k) == 2 * Pow2(k - 1) <= n
  {
    var q := Pow2(k - 1);
    assert Pow2(k) == 2 * q;
    hide Pow2;
    Doubled(q, m);
  }

  lemma Doubled(q: nat, m: nat)
    requires q > 0 && m > 0
    ensures 2 * q * m == 2 * (q * m) && q * m >= q
  {
  }

  /** The ids with their last n again behind them. */
  function Repeated(ids: Level, n: nat): Level
    requires n <= |ids|
  {
    ids + ids[|ids| - n..]
  }

  lemma EvenStays(level: Level)
    requires |level| % 2 == 0
    ensures Evened(level) == level
  {
  }

  /** Repeating an even number behind an even number is, one level up,
      repeating half as many behind half as many. */
  lemma RepeatedUp(h: Hasher, ids: Level, q: nat)
    requires |ids| % 2 == 0 && 2 * q <= |ids|
    ensures Up(h, Repeated(ids, 2 * q)) == Repeated(Up(h, ids), q)
  {
    hide Node, Evened;
    EvenStays(ids);
    EvenStays(Repeated(ids, 2 * q));
    var longer, up := Repeated(ids, 2 * q), Up(h, ids);
    forall j | 0 <= j < |longer| / 2 ensures Up(h, longer)[j] == Repeated(up, q)[j] {
      assert Up(h, longer)[j] == Node(h, longer[2 * j], longer[2 * j + 1]);
      if j >= |up| {
        var i := j - q;
        assert Repeated(up, q)[j] == up[i] == Node(h, ids[2 * i], ids[2 * i + 1]);
      }
    }
  }

  lemma RepeatedKeepsUp(h: Hasher, ids: Level, q: nat)
    requires |ids| > 1 && |ids| % 2 == 0 && 2 * q <= |ids|
    requires Root(h, Repeated(Up(h, ids), q)) == Root(h, Up(h, ids))
    ensures Root(h, Repeated(ids, 2 * q)) == Root(h, ids)
  {
    hide Root, Up;
    RepeatedUp(h, ids, q);
    RootUp(h, ids);
    RootUp(h, Repeated(ids, 2 * q));
  }

  /** What the source's own duplication makes of an odd list. */
  lemma LastTwiceKeepsTheRoot(h: Hasher, ids: Level)
    requires |ids| > 1 && |ids| % 2 == 1
    ensures Root(h, Repeated(ids, 1)) == Root(h, ids)
    ensures Repeated(ids, 1) == ids + [ids[|ids| - 1]]
  {
    var longer := Repeated(ids, 1);
    assert longer == Evened(ids) == Evened(longer);
    RootUp(h, ids);
    RootUp(h, longer);
  }

  /** CVE-2012-2459, the whole family: a list of 2^k ids an odd number of times
      over, more than once, keeps its Root when its last 2^k come again. */
  lemma {:induction false} RepeatedTailKeepsTheRoot(h: Hasher, ids: Level, k: nat, m: nat)
    requires m > 1 && m % 2 == 1
    requires |ids| == Pow2(k) * m
    ensures Pow2(k) <= |ids|
    ensures Root(h, Repeated(ids, Pow2(k))) == Root(h, ids)
    decreases k
  {
    if k == 0 {
      LastTwiceKeepsTheRoot(h, ids);
    } else {
      hide Root, Up, Repeated, Pow2;
      Halved(|ids|, k, m);
      RepeatedTailKeepsTheRoot(h, Up(h, ids), k - 1, m);
      RepeatedKeepsUp(h, ids, Pow2(k - 1));
    }
  }

  //
  // Lists of different lengths, their trees as high.
  //

  /** The entry on the right under entry i of level k: the left one again where
      the level below is short of it. */
  function RightOf(n: nat, k: nat, i: nat): (r: nat)
    requires k > 0 && i < Width(n, k)
    ensures 2 * i < Width(n, k - 1) && r < Width(n, k - 1)
  {
    if 2 * i + 1 < Width(n, k - 1) then 2 * i + 1 else 2 * i
  }

  /** The leaves under entry i of level k once every short level is filled with
      its last entry. */
  function Filled(ids: Level, k: nat, i: nat): (leaves: Level)
    requires i < Width(|ids|, k)
    ensures |leaves| == Pow2(k)
    decreases k
  {
    if k == 0 then [ids[i]] else Filled(ids, k - 1, 2 * i) + Filled(ids, k - 1, RightOf(|ids|, k, i))
  }

  /** The pair entry i of level k is hashed from. */
  function PairAt(h: Hasher, ids: Level, k: nat, i: nat): Pair
    requires k > 0 && i < Width(|ids|, k)
  {
    Pair(Entry(h, ids, k - 1, 2 * i), Entry(h, ids, k - 1, RightOf(|ids|, k, i)))
  }

  /** Two different pairs hash alike. */
  ghost predicate PairsCollide(h: Hasher, p: Pair, q: Pair) {
    p != q && Node(h, p.left, p.right) == Node(h, q.left, q.right)
  }

  /** In the same place under these two entries, two different pairs hash alike. */
  ghost predicate Collide(h: Hasher, a: Level, b: Level, k: nat, i: nat, j: nat)
    requires i < Width(|a|, k) && j < Width(|b|, k)
    decreases k
  {
    k > 0
    && (|| PairsCollide(h, PairAt(h, a, k, i), PairAt(h, b, k, j))
        || Collide(h, a, b, k - 1, 2 * i, 2 * j)
        || Collide(h, a, b, k - 1, RightOf(|a|, k, i), RightOf(|b|, k, j)))
  }

  lemma EntryIsItsPair(h: Hasher, ids: Level, k: nat, i: nat)
    requires k > 0 && i < Width(|ids|, k)
    ensures Entry(h, ids, k, i) == Node(h, PairAt(h, ids, k, i).left, PairAt(h, ids, k, i).right)
  {
    hide Node;
  }

  lemma HalvesApart(x: Level, y: Level, u: Level, v: Level)
    requires |x| == |u|
    ensures x + y == u + v <==> x == u && y == v
  {
    if x + y == u + v {
      assert x == (x + y)[..|x|] && u == (u + v)[..|x|];
      assert y == (x + y)[|x|..] && v == (u + v)[|x|..];
    }
  }

  lemma {:induction false} EntryFixesTheLeaves(h: Hasher, a: Level, b: Level, k: nat, i: nat, j: nat)
    requires i < Width(|a|, k) && j < Width(|b|, k)
    ensures Filled(a, k, i) == Filled(b, k, j) ==> Entry(h, a, k, i) == Entry(h, b, k, j)
    ensures Entry(h, a, k, i) == Entry(h, b, k, j) && !Collide(h, a, b, k, i, j) ==> Filled(a, k, i) == Filled(b, k, j)
    decreases k
  {
    hide Node, Width, RightOf;
    if k > 0 {
      var r, t := RightOf(|a|, k, i), RightOf(|b|, k, j);
      EntryFixesTheLeaves(h, a, b, k - 1, 2 * i, 2 * j);
      EntryFixesTheLeaves(h, a, b, k - 1, r, t);
      EntryIsItsPair(h, a, k, i);
      EntryIsItsPair(h, b, k, j);
      HalvesApart(Filled(a, k - 1, 2 * i), Filled(a, k - 1, r), Filled(b, k - 1, 2 * j), Filled(b, k - 1, t));
    }
  }

  /** Which leaf entry i of level k begins at. */
  function First(k: nat, i: nat): nat {
    if k == 0 then i else First(k - 1, 2 * i)
  }

  lemma {:induction false} FirstNext(k: nat, i: nat)
    ensures First(k, i + 1) == First(k, i) + Pow2(k)
    ensures First(k, 0) == 0
  {
    if k > 0 {
      FirstNext(k - 1, 2 * i);
      FirstNext(k - 1, 2 * i + 1);
    }
  }

  /** A level reaches over all the ids. */
  lemma {:induction false} LevelReaches(n: nat, k: nat)
    ensures First(k, Width(n, k)) >= n
  {
    if k > 0 {
      LevelReaches(n, k - 1);
      FirstNext(k - 1, Width(n, k - 1));
    }
  }

  lemma {:induction false} IdsStandAt(ids: Level, k: nat, i: nat, j: nat)
    requires i < Width(|ids|, k) && j < Pow2(k) && First(k, i) + j < |ids|
    ensures Filled(ids, k, i)[j] == ids[First(k, i) + j]
    decreases k
  {
    if k > 0 {
      var half := Pow2(k - 1);
      FirstNext(k - 1, 2 * i);
      if j < half {
        IdsStandAt(ids, k - 1, 2 * i, j);
      } else {
        LevelReaches(|ids|, k - 1);
        IdsStandAt(ids, k - 1, 2 * i + 1, j - half);
      }
    }
  }

  /** A list as its tree sees it: 2^k leaves, the list first. */
  function Full(ids: Level): (leaves: Level)
    requires ids != []
  {
    TopIsOne(|ids|);
    Filled(ids, Height(|ids|), 0)
  }

  lemma {:induction false} TopIsOne(n: nat)
    requires n > 0
    ensures Width(n, Height(n)) == 1
    decreases n
  {
    if n > 1 {
      TopIsOne((n + 1) / 2);
      WidthUp(n, Height((n + 1) / 2));
    }
  }

  ghost predicate SomewhereCollide(h: Hasher, a: Level, b: Level)
    requires a != [] && b != [] && Height(|a|) == Height(|b|)
  {
    TopIsOne(|a|);
    TopIsOne(|b|);
    Collide(h, a, b, Height(|a|), 0, 0)
  }

  lemma FullBeginsWithTheIds(ids: Level)
    requires ids != []
    ensures |Full(ids)| == Pow2(Height(|ids|)) >= |ids|
    ensures Full(ids)[..|ids|] == ids
  {
    var k := Height(|ids|);
    TopIsOne(|ids|);
    LevelReaches(|ids|, k);
    FirstNext(k, 0);
    forall j | 0 <= j < |ids| ensures Full(ids)[j] == ids[j] {
      IdsStandAt(ids, k, 0, j);
    }
  }

  /** Of trees as high, lists of any lengths: filled alike they share their Root;
      sharing it and not filled alike, two pairs hashed in one place collide. One
      of two lists filled alike begins the other. */
  lemma RootFixesTheFullList(h: Hasher, a: Level, b: Level)
    requires a != [] && b != [] && Height(|a|) == Height(|b|)
    ensures Full(a) == Full(b) ==> Root(h, a) == Root(h, b)
    ensures !SomewhereCollide(h, a, b) ==> (Root(h, a) == Root(h, b) <==> Full(a) == Full(b))
    ensures Full(a) == Full(b) ==> a <= b || b <= a
  {
    hide Entry, Root, Collide;
    RootIsTheTopEntry(h, a);
    RootIsTheTopEntry(h, b);
    EntryFixesTheLeaves(h, a, b, Height(|a|), 0, 0);
    FullBeginsWithTheIds(a);
    FullBeginsWithTheIds(b);
  }

  lemma {:induction false} HeightOfPow2(k: nat)
    ensures Height(Pow2(k)) == k
  {
    if k > 0 { HeightOfPow2(k - 1); }
  }

  /** The padded tree is the tree: 2^k leaves, nothing left to fill, one Root. */
  lemma FullKeepsTheRoot(h: Hasher, ids: Level)
    requires ids != []
    ensures Full(ids) != [] && Full(Full(ids)) == Full(ids)
    ensures Root(h, Full(ids)) == Root(h, ids)
  {
    hide Root, Full;
    var leaves := Full(ids);
    FullBeginsWithTheIds(ids);
    HeightOfPow2(Height(|ids|));
    FullBeginsWithTheIds(leaves);
    assert Full(leaves) == leaves;
    RootFixesTheFullList(h, leaves, ids);
  }

  lemma {:induction false} LeavesAreIds(ids: Level, k: nat, i: nat)
    requires i < Width(|ids|, k)
    ensures forall j | 0 <= j < |Filled(ids, k, i)| :: Filled(ids, k, i)[j] in ids
    decreases k
  {
    if k > 0 {
      LeavesAreIds(ids, k - 1, 2 * i);
      LeavesAreIds(ids, k - 1, RightOf(|ids|, k, i));
    }
  }

  lemma LeavesOfFull(ids: Level)
    requires ids != []
    ensures forall j | 0 <= j < |Full(ids)| :: Full(ids)[j] in ids
  {
    TopIsOne(|ids|);
    LeavesAreIds(ids, Height(|ids|), 0);
  }

  ghost predicate HoldsOneTwice(ids: Level) {
    exists i, j :: 0 <= i < j < |ids| && ids[i] == ids[j]
  }

  /** What tells CVE-2012-2459's lists: of two that share their Root, trees as
      high and no collision, the longer begins with the other and holds an id
      twice. */
  lemma SharedRootRepeatsAnId(h: Hasher, a: Level, b: Level)
    requires a != [] && |a| < |b| && Height(|a|) == Height(|b|)
    ensures Root(h, a) == Root(h, b) && !SomewhereCollide(h, a, b) ==> a <= b && HoldsOneTwice(b)
  {
    hide Root, SomewhereCollide, Height, Width;
    RootFixesTheFullList(h, a, b);
    if Root(h, a) == Root(h, b) && !SomewhereCollide(h, a, b) {
      FilledAlikeRepeats(a, b);
    }
  }

  lemma FilledAlikeRepeats(a: Level, b: Level)
    requires a != [] && |a| < |b| && Full(a) == Full(b)
    ensures a <= b && HoldsOneTwice(b)
  {
    hide Height, Width, Full;
    FullBeginsWithTheIds(a);
    FullBeginsWithTheIds(b);
    LeavesOfFull(a);
    var n := |a|;
    assert Full(a)[n] == b[n] && b[n] in a;
    var i :| 0 <= i < n && a[i] == b[n];
    assert b[i] == b[n];
  }
}
