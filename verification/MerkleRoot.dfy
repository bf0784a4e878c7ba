/**
 The Merkle root of a block's transactions: digests are hashed in pairs level by level
 in one vector, and an odd last digest is carried up as it is.
 */
module MerkleRoots {

  /** The hash functions, of which only their collisions matter. */
  datatype Hashes<!Tx, !D, !C> = Hashes(digest: Tx -> D, pair: (D, D) -> D, checksum: D -> C, empty: C)

  // --- The tree level by level -----------------------------------------------------------------

  function Level<D>(s: seq<D>, pair: (D, D) -> D): (r: seq<D>)
    ensures |r| == (|s| + 1) / 2
  {
    seq((|s| + 1) / 2, j requires 0 <= j < (|s| + 1) / 2 => if 2 * j + 1 < |s| then pair(s[2 * j], s[2 * j + 1]) else s[2 * j])
  }

  function Top<D>(s: seq<D>, pair: (D, D) -> D): D
    requires s != []
    decreases |s|
  {
    if |s| == 1 then s[0] else Top(Level(s, pair), pair)
  }

  function Digests<Tx, D, C>(txs: seq<Tx>, h: Hashes<Tx, D, C>): (r: seq<D>)
    ensures |r| == |txs|
  {
    seq(|txs|, i requires 0 <= i < |txs| => h.digest(txs[i]))
  }

  function MerkleRoot<Tx, D, C>(txs: seq<Tx>, h: Hashes<Tx, D, C>): C {
    if txs == [] then h.empty else h.checksum(Top(Digests(txs, h), h.pair))
  }

  /** One level, in place: the writing position never overtakes the reading position. */
  method HashPairs<D>(ids: array<D>, count: nat, pair: (D, D) -> D) returns (k: nat)
    requires 1 < count <= ids.Length
    modifies ids
    ensures k == (count + 1) / 2
    ensures ids[..k] == Level(old(ids[..count]), pair)
  {
    ghost var level := Level(ids[..count], pair);
    ghost var before := ids[..count];
    var max := count - count % 2;
    var i: nat := 0;
    k := 0;
    while i < max
      invariant i == 2 * k <= max
      invariant ids[..k] == level[..k]
      invariant ids[i..count] == before[i..]
    {
      assert ids[i] == ids[i..count][0] == before[i] && ids[i + 1] == ids[i..count][1] == before[i + 1];
      assert level[k] == pair(before[i], before[i + 1]);
      ids[k] := pair(ids[i], ids[i + 1]);
      assert ids[..k + 1] == ids[..k] + [ids[k]];
      k := k + 1;
      i := i + 2;
    }
    if count % 2 == 1 {
      assert ids[max] == ids[i..count][0] == before[max] == level[k];
      ids[k] := ids[max];
      assert ids[..k + 1] == ids[..k] + [ids[k]];
      k := k + 1;
    }
  }

  method CalculateMerkleRoot<Tx, D, C>(txs: seq<Tx>, h: Hashes<Tx, D, C>) returns (root: C)
    ensures root == MerkleRoot(txs, h)
  {
    if |txs| == 0 {
      return h.empty;
    }
    var ids := new D[|txs|](i requires 0 <= i < |txs| => h.digest(txs[i]));
    ghost var start := Digests(txs, h);
    assert ids[..|txs|] == start;
    var count: nat := |txs|;
    while count > 1
      invariant 0 < count <= ids.Length
      invariant Top(ids[..count], h.pair) == Top(start, h.pair)
    {
      count := HashPairs(ids, count, h.pair);
    }
    return h.checksum(ids[0]);
  }

  // --- The tree from the top --------------------------------------------------------------------

  /** Largest power of two below n. */
  function Split(n: nat): (p: nat)
    requires n >= 2
    ensures 1 <= p < n <= 2 * p
  {
    if n == 2 then 1 else 2 * Split((n + 1) / 2)
  }

  function Tree<D>(s: seq<D>, pair: (D, D) -> D): D
    requires s != []
    decreases |s|
  {
    if |s| == 1 then s[0]
    else
      var p := Split(|s|);
      pair(Tree(s[..p], pair), Tree(s[p..], pair))
  }

  /** Pairing up a whole level changes nothing when seen from the top. */
  lemma {:induction false} LevelKeepsTree<D>(s: seq<D>, pair: (D, D) -> D)
    requires s != []
    ensures Tree(Level(s, pair), pair) == Tree(s, pair)
    decreases |s|
  {
    if |s| == 1 {
      assert Level(s, pair) == s;
    } else if |s| == 2 {
      assert Level(s, pair) == [pair(s[0], s[1])];
    } else {
      var p := Split(|s|);
      var half := Split((|s| + 1) / 2);
      var level := Level(s, pair);
      assert level[..half] == Level(s[..p], pair);
      assert level[half..] == Level(s[p..], pair);
      LevelKeepsTree(s[..p], pair);
      LevelKeepsTree(s[p..], pair);
    }
  }

  /** The level-by-level reduction is the tree that splits at the largest power of two. */
  lemma {:induction false} TopIsTree<D>(s: seq<D>, pair: (D, D) -> D)
    requires s != []
    ensures Top(s, pair) == Tree(s, pair)
    decreases |s|
  {
    if |s| > 1 {
      TopIsTree(Level(s, pair), pair);
      LevelKeepsTree(s, pair);
    }
  }

  // --- When the root determines the transactions ------------------------------------------------

  ghost predicate PairsDiffer<D(!new)>(pair: (D, D) -> D) {
    forall a, b, c, d :: pair(a, b) == pair(c, d) ==> a == c && b == d
  }

  /** No two arguments of one hash function collide, and no checksum is the empty root. */
  ghost predicate CollisionFree<Tx(!new), D(!new), C(!new)>(h: Hashes<Tx, D, C>) {
    && (forall x, y :: h.digest(x) == h.digest(y) ==> x == y)
    && PairsDiffer(h.pair)
    && (forall d, e :: h.checksum(d) == h.checksum(e) ==> d == e)
    && (forall d :: h.checksum(d) != h.empty)
  }

  /** No transaction hashes like the tree of several. */
  ghost predicate NoLookalike<Tx(!new), D, C>(h: Hashes<Tx, D, C>) {
    forall x, s: seq<Tx> :: |s| >= 2 ==> h.digest(x) != Tree(Digests(s, h), h.pair)
  }

  /** Different transactions have different roots. */
  ghost predicate RootsDiffer<Tx(!new), D, C>(h: Hashes<Tx, D, C>) {
    forall s, t :: MerkleRoot(s, h) == MerkleRoot(t, h) ==> s == t
  }

  lemma RootIsTree<Tx, D, C>(s: seq<Tx>, h: Hashes<Tx, D, C>)
    requires s != []
    ensures MerkleRoot(s, h) == h.checksum(Tree(Digests(s, h), h.pair))
  {
    TopIsTree(Digests(s, h), h.pair);
  }

  lemma DigestsOfParts<Tx, D, C>(s: seq<Tx>, h: Hashes<Tx, D, C>, p: nat)
    requires p <= |s|
    ensures s == s[..p] + s[p..]
    ensures Digests(s, h)[..p] == Digests(s[..p], h) && Digests(s, h)[p..] == Digests(s[p..], h)
  {
  }

  /** A tree of one transaction is its digest; a larger one is the pair of its two parts. */
  lemma TreeSplits<Tx, D, C>(s: seq<Tx>, h: Hashes<Tx, D, C>)
    requires s != []
    ensures |s| == 1 ==> Tree(Digests(s, h), h.pair) == h.digest(s[0])
    ensures |s| > 1 ==>
              var p := Split(|s|);
              && s == s[..p] + s[p..]
              && Tree(Digests(s, h), h.pair) == h.pair(Tree(Digests(s[..p], h), h.pair), Tree(Digests(s[p..], h), h.pair))
  {
    if |s| > 1 {
      DigestsOfParts(s, h, Split(|s|));
    }
  }

  /** Without lookalikes a tree has only one sequence of leaves. */
  lemma {:induction false} TreeDetermines<Tx(!new), D(!new), C(!new)>(s: seq<Tx>, t: seq<Tx>, h: Hashes<Tx, D, C>)
    requires s != [] && t != [] && CollisionFree(h) && NoLookalike(h)
    requires Tree(Digests(s, h), h.pair) == Tree(Digests(t, h), h.pair)
    ensures s == t
    decreases |s|
  {
    TreeSplits(s, h);
    TreeSplits(t, h);
    if |s| > 1 && |t| > 1 {
      var p, q := Split(|s|), Split(|t|);
      TreeDetermines(s[..p], t[..q], h);
      TreeDetermines(s[p..], t[q..], h);
    }
  }

  /** A transaction that hashes like a tree stands for the transactions of the tree. */
  lemma LookalikeSharesRoot<Tx, D, C>(x: Tx, s: seq<Tx>, h: Hashes<Tx, D, C>)
    requires s != [] && h.digest(x) == Tree(Digests(s, h), h.pair)
    ensures MerkleRoot([x], h) == MerkleRoot(s, h)
  {
    RootIsTree([x], h);
    RootIsTree(s, h);
    assert Digests([x], h) == [h.digest(x)];
  }

  /** Without collisions, the root determines the transactions if and only if there is no lookalike. */
  lemma RootDetermines<Tx(!new), D(!new), C(!new)>(h: Hashes<Tx, D, C>)
    requires CollisionFree(h)
    ensures RootsDiffer(h) <==> NoLookalike(h)
  {
    if RootsDiffer(h) {
      forall x, s: seq<Tx> | |s| >= 2
        ensures h.digest(x) != Tree(Digests(s, h), h.pair)
      {
        if h.digest(x) == Tree(Digests(s, h), h.pair) {
          LookalikeSharesRoot(x, s, h);
        }
      }
    }
    if NoLookalike(h) {
      forall s, t | MerkleRoot(s, h) == MerkleRoot(t, h)
        ensures s == t
      {
        if s != [] && t != [] {
          RootIsTree(s, h);
          RootIsTree(t, h);
          TreeDetermines(s, t, h);
        }
      }
    }
  }
}
