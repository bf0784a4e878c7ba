/**
 The fork database: a tree of recent blocks, linked by weak references to their parents,
 and the pair of branches that lead from two blocks back to where they diverge.
 */
module ForkTrees {
  import opened Options

  /** A block id carries the block's number in its first word. */
  datatype BlockId = BlockId(num: nat, hash: nat)

  const NO_BLOCK := BlockId(0, 0)

  datatype Block = Block(id: BlockId, previous: BlockId, body: nat) {

    /** The number is one more than the number in the previous id, and is stored in the id. */
    predicate Valid() {
      id.num == previous.num + 1
    }
  }

  /** A block in the tree; `linked` says whether its reference to its parent is alive. */
  datatype ForkItem = ForkItem(block: Block, linked: bool)

  type Tree = map<BlockId, ForkItem>

  ghost predicate ValidTree(t: Tree) {
    forall id :: id in t ==>
      t[id].block.id == id && t[id].block.Valid() && (t[id].linked ==> t[id].block.previous in t)
  }

  /** Locking the reference to the parent. */
  function Parent(t: Tree, id: BlockId): Option<BlockId>
    requires id in t
  {
    if t[id].linked then Some(t[id].block.previous) else None
  }

  /** Parents of erased blocks expire, and stay expired. */
  function Erased(t: Tree, gone: set<BlockId>): Tree {
    map id | id in t && id !in gone :: ForkItem(t[id].block, t[id].linked && t[id].block.previous !in gone)
  }

  lemma ErasedIsValid(t: Tree, gone: set<BlockId>)
    requires ValidTree(t)
    ensures ValidTree(Erased(t, gone))
  {
  }

  // --- The two branches -----------------------------------------------------------------

  datatype Branches = Branches(first: seq<Block>, second: seq<Block>)

  /** Walk both sides down to equal height and then together until they share a parent. */
  function BranchesFrom(t: Tree, f: BlockId, s: BlockId): (r: Option<Branches>)
    requires ValidTree(t) && f in t && s in t
    ensures r.Some? ==> r.value.first != [] && r.value.second != []
    decreases f.num + s.num
  {
    if f.num > s.num then
      var p :- Parent(t, f);
      var rest :- BranchesFrom(t, p, s);
      Some(Branches([t[f].block] + rest.first, rest.second))
    else if s.num > f.num then
      var p :- Parent(t, s);
      var rest :- BranchesFrom(t, f, p);
      Some(Branches(rest.first, [t[s].block] + rest.second))
    else if t[f].block.previous != t[s].block.previous then
      var pf :- Parent(t, f);
      var ps :- Parent(t, s);
      var rest :- BranchesFrom(t, pf, ps);
      Some(Branches([t[f].block] + rest.first, [t[s].block] + rest.second))
    else
      Some(Branches([t[f].block], [t[s].block]))
  }

  /** Consecutive blocks of the tree from a given tip down, each the live parent of the one before. */
  ghost predicate IsChain(t: Tree, tip: BlockId, c: seq<Block>) {
    && c != [] && c[0].id == tip
    && (forall k :: 0 <= k < |c| ==> c[k].id in t && t[c[k].id].block == c[k] && c[k].Valid())
    && (forall k :: 0 <= k < |c| - 1 ==> t[c[k].id].linked && c[k].previous == c[k + 1].id)
  }

  lemma ChainCons(t: Tree, tip: BlockId, c: seq<Block>)
    requires ValidTree(t) && tip in t && t[tip].linked && IsChain(t, t[tip].block.previous, c)
    ensures IsChain(t, tip, [t[tip].block] + c)
  {
  }

  lemma {:induction false} ChainNumbers(t: Tree, tip: BlockId, c: seq<Block>, k: nat)
    requires IsChain(t, tip, c) && k < |c|
    ensures c[k].id.num + k == tip.num
  {
    if k > 0 {
      ChainNumbers(t, tip, c, k - 1);
    }
  }

  lemma ChainIsBelow(t: Tree, tip: BlockId, c: seq<Block>, n: nat)
    requires IsChain(t, tip, c) && tip.num < n
    ensures forall k :: 0 <= k < |c| ==> c[k].id.num < n
  {
    forall k | 0 <= k < |c|
      ensures c[k].id.num < n
    {
      ChainNumbers(t, tip, c, k);
    }
  }

  /** No two blocks of equal height above the last pair share a parent. */
  ghost predicate DivergeOnlyAtEnd(b: Branches) {
    forall i, j :: 0 <= i < |b.first| - 1 && 0 <= j < |b.second| - 1 && b.first[i].id.num == b.second[j].id.num ==>
      b.first[i].previous != b.second[j].previous
  }

  /** Two chains down from the given tips that end at the same height and under the same parent. */
  ghost predicate Meet(t: Tree, f: BlockId, s: BlockId, b: Branches) {
    && IsChain(t, f, b.first) && IsChain(t, s, b.second)
    && b.first[|b.first| - 1].previous == b.second[|b.second| - 1].previous
    && b.first[|b.first| - 1].id.num == b.second[|b.second| - 1].id.num
    && DivergeOnlyAtEnd(b)
  }

  /**
   What fetching branches promises: two chains down from the given tips whose last blocks
   have the same height and the same parent, with no earlier aligned pair sharing one.
   */
  lemma {:induction false} BranchesMeet(t: Tree, f: BlockId, s: BlockId)
    requires ValidTree(t) && f in t && s in t && BranchesFrom(t, f, s).Some?
    ensures Meet(t, f, s, BranchesFrom(t, f, s).value)
    decreases f.num + s.num
  {
    if f.num > s.num {
      var p := Parent(t, f).value;
      BranchesMeet(t, p, s);
      FirstFromHigher(t, f, s, BranchesFrom(t, p, s).value);
    } else if s.num > f.num {
      var p := Parent(t, s).value;
      BranchesMeet(t, f, p);
      SecondFromHigher(t, f, s, BranchesFrom(t, f, p).value);
    } else if t[f].block.previous != t[s].block.previous {
      var pf, ps := Parent(t, f).value, Parent(t, s).value;
      BranchesMeet(t, pf, ps);
      BothFromHigher(t, f, s, BranchesFrom(t, pf, ps).value);
    }
  }

  lemma FirstFromHigher(t: Tree, f: BlockId, s: BlockId, b: Branches)
    requires ValidTree(t) && f in t && t[f].linked && f.num > s.num && Meet(t, t[f].block.previous, s, b)
    ensures Meet(t, f, s, Branches([t[f].block] + b.first, b.second))
  {
    ChainCons(t, f, b.first);
    ChainIsBelow(t, s, b.second, f.num);
    ShiftFirst(t[f].block, b);
  }

  lemma SecondFromHigher(t: Tree, f: BlockId, s: BlockId, b: Branches)
    requires ValidTree(t) && s in t && t[s].linked && s.num > f.num && Meet(t, f, t[s].block.previous, b)
    ensures Meet(t, f, s, Branches(b.first, [t[s].block] + b.second))
  {
    ChainCons(t, s, b.second);
    ChainIsBelow(t, f, b.first, s.num);
    ShiftSecond(t[s].block, b);
  }

  lemma BothFromHigher(t: Tree, f: BlockId, s: BlockId, b: Branches)
    requires ValidTree(t) && f in t && t[f].linked && s in t && t[s].linked && f.num == s.num
    requires var (pf, ps) := (t[f].block.previous, t[s].block.previous); pf != ps && Meet(t, pf, ps, b)
    ensures Meet(t, f, s, Branches([t[f].block] + b.first, [t[s].block] + b.second))
  {
    ChainCons(t, f, b.first);
    ChainCons(t, s, b.second);
    ChainIsBelow(t, t[f].block.previous, b.first, s.num);
    ChainIsBelow(t, t[s].block.previous, b.second, f.num);
    ShiftBoth(t[f].block, t[s].block, b);
  }

  lemma ShiftFirst(x: Block, b: Branches)
    requires DivergeOnlyAtEnd(b)
    requires forall j :: 0 <= j < |b.second| ==> b.second[j].id.num < x.id.num
    ensures DivergeOnlyAtEnd(Branches([x] + b.first, b.second))
  {
    var c := [x] + b.first;
    assert forall i :: 0 < i < |c| ==> c[i] == b.first[i - 1];
  }

  lemma ShiftSecond(y: Block, b: Branches)
    requires DivergeOnlyAtEnd(b)
    requires forall i :: 0 <= i < |b.first| ==> b.first[i].id.num < y.id.num
    ensures DivergeOnlyAtEnd(Branches(b.first, [y] + b.second))
  {
    var c := [y] + b.second;
    assert forall j :: 0 < j < |c| ==> c[j] == b.second[j - 1];
  }

  lemma ShiftBoth(x: Block, y: Block, b: Branches)
    requires DivergeOnlyAtEnd(b) && x.previous != y.previous && x.id.num == y.id.num
    requires forall i :: 0 <= i < |b.first| ==> b.first[i].id.num < y.id.num
    requires forall j :: 0 <= j < |b.second| ==> b.second[j].id.num < x.id.num
    ensures DivergeOnlyAtEnd(Branches([x] + b.first, [y] + b.second))
  {
    var c, d := [x] + b.first, [y] + b.second;
    assert forall i :: 0 < i < |c| ==> c[i] == b.first[i - 1];
    assert forall j :: 0 < j < |d| ==> d[j] == b.second[j - 1];
  }

  /** If the tree retains chains from both tips to blocks with one parent, the branches are found. */
  lemma {:induction false} BranchesExist(t: Tree, f: BlockId, s: BlockId, cf: seq<Block>, cs: seq<Block>)
    requires ValidTree(t) && IsChain(t, f, cf) && IsChain(t, s, cs)
    requires cf[|cf| - 1].previous == cs[|cs| - 1].previous
    ensures BranchesFrom(t, f, s).Some?
    decreases |cf| + |cs|
  {
    ChainNumbers(t, f, cf, |cf| - 1);
    ChainNumbers(t, s, cs, |cs| - 1);
    if f.num > s.num {
      assert IsChain(t, cf[1].id, cf[1..]);
      BranchesExist(t, cf[1].id, s, cf[1..], cs);
    } else if s.num > f.num {
      assert IsChain(t, cs[1].id, cs[1..]);
      BranchesExist(t, f, cs[1].id, cf, cs[1..]);
    } else if cf[0].previous != cs[0].previous {
      assert IsChain(t, cf[1].id, cf[1..]);
      assert IsChain(t, cs[1].id, cs[1..]);
      BranchesExist(t, cf[1].id, cs[1].id, cf[1..], cs[1..]);
    }
  }

  // --- Growing the tree -----------------------------------------------------------------

  /** Whether a block is accepted: recent enough, and linked to a block of the tree. */
  predicate Accepts(t: Tree, head: Option<BlockId>, maxSize: nat, b: Block) {
    head.Some? ==>
      && b.id.num > (if head.value.num > maxSize then head.value.num - maxSize else 0)
      && (b.previous != NO_BLOCK ==> b.previous in t)
  }

  /** The tree with the block in it; a block already known stays as it is. */
  function Inserted(t: Tree, head: Option<BlockId>, b: Block): Tree {
    if b.id in t then t else t[b.id := ForkItem(b, head.Some? && b.previous != NO_BLOCK)]
  }

  function TooOld(t: Tree, headNum: nat, maxSize: nat): set<BlockId> {
    set id | id in t && id.num < (if headNum > maxSize then headNum - maxSize else 0)
  }

  /** The tree after a push: a new highest block becomes head and old blocks are dropped. */
  function Pushed(t: Tree, head: Option<BlockId>, maxSize: nat, b: Block): (Tree, Option<BlockId>) {
    var t1 := Inserted(t, head, b);
    if head.None? then (t1, Some(b.id))
    else if b.id.num > head.value.num then (Erased(t1, TooOld(t1, b.id.num, maxSize)), Some(b.id))
    else (t1, head)
  }

  lemma PushedIsValid(t: Tree, head: Option<BlockId>, maxSize: nat, b: Block)
    requires ValidTree(t) && b.Valid() && (head.Some? ==> head.value in t) && Accepts(t, head, maxSize, b)
    ensures var (t', head') := Pushed(t, head, maxSize, b);
            ValidTree(t') && head'.Some? && head'.value in t'
            && (forall id :: id in t' ==> (id in t && t'[id].block == t[id].block) || (id == b.id && t'[id].block == b))
  {
    var t1 := Inserted(t, head, b);
    if head.Some? && b.id.num > head.value.num {
      ErasedIsValid(t1, TooOld(t1, b.id.num, maxSize));
    }
  }
}

module ForkDatabases {
  import opened Options
  import opened ForkTrees

  class ForkDatabase {
    var index: Tree
    var head: Option<BlockId>
    var maxSize: nat

    ghost predicate Valid()
      reads this
    {
      ValidTree(index) && (head.Some? ==> head.value in index)
    }

    constructor ()
      ensures Valid() && index == map[] && head == None && maxSize == 1024
    {
      index, head, maxSize := map[], None, 1024;
    }

    /** Starts the tree over at one block; it has no live parent. */
    method StartBlock(b: Block)
      requires Valid() && b.Valid()
      modifies this`index, this`head
      ensures Valid() && head == Some(b.id)
      ensures index == if b.id in old(index) then old(index) else old(index)[b.id := ForkItem(b, false)]
    {
      if b.id !in index {
        index := index[b.id := ForkItem(b, false)];
      }
      head := Some(b.id);
    }

    /** False stands for a thrown exception: too old, or not linkable; nothing changes then. */
    method PushBlock(b: Block) returns (ok: bool)
      requires Valid() && b.Valid()
      modifies this`index, this`head
      ensures Valid()
      ensures ok == Accepts(old(index), old(head), maxSize, b)
      ensures ok ==> (index, head) == Pushed(old(index), old(head), maxSize, b)
      ensures !ok ==> index == old(index) && head == old(head)
    {
      if head.Some? {
        if b.id.num <= (if head.value.num > maxSize then head.value.num - maxSize else 0) {
          return false;
        }
        if b.previous != NO_BLOCK && b.previous !in index {
          return false;
        }
      }
      PushedIsValid(index, head, maxSize, b);
      var linked := head.Some? && b.previous != NO_BLOCK;
      if b.id !in index {
        index := index[b.id := ForkItem(b, linked)];
      }
      if head.None? {
        head := Some(b.id);
      } else if b.id.num > head.value.num {
        head := Some(b.id);
        index := Erased(index, TooOld(index, b.id.num, maxSize));
      }
      ok := true;
    }

    /** Moves the head to its parent; false when there is none to move to. */
    method PopBlock() returns (ok: bool)
      requires Valid()
      modifies this`head
      ensures Valid()
      ensures ok == (old(head).Some? && index[old(head).value].linked)
      ensures head == if ok then Some(index[old(head).value].block.previous) else old(head)
    {
      if head.None? {
        return false;
      }
      var prev := Parent(index, head.value);
      if prev.None? {
        return false;
      }
      head := prev;
      ok := true;
    }

    /** Drops a block; its children lose their parent, and a dropped head falls back to its own. */
    method Remove(id: BlockId)
      requires Valid()
      modifies this`index, this`head
      ensures Valid() && index == Erased(old(index), {id})
      ensures old(head) != Some(id) ==> head == old(head)
      ensures old(head) == Some(id) ==>
                head == if old(index)[id].linked && old(index)[id].block.previous != id
                        then Some(old(index)[id].block.previous) else None
    {
      ErasedIsValid(index, {id});
      var parent := if id in index then Parent(index, id) else None;
      index := Erased(index, {id});
      if head == Some(id) {
        head := if parent.Some? && parent.value != id then parent else None;
      }
    }

    method SetHead(id: BlockId)
      requires Valid() && id in index
      modifies this`head
      ensures Valid() && head == Some(id)
    {
      head := Some(id);
    }

    /** Keeps only blocks within the given distance of the head. */
    method SetMaxSize(size: nat)
      requires Valid()
      modifies this`index, this`maxSize
      ensures Valid() && maxSize == size
      ensures index == if head.None? then old(index) else Erased(old(index), TooOld(old(index), head.value.num, size))
    {
      maxSize := size;
      if head.Some? {
        ErasedIsValid(index, TooOld(index, head.value.num, size));
        index := Erased(index, TooOld(index, head.value.num, size));
      }
    }

    method FetchBranchFrom(first: BlockId, second: BlockId) returns (r: Option<Branches>)
      requires Valid()
      ensures first !in index || second !in index ==> r == None
      ensures first in index && second in index ==> r == BranchesFrom(index, first, second)
    {
      if first !in index || second !in index {
        return None;
      }
      var f, s := first, second;
      var firstBranch: seq<Block>, secondBranch: seq<Block> := [], [];
      PrefixNothing(BranchesFrom(index, first, second));
      while f.num > s.num
        invariant f in index && s == second
        invariant Prefixed(firstBranch, secondBranch, BranchesFrom(index, f, s)) == BranchesFrom(index, first, second)
        decreases f.num
      {
        var prev := Parent(index, f);
        if prev.None? {
          return None;
        }
        PrefixFirst(index, f, s, firstBranch, secondBranch);
        firstBranch := firstBranch + [index[f].block];
        f := prev.value;
      }
      while s.num > f.num
        invariant f in index && s in index
        invariant Prefixed(firstBranch, secondBranch, BranchesFrom(index, f, s)) == BranchesFrom(index, first, second)
        invariant s.num >= f.num
        decreases s.num
      {
        var prev := Parent(index, s);
        if prev.None? {
          return None;
        }
        PrefixSecond(index, f, s, firstBranch, secondBranch);
        secondBranch := secondBranch + [index[s].block];
        s := prev.value;
      }
      while index[f].block.previous != index[s].block.previous
        invariant f in index && s in index && s.num == f.num
        invariant Prefixed(firstBranch, secondBranch, BranchesFrom(index, f, s)) == BranchesFrom(index, first, second)
        decreases s.num
      {
        var pf := Parent(index, f);
        if pf.None? {
          return None;
        }
        var ps := Parent(index, s);
        if ps.None? {
          return None;
        }
        PrefixBoth(index, f, s, firstBranch, secondBranch);
        firstBranch, secondBranch := firstBranch + [index[f].block], secondBranch + [index[s].block];
        f, s := pf.value, ps.value;
      }
      return Some(Branches(firstBranch + [index[f].block], secondBranch + [index[s].block]));
    }
  }

  /** Blocks collected so far, put in front of what is still to come. */
  function Prefixed(f: seq<Block>, s: seq<Block>, rest: Option<Branches>): Option<Branches> {
    if rest.None? then None else Some(Branches(f + rest.value.first, s + rest.value.second))
  }

  lemma PrefixNothing(b: Option<Branches>)
    ensures Prefixed([], [], b) == b
  {
    if b.Some? {
      assert [] + b.value.first == b.value.first && [] + b.value.second == b.value.second;
    }
  }

  lemma PrefixFirst(t: Tree, f: BlockId, s: BlockId, fs: seq<Block>, ss: seq<Block>)
    requires ValidTree(t) && f in t && s in t && f.num > s.num && t[f].linked
    ensures Prefixed(fs, ss, BranchesFrom(t, f, s))
            == Prefixed(fs + [t[f].block], ss, BranchesFrom(t, t[f].block.previous, s))
  {
    var rest := BranchesFrom(t, t[f].block.previous, s);
    if rest.Some? {
      assert fs + ([t[f].block] + rest.value.first) == fs + [t[f].block] + rest.value.first;
    }
  }

  lemma PrefixSecond(t: Tree, f: BlockId, s: BlockId, fs: seq<Block>, ss: seq<Block>)
    requires ValidTree(t) && f in t && s in t && s.num > f.num && t[s].linked
    ensures Prefixed(fs, ss, BranchesFrom(t, f, s))
            == Prefixed(fs, ss + [t[s].block], BranchesFrom(t, f, t[s].block.previous))
  {
    var rest := BranchesFrom(t, f, t[s].block.previous);
    if rest.Some? {
      assert ss + ([t[s].block] + rest.value.second) == ss + [t[s].block] + rest.value.second;
    }
  }

  lemma PrefixBoth(t: Tree, f: BlockId, s: BlockId, fs: seq<Block>, ss: seq<Block>)
    requires ValidTree(t) && f in t && s in t && s.num == f.num && t[f].linked && t[s].linked
    requires t[f].block.previous != t[s].block.previous
    ensures Prefixed(fs, ss, BranchesFrom(t, f, s))
            == Prefixed(fs + [t[f].block], ss + [t[s].block],
                        BranchesFrom(t, t[f].block.previous, t[s].block.previous))
  {
    var rest := BranchesFrom(t, t[f].block.previous, t[s].block.previous);
    if rest.Some? {
      assert fs + ([t[f].block] + rest.value.first) == fs + [t[f].block] + rest.value.first;
      assert ss + ([t[s].block] + rest.value.second) == ss + [t[s].block] + rest.value.second;
    }
  }
}
