/**
 Pushing and popping blocks: extending the chain, switching to a longer fork by popping
 and replaying, and rolling back to the old branch when a block of the new one fails.
 */
module Replays {
  import opened Options
  import opened ForkTrees

  /** Everything a block changes and the undo history restores; the head id is part of it. */
  datatype State<O> = State(headId: BlockId, objects: O)

  type Evaluator<!O> = (O, Block) -> Option<O>

  /** Applying a block: it must build on the head, and its evaluation may fail. */
  function Apply<O>(evaluate: Evaluator<O>, s: State<O>, b: Block): Option<State<O>> {
    if s.headId != b.previous then None
    else
      var objects :- evaluate(s.objects, b);
      Some(State(b.id, objects))
  }

  /** Applying a branch, which is listed newest block first, down to the block at left. */
  function Replay<O>(evaluate: Evaluator<O>, s: State<O>, branch: seq<Block>, left: nat): Option<State<O>>
    requires left <= |branch|
    decreases |branch| - left
  {
    if left == |branch| then Some(s)
    else
      var below :- Replay(evaluate, s, branch, left + 1);
      Apply(evaluate, below, branch[left])
  }

  lemma ReplayHead<O>(evaluate: Evaluator<O>, s: State<O>, branch: seq<Block>, left: nat)
    requires left < |branch| && Replay(evaluate, s, branch, left).Some?
    ensures Replay(evaluate, s, branch, left).value.headId == branch[left].id
  {
  }

  /** The states from the oldest retained one to the current, and the blocks between them. */
  ghost predicate Lineage<O>(evaluate: Evaluator<O>, line: seq<State<O>>, blocks: seq<Block>) {
    && |line| == |blocks| + 1
    && forall i :: 0 <= i < |blocks| ==> Apply(evaluate, line[i], blocks[i]) == Some(line[i + 1])
  }

  lemma LineageSuffix<O>(evaluate: Evaluator<O>, line: seq<State<O>>, blocks: seq<Block>, cut: nat)
    requires Lineage(evaluate, line, blocks) && cut <= |blocks|
    ensures Lineage(evaluate, line[cut..], blocks[cut..])
  {
  }

  lemma LineagePush<O>(evaluate: Evaluator<O>, line: seq<State<O>>, blocks: seq<Block>, b: Block, s: State<O>)
    requires Lineage(evaluate, line, blocks) && Apply(evaluate, line[|line| - 1], b) == Some(s)
    ensures Lineage(evaluate, line + [s], blocks + [b])
  {
  }

  /** Walking the line back by count states reaches the target for the first time. */
  ghost predicate StepsDown<O>(line: seq<State<O>>, target: BlockId, count: nat) {
    && (count < |line| ==> line[|line| - 1 - count].headId == target)
    && forall i :: 0 <= i < |line| && i > |line| - 1 - count ==> line[i].headId != target
  }

  /** The tree and the applied blocks agree on what an id stands for. */
  ghost predicate Agree(t: Tree, blocks: seq<Block>) {
    forall i :: 0 <= i < |blocks| && blocks[i].id in t ==> t[blocks[i].id].block == blocks[i]
  }

  /** A chain of the tree below the head is the applied blocks, read backwards. */
  lemma {:induction false} ChainIsApplied<O>(
      evaluate: Evaluator<O>, line: seq<State<O>>, blocks: seq<Block>, t: Tree, c: seq<Block>, j: nat)
    requires Lineage(evaluate, line, blocks) && Agree(t, blocks)
    requires IsChain(t, line[|line| - 1].headId, c)
    requires j < |c| && j < |blocks|
    ensures c[j] == blocks[|blocks| - 1 - j]
  {
    var n := |blocks|;
    assert Apply(evaluate, line[n - 1 - j], blocks[n - 1 - j]) == Some(line[n - j]);
    if j > 0 {
      ChainIsApplied(evaluate, line, blocks, t, c, j - 1);
      assert Apply(evaluate, line[n - j], blocks[n - j]) == Some(line[n - j + 1]);
    }
  }

  /** Heads of the retained states are the ids along a chain from the current head. */
  lemma HeadAlongChain<O>(
      evaluate: Evaluator<O>, line: seq<State<O>>, blocks: seq<Block>, t: Tree, c: seq<Block>, j: nat)
    requires Lineage(evaluate, line, blocks) && Agree(t, blocks)
    requires IsChain(t, line[|line| - 1].headId, c)
    requires j < |c| && j < |line|
    ensures line[|line| - 1 - j].headId == c[j].id
  {
    if j > 0 {
      var n := |blocks|;
      ChainIsApplied(evaluate, line, blocks, t, c, j - 1);
      assert Apply(evaluate, line[n - j], blocks[n - j]) == Some(line[n - j + 1]);
    }
  }

  /** Popping a whole branch leads to the state its oldest block was applied on. */
  lemma BranchStepsDown<O>(evaluate: Evaluator<O>, line: seq<State<O>>, blocks: seq<Block>, t: Tree, c: seq<Block>)
    requires Lineage(evaluate, line, blocks) && Agree(t, blocks)
    requires IsChain(t, line[|line| - 1].headId, c)
    ensures StepsDown(line, c[|c| - 1].previous, |c|)
  {
    var m, n := |c|, |blocks|;
    if m <= n {
      ChainIsApplied(evaluate, line, blocks, t, c, m - 1);
      assert Apply(evaluate, line[n - m], blocks[n - m]) == Some(line[n - m + 1]);
    }
    forall i | 0 <= i < |line| && i > |line| - 1 - m
      ensures line[i].headId != c[m - 1].previous
    {
      HeadAlongChain(evaluate, line, blocks, t, c, n - i);
      ChainNumbers(t, line[n].headId, c, n - i);
      ChainNumbers(t, line[n].headId, c, m - 1);
    }
  }

  lemma ErasedKeepsChain(t: Tree, gone: BlockId, tip: BlockId, c: seq<Block>)
    requires IsChain(t, tip, c) && forall y :: 0 <= y < |c| ==> c[y].id != gone
    ensures IsChain(Erased(t, {gone}), tip, c)
  {
    var t' := Erased(t, {gone});
    forall k | 0 <= k < |c| - 1
      ensures t'[c[k].id].linked
    {
      assert c[k + 1].id != gone;
    }
  }

  /** The states a partly applied branch went through, each before its next block. */
  ghost predicate Passed<O>(evaluate: Evaluator<O>, base: State<O>, branch: seq<Block>, news: seq<State<O>>) {
    && |news| <= |branch|
    && forall x :: 0 <= x < |news| ==> Some(news[x]) == Replay(evaluate, base, branch, |branch| - x)
  }

  lemma PassOne<O>(evaluate: Evaluator<O>, base: State<O>, branch: seq<Block>, news: seq<State<O>>,
                   s: State<O>, s': State<O>)
    requires Passed(evaluate, base, branch, news) && |news| < |branch|
    requires Replay(evaluate, base, branch, |branch| - |news|) == Some(s)
    requires Apply(evaluate, s, branch[|branch| - |news| - 1]) == Some(s')
    ensures Passed(evaluate, base, branch, news + [s])
    ensures Replay(evaluate, base, branch, |branch| - |news| - 1) == Some(s')
  {
  }

  lemma SuffixOfSuffix<T>(s: seq<T>, i: nat, j: nat, x: T)
    requires i + j <= |s|
    ensures s[i..][j..] == s[i + j..] && s[i + j..] + [x] == (s + [x])[i + j..]
  {
  }

  /** From wherever applying the new branch stopped, as many pops lead back to its base. */
  lemma FailedStepsDown<O>(evaluate: Evaluator<O>, below: seq<State<O>>, news: seq<State<O>>, cut: nat,
                           base: State<O>, branch: seq<Block>, s: State<O>)
    requires Passed(evaluate, base, branch, news) && cut <= |below + news|
    requires Replay(evaluate, base, branch, |branch| - |news|) == Some(s)
    requires forall k :: 0 <= k < |branch| ==> branch[k].id.num > base.headId.num
    ensures var line := (below + news)[cut..] + [s];
            && StepsDown(line, base.headId, |news|)
            && (|news| < |line| ==> line[|line| - 1 - |news|] == base)
  {
    var undo := (below + news)[cut..];
    var line, k := undo + [s], |news|;
    forall i | 0 <= i < |line| && i > |line| - 1 - k
      ensures line[i].headId != base.headId
    {
      var x := i + cut - |below|;
      if i < |undo| {
        assert line[i] == news[x];
      }
      ReplayHead(evaluate, base, branch, |branch| - x);
    }
    if 0 < k < |line| {
      assert line[|line| - 1 - k] == news[0];
    }
  }

  lemma {:induction false} ChainUnique(t: Tree, tip: BlockId, c: seq<Block>, d: seq<Block>, k: nat)
    requires IsChain(t, tip, c) && IsChain(t, tip, d) && k < |c| && k < |d|
    ensures c[k] == d[k]
  {
    if k > 0 {
      ChainUnique(t, tip, c, d, k - 1);
    }
  }

  /** A failed prefix of a branch fails the branch. */
  lemma {:induction false} ReplayFails<O>(evaluate: Evaluator<O>, s: State<O>, branch: seq<Block>, left: nat)
    requires left <= |branch| && Replay(evaluate, s, branch, left).None?
    ensures Replay(evaluate, s, branch, 0).None?
    decreases left
  {
    if left > 0 {
      ReplayFails(evaluate, s, branch, left - 1);
    }
  }

  /** What a switch works with: two branches of one tree and the states along the old one. */
  ghost predicate SwitchSetup<O>(evaluate: Evaluator<O>, t: Tree, line: seq<State<O>>, blocks: seq<Block>,
                                 newHead: BlockId, b: Branches) {
    && ValidTree(t) && Lineage(evaluate, line, blocks) && Agree(t, blocks)
    && newHead in t && line[|line| - 1].headId in t
    && BranchesFrom(t, newHead, line[|line| - 1].headId) == Some(b)
    && newHead.num > line[|line| - 1].headId.num
  }

  lemma SwitchFacts<O>(evaluate: Evaluator<O>, t: Tree, line: seq<State<O>>, blocks: seq<Block>,
                       newHead: BlockId, b: Branches)
    requires SwitchSetup(evaluate, t, line, blocks, newHead, b)
    ensures IsChain(t, newHead, b.first) && IsChain(t, line[|line| - 1].headId, b.second)
    ensures |b.first| > |b.second|
    ensures b.first[|b.first| - 1].previous == b.second[|b.second| - 1].previous
    ensures StepsDown(line, b.second[|b.second| - 1].previous, |b.second|)
  {
    var head := line[|line| - 1].headId;
    BranchesMeet(t, newHead, head);
    ChainNumbers(t, newHead, b.first, |b.first| - 1);
    ChainNumbers(t, head, b.second, |b.second| - 1);
    BranchStepsDown(evaluate, line, blocks, t, b.second);
  }

  /** The blocks dropped after a failure are never ancestors of the old head. */
  lemma DroppedAreNotAncestors<O>(evaluate: Evaluator<O>, t: Tree, line: seq<State<O>>, blocks: seq<Block>,
                                  newHead: BlockId, b: Branches, anc: seq<Block>, x: nat, y: nat)
    requires SwitchSetup(evaluate, t, line, blocks, newHead, b) && |b.second| <= |blocks|
    requires IsChain(t, line[|line| - 1].headId, anc)
    requires x < |b.first| && y < |anc|
    requires x == |b.first| - 1 ==> Apply(evaluate, line[|blocks| - |b.second|], b.first[x]).None?
    ensures b.first[x].id != anc[y].id
  {
    var n, m, head := |b.first|, |b.second|, line[|line| - 1].headId;
    SwitchFacts(evaluate, t, line, blocks, newHead, b);
    BranchesMeet(t, newHead, head);
    ChainNumbers(t, newHead, b.first, x);
    ChainNumbers(t, newHead, b.first, n - 1);
    ChainNumbers(t, head, b.second, m - 1);
    ChainNumbers(t, head, anc, y);
    if x + m == y + n {
      ChainUnique(t, head, anc, b.second, y);
      if y == m - 1 {
        ChainIsApplied(evaluate, line, blocks, t, b.second, y);
        assert Apply(evaluate, line[|blocks| - m], blocks[|blocks| - m]) == Some(line[|blocks| - m + 1]);
      } else {
        assert b.first[x].previous != b.second[y].previous;
      }
    }
  }

  datatype Outcome = Extended | Switched | Kept | Rejected | Broken

  /** What pushing a block should come to, given enough history: an outcome and a state. */
  function Expected<O>(evaluate: Evaluator<O>, t: Tree, head: Option<BlockId>, maxSize: nat,
                       undo: seq<State<O>>, s: State<O>, b: Block): (r: (Outcome, State<O>))
    requires ValidTree(t) && b.Valid() && (head.Some? ==> head.value in t)
  {
    if !Accepts(t, head, maxSize, b) then (Rejected, s)
    else
      PushedIsValid(t, head, maxSize, b);
      var (t', head') := Pushed(t, head, maxSize, b);
      if t'[head'.value].block.previous == s.headId then
        var r := Apply(evaluate, s, b);
        if r.Some? then (Extended, r.value) else (Rejected, s)
      else if head'.value.num <= s.headId.num then (Kept, s)
      else ExpectedSwitch(evaluate, t', head'.value, undo, s)
  }

  /** What switching to a higher head should come to. */
  function ExpectedSwitch<O>(evaluate: Evaluator<O>, t: Tree, newHead: BlockId, undo: seq<State<O>>, s: State<O>):
      (r: (Outcome, State<O>))
    requires ValidTree(t) && newHead in t
  {
    var branches := if s.headId in t then BranchesFrom(t, newHead, s.headId) else None;
    if branches.None? then (Rejected, s)
    else ExpectedReplay(evaluate, branches.value, undo, s)
  }

  function ExpectedReplay<O>(evaluate: Evaluator<O>, b: Branches, undo: seq<State<O>>, s: State<O>): (Outcome, State<O>) {
    if b.second == [] || |b.second| > |undo| then (Broken, s)
    else
      var r := Replay(evaluate, undo[|undo| - |b.second|], b.first, 0);
      if r.Some? then (Switched, r.value) else (Rejected, s)
  }

  /** A completed switch ends on the new head, every other outcome of a switch leaves the state. */
  lemma SwitchAllOrNothing<O>(evaluate: Evaluator<O>, t: Tree, newHead: BlockId, undo: seq<State<O>>, s: State<O>)
    requires ValidTree(t) && newHead in t
    ensures var (outcome, s') := ExpectedSwitch(evaluate, t, newHead, undo, s);
            if outcome == Switched then s'.headId == newHead else s' == s && (outcome == Rejected || outcome == Broken)
  {
    if s.headId in t && BranchesFrom(t, newHead, s.headId).Some? {
      var b := BranchesFrom(t, newHead, s.headId).value;
      BranchesMeet(t, newHead, s.headId);
      if |b.second| <= |undo| && Replay(evaluate, undo[|undo| - |b.second|], b.first, 0).Some? {
        ReplayHead(evaluate, undo[|undo| - |b.second|], b.first, 0);
      }
    }
  }

  /** All or nothing: unless a new chain is fully applied, the state is the one before. */
  lemma AllOrNothing<O>(evaluate: Evaluator<O>, t: Tree, head: Option<BlockId>, maxSize: nat,
                        undo: seq<State<O>>, s: State<O>, b: Block)
    requires ValidTree(t) && b.Valid() && (head.Some? ==> head.value in t)
    ensures var (outcome, s') := Expected(evaluate, t, head, maxSize, undo, s, b);
            match outcome
            case Extended => s'.headId == b.id && b.previous == s.headId
            case Switched => s'.headId.num > s.headId.num
            case _ => s' == s
  {
    if Accepts(t, head, maxSize, b) {
      PushedIsValid(t, head, maxSize, b);
      var (t', head') := Pushed(t, head, maxSize, b);
      SwitchAllOrNothing(evaluate, t', head'.value, undo, s);
    }
  }

  /** The state is the replay of one branch on the retained state where both branches meet. */
  ghost predicate SwitchedTo<O>(evaluate: Evaluator<O>, t: Tree, newHead: BlockId, undo: seq<State<O>>,
                                s: State<O>, s': State<O>, b: Branches) {
    && IsChain(t, newHead, b.first) && IsChain(t, s.headId, b.second) && |b.second| <= |undo|
    && var base := undo[|undo| - |b.second|];
       && base.headId == b.first[|b.first| - 1].previous == b.second[|b.second| - 1].previous
       && Replay(evaluate, base, b.first, 0) == Some(s')
  }

  /** A completed switch is a replay of the whole new branch from the branches' common ancestor. */
  lemma SwitchIsReplay<O>(evaluate: Evaluator<O>, t: Tree, newHead: BlockId, undo: seq<State<O>>, s: State<O>,
                          blocks: seq<Block>)
    requires ValidTree(t) && newHead in t
    requires Lineage(evaluate, undo + [s], blocks) && Agree(t, blocks)
    requires ExpectedSwitch(evaluate, t, newHead, undo, s).0 == Switched
    ensures exists b :: SwitchedTo(evaluate, t, newHead, undo, s, ExpectedSwitch(evaluate, t, newHead, undo, s).1, b)
  {
    var b := BranchesFrom(t, newHead, s.headId).value;
    BranchesMeet(t, newHead, s.headId);
    assert (undo + [s])[|undo|] == s;
    BranchStepsDown(evaluate, undo + [s], blocks, t, b.second);
    assert SwitchedTo(evaluate, t, newHead, undo, s, ExpectedSwitch(evaluate, t, newHead, undo, s).1, b);
  }

  /** The same for a pushed block that makes another branch the longer one. */
  lemma PushIsReplay<O>(evaluate: Evaluator<O>, t: Tree, head: Option<BlockId>, maxSize: nat,
                        undo: seq<State<O>>, s: State<O>, b: Block, blocks: seq<Block>)
    requires ValidTree(t) && b.Valid() && (head.Some? ==> head.value in t)
    requires Lineage(evaluate, undo + [s], blocks) && Agree(t, blocks)
    requires forall i :: 0 <= i < |blocks| && blocks[i].id == b.id ==> blocks[i] == b
    requires Expected(evaluate, t, head, maxSize, undo, s, b).0 == Switched
    ensures Accepts(t, head, maxSize, b)
    ensures var (t', head') := Pushed(t, head, maxSize, b);
            && head'.Some? && head'.value.num > s.headId.num
            && exists branches ::
                 SwitchedTo(evaluate, t', head'.value, undo, s,
                            Expected(evaluate, t, head, maxSize, undo, s, b).1, branches)
  {
    PushedIsValid(t, head, maxSize, b);
    var (t', head') := Pushed(t, head, maxSize, b);
    SwitchIsReplay(evaluate, t', head'.value, undo, s, blocks);
  }

  /**
   Enough is retained for a switch that may have to be taken back: an undo state for every
   block to pop, on either branch, and as many live ancestors below the old head.
   */
  ghost predicate Enough<O>(t: Tree, undo: seq<State<O>>, maxUndo: nat, headId: BlockId, b: Branches) {
    && |b.second| <= |undo|
    && |b.first| <= maxUndo + 1
    && exists c :: IsChain(t, headId, c) && |c| >= |b.first|
  }

  ghost predicate EnoughToSwitch<O>(t: Tree, newHead: BlockId, undo: seq<State<O>>, maxUndo: nat, s: State<O>)
    requires ValidTree(t) && newHead in t
  {
    s.headId in t && BranchesFrom(t, newHead, s.headId).Some? ==>
      Enough(t, undo, maxUndo, s.headId, BranchesFrom(t, newHead, s.headId).value)
  }

  /** Enough is retained for whatever switch a pushed block may cause. */
  ghost predicate EnoughFor<O>(t: Tree, head: Option<BlockId>, maxSize: nat, undo: seq<State<O>>, maxUndo: nat,
                               s: State<O>, b: Block)
    requires ValidTree(t) && b.Valid() && (head.Some? ==> head.value in t)
  {
    if !Accepts(t, head, maxSize, b) then true
    else
      PushedIsValid(t, head, maxSize, b);
      var (t', head') := Pushed(t, head, maxSize, b);
      EnoughToSwitch(t', head'.value, undo, maxUndo, s)
  }
}

module BlockChains {
  import opened Options
  import opened ForkTrees
  import opened ForkDatabases
  import opened Replays

  class Database<O(==,!new)> {
    const evaluate: Evaluator<O>
    const fork: ForkDatabase
    const maxUndo: nat
    var state: State<O>
    var undo: seq<State<O>>
    var stored: set<BlockId>
    ghost var applied: seq<Block>

    ghost predicate Valid()
      reads this, fork
    {
      && fork.Valid()
      && Lineage(evaluate, undo + [state], applied)
      && Agree(fork.index, applied)
      && (forall i :: 0 <= i < |applied| ==> applied[i].id in stored)
    }

    constructor (evaluate: Evaluator<O>, fork: ForkDatabase, start: State<O>, maxUndo: nat)
      requires fork.Valid()
      ensures Valid() && state == start && undo == [] && this.fork == fork
      ensures this.evaluate == evaluate && this.maxUndo == maxUndo
    {
      this.evaluate, this.fork, this.maxUndo := evaluate, fork, maxUndo;
      state, undo, stored, applied := start, [], {}, [];
    }

    /**
     Takes the newest block back. The fork database's head moves down as well, whichever
     branch it is on. False stands for a thrown exception.
     */
    method PopBlock() returns (ok: bool)
      requires Valid()
      modifies this`state, this`undo, this`applied, fork`head
      ensures Valid() && fork.index == old(fork.index)
      ensures ok == (&& old(undo) != []
                     && old(fork.head).Some? && fork.index[old(fork.head).value].linked)
      ensures ok ==>
                var n := |old(undo)| - 1;
                && state == old(undo)[n] && undo == old(undo)[..n] && applied == old(applied)[..n]
                && fork.head == Some(fork.index[old(fork.head).value].block.previous)
    {
      if state.headId !in fork.index && state.headId !in stored {
        HeadIsStored();
        return false;
      }
      ok := fork.PopBlock();
      if !ok {
        return;
      }
      if undo == [] {
        return false;
      }
      var n := |undo| - 1;
      LineagePrefix();
      state, undo, applied := undo[n], undo[..n], applied[..n];
    }

    lemma HeadIsStored()
      requires Valid()
      ensures undo != [] ==> state.headId in stored
    {
      if undo != [] {
        var n := |undo| - 1;
        assert (undo + [state])[n + 1] == state;
        assert Apply(evaluate, (undo + [state])[n], applied[n]) == Some(state);
      }
    }

    lemma LineagePrefix()
      requires Valid() && undo != []
      ensures var n := |undo| - 1;
              undo[..n] + [undo[n]] == undo && Lineage(evaluate, undo[..n] + [undo[n]], applied[..n])
    {
      var n := |undo| - 1;
      assert undo[..n] + [undo[n]] == undo;
      forall i | 0 <= i < n
        ensures Apply(evaluate, undo[i], applied[..n][i]) == Some(undo[i + 1])
      {
        assert (undo + [state])[i] == undo[i] && (undo + [state])[i + 1] == undo[i + 1];
      }
    }

    function Cut(): nat
      reads this`undo
    {
      if |undo| > maxUndo then |undo| - maxUndo else 0
    }

    /** Applies a block inside an undo session that is committed, or undone when applying throws. */
    method ApplyInSession(b: Block) returns (ok: bool)
      requires Valid() && (b.id in fork.index ==> fork.index[b.id].block == b)
      modifies this`state, this`undo, this`applied, this`stored
      ensures Valid()
      ensures ok == Apply(evaluate, old(state), b).Some?
      ensures ok ==>
                && Some(state) == Apply(evaluate, old(state), b)
                && undo == old(undo)[old(Cut())..] + [old(state)] && applied == old(applied)[old(Cut())..] + [b]
      ensures !ok ==>
                state == old(state) && undo == old(undo)[old(Cut())..] && applied == old(applied)[old(Cut())..]
    {
      var cut := Cut();
      LineageSuffix(evaluate, undo + [state], applied, cut);
      assert (undo + [state])[cut..] == undo[cut..] + [state];
      undo, applied := undo[cut..], applied[cut..];
      if state.headId != b.previous {
        return false;
      }
      var objects := evaluate(state.objects, b);
      if objects.None? {
        return false;
      }
      var next := State(b.id, objects.value);
      LineagePush(evaluate, undo + [state], applied, b, next);
      undo, applied, state := undo + [state], applied + [b], next;
      stored := stored + {b.id};
      ok := true;
    }

    /** Pops down to a given head id; false when the history or the links run out. */
    method PopTo(target: BlockId, ghost count: nat, ghost links: seq<Block>) returns (ok: bool)
      requires Valid() && StepsDown(undo + [state], target, count)
      requires fork.head.Some? && IsChain(fork.index, fork.head.value, links)
      modifies this`state, this`undo, this`applied, fork`head
      ensures Valid() && fork.index == old(fork.index)
      ensures ok ==>
                && count <= |old(undo)| && undo == old(undo)[..|old(undo)| - count]
                && state == (old(undo) + [old(state)])[|old(undo)| - count]
                && applied == old(applied)[..|old(undo)| - count]
      ensures ok && count < |links| ==> fork.head == Some(links[count].id)
      ensures !ok ==> count > |old(undo)| || count >= |links|
    {
      ghost var j := 0;
      ghost var line := undo + [state];
      ghost var n := |undo|;
      while state.headId != target
        invariant Valid() && fork.index == old(fork.index)
        invariant j <= count && j <= n
        invariant undo == line[..n - j] && state == line[n - j] && applied == old(applied)[..n - j]
        invariant fork.head.Some? && (j < |links| ==> fork.head == Some(links[j].id))
        decreases |undo|
      {
        ok := PopBlock();
        if !ok {
          return;
        }
        j := j + 1;
        assert line[..n - j + 1][..n - j] == line[..n - j];
        assert old(applied)[..n - j + 1][..n - j] == old(applied)[..n - j];
      }
      ok := true;
      assert j == count;
      assert line[..n - j] == old(undo)[..n - j];
    }

    /** Applies a branch, oldest block first; left is the number of blocks not applied. */
    method ApplyBranch(branch: seq<Block>) returns (left: nat, ghost news: seq<State<O>>, ghost cut: nat)
      requires Valid()
      requires forall k :: 0 <= k < |branch| ==>
                 branch[k].id in fork.index && fork.index[branch[k].id].block == branch[k]
      modifies this`state, this`undo, this`applied, this`stored
      ensures Valid() && left == |branch| - |news|
      ensures Passed(evaluate, old(state), branch, news)
      ensures Replay(evaluate, old(state), branch, left) == Some(state)
      ensures left > 0 ==> Replay(evaluate, old(state), branch, left - 1).None?
      ensures cut <= |old(undo) + news| && undo == (old(undo) + news)[cut..]
      ensures |undo| >= |news| || |undo| >= maxUndo
    {
      left, news, cut := |branch|, [], 0;
      while left > 0
        invariant Valid() && left == |branch| - |news|
        invariant Passed(evaluate, old(state), branch, news)
        invariant Replay(evaluate, old(state), branch, left) == Some(state)
        invariant cut <= |old(undo) + news| && undo == (old(undo) + news)[cut..]
        invariant |undo| >= |news| || |undo| >= maxUndo + 1
        decreases left
      {
        ghost var before, trimmed, full := state, Cut(), old(undo) + news;
        var ok := ApplyInSession(branch[left - 1]);
        SuffixOfSuffix(full, cut, trimmed, before);
        cut := cut + trimmed;
        if !ok {
          return;
        }
        PassOne(evaluate, old(state), branch, news, before, state);
        assert full + [before] == old(undo) + (news + [before]);
        news, left := news + [before], left - 1;
      }
    }

    /** Removes the newest blocks of a branch from the fork database, oldest of them first. */
    method DropBlocks(branch: seq<Block>, count: nat, ghost tip: BlockId, ghost anc: seq<Block>)
      requires Valid() && count <= |branch|
      requires IsChain(fork.index, tip, anc)
      requires forall x, y :: 0 <= x < count && 0 <= y < |anc| ==> branch[x].id != anc[y].id
      modifies fork`index, fork`head
      ensures Valid() && IsChain(fork.index, tip, anc)
      ensures forall id :: id in fork.index ==> id in old(fork.index) && fork.index[id].block == old(fork.index)[id].block
    {
      var left: nat := count;
      while left > 0
        invariant left <= count && Valid() && IsChain(fork.index, tip, anc)
        invariant forall id :: id in fork.index ==>
                    id in old(fork.index) && fork.index[id].block == old(fork.index)[id].block
      {
        left := left - 1;
        ErasedKeepsChain(fork.index, branch[left].id, tip, anc);
        fork.Remove(branch[left].id);
      }
    }

    /** Applies the old branch again; every block succeeds as it did before. */
    method Restore(branch: seq<Block>, ghost line: seq<State<O>>, ghost blocks: seq<Block>)
      requires Valid() && Lineage(evaluate, line, blocks) && |branch| <= |blocks|
      requires state == line[|blocks| - |branch|]
      requires forall j :: 0 <= j < |branch| ==> branch[j] == blocks[|blocks| - 1 - j]
      requires forall j :: 0 <= j < |branch| ==>
                 branch[j].id in fork.index ==> fork.index[branch[j].id].block == branch[j]
      modifies this`state, this`undo, this`applied, this`stored
      ensures Valid() && state == line[|blocks|]
    {
      var left: nat := |branch|;
      while left > 0
        invariant left <= |branch| && Valid() && state == line[|blocks| - left]
      {
        left := left - 1;
        assert Apply(evaluate, line[|blocks| - 1 - left], blocks[|blocks| - 1 - left]) == Some(line[|blocks| - left]);
        var ok := ApplyInSession(branch[left]);
      }
    }

    /** Pops the old branch and applies the new one; a failing block brings the old branch back. */
    method SwitchFork(newHead: BlockId, b: Branches) returns (r: Outcome)
      requires Valid() && fork.head == Some(newHead)
      requires SwitchSetup(evaluate, fork.index, undo + [state], applied, newHead, b)
      modifies this`state, this`undo, this`applied, this`stored, fork`index, fork`head
      ensures r == Broken ==> !Enough(old(fork.index), old(undo), maxUndo, old(state).headId, b)
      ensures r != Broken ==>
                && Valid() && |b.second| <= |old(undo)|
                && var replayed := Replay(evaluate, old(undo)[|old(undo)| - |b.second|], b.first, 0);
                   if replayed.Some? then r == Switched && state == replayed.value
                   else r == Rejected && state == old(state)
    {
      ghost var line := undo + [state];
      SwitchFacts(evaluate, fork.index, line, applied, newHead, b);
      assert line[..|applied|] == undo && line[|applied|] == state;
      var ok := PopTo(b.second[|b.second| - 1].previous, |b.second|, b.first);
      if !ok {
        return Broken;
      }
      r := ApplyOrRollBack(newHead, b, line, old(applied));
    }

    /** With the old branch popped, applies the new one or brings the old one back. */
    method ApplyOrRollBack(newHead: BlockId, b: Branches, ghost line: seq<State<O>>, ghost blocks: seq<Block>)
      returns (r: Outcome)
      requires Valid() && SwitchSetup(evaluate, fork.index, line, blocks, newHead, b)
      requires |b.second| <= |blocks| && state == line[|blocks| - |b.second|]
      modifies this`state, this`undo, this`applied, this`stored, fork`index, fork`head
      ensures r == Broken ==> !Enough(old(fork.index), line[..|blocks|], maxUndo, line[|blocks|].headId, b)
      ensures r != Broken ==>
                && Valid()
                && var replayed := Replay(evaluate, old(state), b.first, 0);
                   if replayed.Some? then r == Switched && state == replayed.value
                   else r == Rejected && state == line[|blocks|]
    {
      SwitchFacts(evaluate, fork.index, line, blocks, newHead, b);
      var left;
      ghost var news, cut;
      left, news, cut := ApplyBranch(b.first);
      if left == 0 {
        return Switched;
      }
      ReplayFails(evaluate, old(state), b.first, left - 1);
      r := RollBack(newHead, b, left, line, blocks, old(undo), news, cut, old(state));
    }

    method RollBack(newHead: BlockId, b: Branches, left: nat, ghost line: seq<State<O>>, ghost blocks: seq<Block>,
                    ghost below: seq<State<O>>, ghost news: seq<State<O>>, ghost cut: nat, ghost base: State<O>)
      returns (r: Outcome)
      requires Valid() && SwitchSetup(evaluate, fork.index, line, blocks, newHead, b)
      requires |b.second| <= |blocks| && line[|blocks| - |b.second|] == base
      requires 0 < left == |b.first| - |news| && Passed(evaluate, base, b.first, news)
      requires Replay(evaluate, base, b.first, left) == Some(state)
      requires Replay(evaluate, base, b.first, left - 1).None?
      requires cut <= |below + news| && undo == (below + news)[cut..]
      requires |undo| >= |news| || |undo| >= maxUndo
      modifies this`state, this`undo, this`applied, this`stored, fork`index, fork`head
      ensures r == Rejected || r == Broken
      ensures r == Broken ==> !Enough(old(fork.index), line[..|blocks|], maxUndo, line[|blocks|].headId, b)
      ensures r == Rejected ==> Valid() && state == line[|blocks|]
    {
      ghost var enough := Enough(fork.index, line[..|blocks|], maxUndo, line[|blocks|].headId, b);
      SwitchFacts(evaluate, fork.index, line, blocks, newHead, b);
      BaseIsBelow(fork.index, newHead, b.first, base);
      ghost var anc := DropFailed(newHead, b, left, line, blocks, base);
      assert enough ==> |news| < |anc| && |news| <= |undo|;
      var ok := PopFailed(b.second[|b.second| - 1].previous, b.first, base, below, news, cut, anc);
      if !ok {
        return Broken;
      }
      Restore(b.second, line, blocks);
      return Rejected;
    }

    /** Pops the blocks of the new branch that were applied; false when the history or the links run out. */
    method PopFailed(target: BlockId, ghost branch: seq<Block>, ghost base: State<O>, ghost below: seq<State<O>>,
                     ghost news: seq<State<O>>, ghost cut: nat, ghost anc: seq<Block>)
      returns (ok: bool)
      requires Valid() && target == base.headId && Passed(evaluate, base, branch, news)
      requires Replay(evaluate, base, branch, |branch| - |news|) == Some(state)
      requires forall k :: 0 <= k < |branch| ==> branch[k].id.num > base.headId.num
      requires cut <= |below + news| && undo == (below + news)[cut..]
      requires fork.head.Some? && IsChain(fork.index, fork.head.value, anc)
      modifies this`state, this`undo, this`applied, fork`head
      ensures Valid() && fork.index == old(fork.index)
      ensures if ok then state == base else |news| > |old(undo)| || |news| >= |anc|
    {
      FailedStepsDown(evaluate, below, news, cut, base, branch, state);
      ok := PopTo(target, |news|, anc);
    }

    /** Drops the failed rest of the new branch and makes the old head the fork database's head. */
    method DropFailed(newHead: BlockId, b: Branches, left: nat, ghost line: seq<State<O>>, ghost blocks: seq<Block>,
                      ghost base: State<O>)
      returns (ghost anc: seq<Block>)
      requires Valid() && SwitchSetup(evaluate, fork.index, line, blocks, newHead, b)
      requires |b.second| <= |blocks| && line[|blocks| - |b.second|] == base
      requires 0 < left <= |b.first| && Replay(evaluate, base, b.first, left - 1).None?
      modifies fork`index, fork`head
      ensures Valid() && fork.head == Some(line[|blocks|].headId)
      ensures IsChain(fork.index, line[|blocks|].headId, anc)
      ensures Enough(old(fork.index), line[..|blocks|], maxUndo, line[|blocks|].headId, b) ==> |anc| >= |b.first|
      ensures forall j :: 0 <= j < |b.second| ==> b.second[j] == blocks[|blocks| - 1 - j]
      ensures forall j :: 0 <= j < |b.second| ==>
                b.second[j].id in fork.index ==> fork.index[b.second[j].id].block == b.second[j]
    {
      ghost var tree, tip := fork.index, line[|blocks|].headId;
      SwitchFacts(evaluate, tree, line, blocks, newHead, b);
      anc := b.second;
      if Enough(tree, line[..|blocks|], maxUndo, tip, b) {
        anc :| IsChain(tree, tip, anc) && |anc| >= |b.first|;
      }
      forall j | 0 <= j < |b.second|
        ensures b.second[j] == blocks[|blocks| - 1 - j]
      {
        ChainIsApplied(evaluate, line, blocks, tree, b.second, j);
      }
      NothingOldIsDropped(newHead, b, left, line, blocks, base, anc);
      DropBlocks(b.first, left, tip, anc);
      fork.SetHead(b.second[0].id);
    }

    lemma NothingOldIsDropped(newHead: BlockId, b: Branches, left: nat, line: seq<State<O>>, blocks: seq<Block>,
                              base: State<O>, anc: seq<Block>)
      requires SwitchSetup(evaluate, fork.index, line, blocks, newHead, b)
      requires |b.second| <= |blocks| && line[|blocks| - |b.second|] == base
      requires 0 < left <= |b.first| && Replay(evaluate, base, b.first, left - 1).None?
      requires IsChain(fork.index, line[|blocks|].headId, anc)
      ensures forall x, y :: 0 <= x < left && 0 <= y < |anc| ==> b.first[x].id != anc[y].id
    {
      forall x, y | 0 <= x < left && 0 <= y < |anc|
        ensures b.first[x].id != anc[y].id
      {
        if x == |b.first| - 1 {
          assert Replay(evaluate, base, b.first, x + 1) == Some(base);
        }
        DroppedAreNotAncestors(evaluate, fork.index, line, blocks, newHead, b, anc, x, y);
      }
    }

    lemma BaseIsBelow(tree: Tree, newHead: BlockId, branch: seq<Block>, base: State<O>)
      requires IsChain(tree, newHead, branch) && branch[|branch| - 1].previous == base.headId
      ensures forall k :: 0 <= k < |branch| ==> branch[k].id.num > base.headId.num
    {
      ChainNumbers(tree, newHead, branch, |branch| - 1);
      forall k | 0 <= k < |branch|
        ensures branch[k].id.num > base.headId.num
      {
        ChainNumbers(tree, newHead, branch, k);
      }
    }

    /** Pushes a block; Rejected and Broken stand for a thrown exception. */
    method PushBlock(b: Block) returns (r: Outcome)
      requires Valid() && b.Valid()
      requires forall i :: 0 <= i < |applied| && applied[i].id == b.id ==> applied[i] == b
      requires b.id in fork.index ==> fork.index[b.id].block == b
      modifies this`state, this`undo, this`applied, this`stored, fork`index, fork`head
      ensures r == Broken ==> !EnoughFor(old(fork.index), old(fork.head), fork.maxSize, old(undo), maxUndo, old(state), b)
      ensures r != Broken ==>
                && Valid()
                && (r, state) == Expected(evaluate, old(fork.index), old(fork.head), fork.maxSize, old(undo), old(state), b)
    {
      var accepted := fork.PushBlock(b);
      if !accepted {
        return Rejected;
      }
      PushedIsValid(old(fork.index), old(fork.head), fork.maxSize, b);
      var newHead := fork.head.value;
      if fork.index[newHead].block.previous == state.headId {
        r := Extend(b);
      } else if newHead.num <= state.headId.num {
        r := Kept;
      } else {
        r := SwitchTo(newHead);
      }
    }

    /** Applies a block on the head; a block that fails is dropped from the fork database. */
    method Extend(b: Block) returns (r: Outcome)
      requires Valid() && (b.id in fork.index ==> fork.index[b.id].block == b)
      modifies this`state, this`undo, this`applied, this`stored, fork`index, fork`head
      ensures Valid()
      ensures var applied := Apply(evaluate, old(state), b);
              if applied.Some? then r == Extended && state == applied.value
              else r == Rejected && state == old(state)
    {
      var ok := ApplyInSession(b);
      if ok {
        return Extended;
      }
      fork.Remove(b.id);
      return Rejected;
    }

    method SwitchTo(newHead: BlockId) returns (r: Outcome)
      requires Valid() && fork.head == Some(newHead) && newHead.num > state.headId.num
      modifies this`state, this`undo, this`applied, this`stored, fork`index, fork`head
      ensures r == Broken ==> !EnoughToSwitch(old(fork.index), newHead, old(undo), maxUndo, old(state))
      ensures r != Broken ==>
                Valid() && (r, state) == ExpectedSwitch(evaluate, old(fork.index), newHead, old(undo), old(state))
    {
      var branches := fork.FetchBranchFrom(newHead, state.headId);
      if branches.None? {
        return Rejected;
      }
      assert (undo + [state])[|undo|] == state;
      r := SwitchFork(newHead, branches.value);
    }
  }
}
