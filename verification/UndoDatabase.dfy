/**
 Multi-level rollback of the object database. A session records a diff: the first value
 each object had, the ids it created, the objects it removed, and the next free ids.
 The class keeps a stack of such diffs; what it means is a stack of full snapshots.
 */
module UndoStates {
  import opened Options

  /** An object lives in an index (its space and type) under an instance number. */
  datatype ObjectId = ObjectId(index: nat, instance: nat)

  /** All indices of the database: their objects and their next free instance numbers. */
  datatype Store<V> = Store(objects: map<ObjectId, V>, nextIds: map<nat, nat>) {

    /** Instance numbers are handed out in order, so every object lies below its index's next id. */
    ghost predicate Valid() {
      forall id :: id in objects ==> id.index in nextIds && id.instance < nextIds[id.index]
    }
  }

  datatype UndoState<V> = UndoState(
    oldValues: map<ObjectId, V>,
    oldNextIds: map<nat, nat>,
    newIds: set<ObjectId>,
    removed: map<ObjectId, V>)

  function EmptyState<V>(): UndoState<V> {
    UndoState(map[], map[], {}, map[])
  }

  /** The store as it was when recording began. */
  function Undo<V>(u: UndoState<V>, s: Store<V>): Store<V> {
    Store((s.objects + u.oldValues) - u.newIds + u.removed, s.nextIds + u.oldNextIds)
  }

  function Lookup<V>(objects: map<ObjectId, V>, id: ObjectId): Option<V> {
    if id in objects then Some(objects[id]) else None
  }

  /** One object as it was when recording began. */
  function Before<V>(u: UndoState<V>, s: Store<V>, id: ObjectId): Option<V> {
    if id in u.removed then Some(u.removed[id])
    else if id in u.newIds then None
    else if id in u.oldValues then Some(u.oldValues[id])
    else Lookup(s.objects, id)
  }

  function NextBefore<V>(u: UndoState<V>, s: Store<V>, i: nat): nat
    requires i in s.nextIds
  {
    if i in u.oldNextIds then u.oldNextIds[i] else s.nextIds[i]
  }

  lemma UndoAt<V>(u: UndoState<V>, s: Store<V>, id: ObjectId)
    ensures Lookup(Undo(u, s).objects, id) == Before(u, s, id)
  {
  }

  lemma SameStore<V>(s: Store<V>, t: Store<V>)
    requires forall id :: Lookup(s.objects, id) == Lookup(t.objects, id)
    requires s.nextIds == t.nextIds
    ensures s == t
  {
    assert forall id :: id in s.objects <==> Lookup(s.objects, id).Some?;
    assert forall id :: id in t.objects <==> Lookup(t.objects, id).Some?;
    assert forall id :: id in s.objects ==> s.objects[id] == Lookup(s.objects, id).value == t.objects[id];
    assert s.objects == t.objects;
  }

  /** A diff that fits the store it was recorded on: each object plays one role at most. */
  ghost predicate Fits<V>(u: UndoState<V>, s: Store<V>) {
    (forall i :: FitsIndex(u, s, i)) && (forall id :: FitsAt(u, s, id))
  }

  ghost predicate FitsIndex<V>(u: UndoState<V>, s: Store<V>, i: nat) {
    i in u.oldNextIds ==> i in s.nextIds && u.oldNextIds[i] <= s.nextIds[i]
  }

  ghost predicate FitsAt<V>(u: UndoState<V>, s: Store<V>, id: ObjectId) {
    && (id in s.objects || id in u.removed ==> id.index in s.nextIds && id.instance < s.nextIds[id.index])
    && (id in u.oldValues ==> id in s.objects && id !in u.newIds && id !in u.removed)
    && (id in u.newIds ==>
        && id in s.objects && id !in u.removed
        && id.index in u.oldNextIds && u.oldNextIds[id.index] <= id.instance)
    && (id in u.removed ==> id !in s.objects)
    && (id in u.removed || (id in s.objects && id !in u.newIds) ==> id.instance < NextBefore(u, s, id.index))
  }

  lemma UndoKeepsValid<V>(u: UndoState<V>, s: Store<V>)
    requires Fits(u, s)
    ensures Undo(u, s).Valid()
  {
    var before := Undo(u, s);
    forall id | id in before.objects
      ensures id.index in before.nextIds && id.instance < before.nextIds[id.index]
    {
      UndoAt(u, s, id);
      assert FitsAt(u, s, id) && FitsIndex(u, s, id.index);
    }
  }

  // --- What each recorded change leaves to undo -----------------------------------------

  function Created<V>(s: Store<V>, index: nat, value: V): Store<V>
    requires index in s.nextIds
  {
    Store(s.objects[ObjectId(index, s.nextIds[index]) := value], s.nextIds[index := s.nextIds[index] + 1])
  }

  function Modified<V>(s: Store<V>, id: ObjectId, value: V): Store<V> {
    s.(objects := s.objects[id := value])
  }

  function Removed<V>(s: Store<V>, id: ObjectId): Store<V> {
    s.(objects := s.objects - {id})
  }

  function OnCreate<V>(u: UndoState<V>, id: ObjectId): UndoState<V> {
    u.(oldNextIds := if id.index in u.oldNextIds then u.oldNextIds else u.oldNextIds[id.index := id.instance],
       newIds := u.newIds + {id})
  }

  function OnModify<V>(u: UndoState<V>, id: ObjectId, old_: V): UndoState<V> {
    if id in u.newIds || id in u.oldValues then u else u.(oldValues := u.oldValues[id := old_])
  }

  function OnRemove<V>(u: UndoState<V>, id: ObjectId, old_: V): UndoState<V> {
    if id in u.newIds then u.(newIds := u.newIds - {id})
    else if id in u.oldValues then
      u.(removed := u.removed[id := u.oldValues[id]], oldValues := u.oldValues - {id})
    else if id in u.removed then u
    else u.(removed := u.removed[id := old_])
  }

  lemma CreateIsUndone<V>(u: UndoState<V>, s: Store<V>, index: nat, value: V)
    requires Fits(u, s) && index in s.nextIds
    ensures var u', s' := OnCreate(u, ObjectId(index, s.nextIds[index])), Created(s, index, value);
            Fits(u', s') && Undo(u', s') == Undo(u, s)
  {
    var new_ := ObjectId(index, s.nextIds[index]);
    var u', s' := OnCreate(u, new_), Created(s, index, value);
    forall i
      ensures FitsIndex(u', s', i)
    {
      assert FitsIndex(u, s, i);
    }
    forall id
      ensures FitsAt(u', s', id)
      ensures Lookup(Undo(u', s').objects, id) == Lookup(Undo(u, s).objects, id)
    {
      CreateAt(u, s, index, value, id);
    }
    assert FitsIndex(u, s, index);
    NextIdRestored(s.nextIds, u.oldNextIds, index);
    SameStore(Undo(u', s'), Undo(u, s));
  }

  /** Recording a counter before it moves on keeps what restoring gives. */
  lemma NextIdRestored(next: map<nat, nat>, recorded: map<nat, nat>, index: nat)
    requires index in next
    ensures var recorded' := if index in recorded then recorded else recorded[index := next[index]];
            next[index := next[index] + 1] + recorded' == next + recorded
  {
  }

  lemma CreateAt<V>(u: UndoState<V>, s: Store<V>, index: nat, value: V, id: ObjectId)
    requires index in s.nextIds && FitsIndex(u, s, index) && FitsAt(u, s, id) && FitsAt(u, s, ObjectId(index, s.nextIds[index]))
    ensures var u', s' := OnCreate(u, ObjectId(index, s.nextIds[index])), Created(s, index, value);
            FitsAt(u', s', id) && Lookup(Undo(u', s').objects, id) == Lookup(Undo(u, s).objects, id)
  {
    UndoAt(u, s, id);
    UndoAt(OnCreate(u, ObjectId(index, s.nextIds[index])), Created(s, index, value), id);
  }

  lemma ModifyIsUndone<V>(u: UndoState<V>, s: Store<V>, changed: ObjectId, value: V)
    requires Fits(u, s) && changed in s.objects
    ensures var u', s' := OnModify(u, changed, s.objects[changed]), Modified(s, changed, value);
            Fits(u', s') && Undo(u', s') == Undo(u, s)
  {
    var u', s' := OnModify(u, changed, s.objects[changed]), Modified(s, changed, value);
    forall i
      ensures FitsIndex(u', s', i)
    {
      assert FitsIndex(u, s, i);
    }
    forall id
      ensures FitsAt(u', s', id)
      ensures Lookup(Undo(u', s').objects, id) == Lookup(Undo(u, s).objects, id)
    {
      assert FitsAt(u, s, id);
      UndoAt(u, s, id);
      UndoAt(u', s', id);
    }
    SameStore(Undo(u', s'), Undo(u, s));
  }

  lemma RemoveIsUndone<V>(u: UndoState<V>, s: Store<V>, gone: ObjectId)
    requires Fits(u, s) && gone in s.objects
    ensures var u', s' := OnRemove(u, gone, s.objects[gone]), Removed(s, gone);
            Fits(u', s') && Undo(u', s') == Undo(u, s)
  {
    var u', s' := OnRemove(u, gone, s.objects[gone]), Removed(s, gone);
    forall i
      ensures FitsIndex(u', s', i)
    {
      assert FitsIndex(u, s, i);
    }
    forall id
      ensures FitsAt(u', s', id)
      ensures Lookup(Undo(u', s').objects, id) == Lookup(Undo(u, s).objects, id)
    {
      RemoveAt(u, s, gone, id);
    }
    SameStore(Undo(u', s'), Undo(u, s));
  }

  lemma RemoveAt<V>(u: UndoState<V>, s: Store<V>, gone: ObjectId, id: ObjectId)
    requires FitsAt(u, s, id) && gone in s.objects
    ensures var u', s' := OnRemove(u, gone, s.objects[gone]), Removed(s, gone);
            FitsAt(u', s', id) && Lookup(Undo(u', s').objects, id) == Lookup(Undo(u, s).objects, id)
  {
    RemoveFitsAt(u, s, gone, id);
    UndoAt(u, s, id);
    UndoAt(OnRemove(u, gone, s.objects[gone]), Removed(s, gone), id);
  }

  lemma RemoveFitsAt<V>(u: UndoState<V>, s: Store<V>, gone: ObjectId, id: ObjectId)
    requires FitsAt(u, s, id) && gone in s.objects
    ensures var u', s' := OnRemove(u, gone, s.objects[gone]), Removed(s, gone);
            FitsAt(u', s', id) && Before(u', s', id) == Before(u, s, id)
  {
  }

  // --- Merging two consecutive sessions -------------------------------------------------

  /** The composition table: a is the earlier session, b the later one. */
  function Compose<V>(a: UndoState<V>, b: UndoState<V>): UndoState<V> {
    UndoState(
      a.oldValues - b.removed.Keys + (b.oldValues - a.newIds - a.oldValues.Keys),
      b.oldNextIds + a.oldNextIds,
      a.newIds - b.removed.Keys + b.newIds,
      a.removed + (map id | id in b.removed && id !in a.newIds ::
                     if id in a.oldValues then a.oldValues[id] else b.removed[id]))
  }

  /** The cells of the table marked as impossible, for every pair of consecutive sessions. */
  lemma ImpossibleCells<V>(a: UndoState<V>, b: UndoState<V>, s: Store<V>, id: ObjectId)
    requires Fits(b, s) && Fits(a, Undo(b, s))
    ensures id in b.newIds ==> id !in a.newIds && id !in a.oldValues && id !in a.removed
    ensures id in b.oldValues ==> id !in a.removed
    ensures id in b.removed ==> id !in a.removed
  {
    UndoAt(b, s, id);
    assert FitsAt(b, s, id) && FitsAt(a, Undo(b, s), id) && FitsIndex(a, Undo(b, s), id.index);
  }

  lemma MergeAllowed<V>(a: UndoState<V>, b: UndoState<V>, s: Store<V>)
    requires Fits(b, s) && Fits(a, Undo(b, s))
    ensures forall id :: id in b.newIds ==> id !in a.oldValues && id !in a.removed && id !in b.removed
    ensures forall id :: id in b.oldValues ==> id !in a.removed && id !in b.removed
    ensures forall id :: id in b.removed ==> id !in a.removed
    ensures forall id :: id in a.oldValues ==> id !in a.newIds
  {
    forall id
      ensures id in b.newIds ==> id !in a.oldValues && id !in a.removed && id !in b.removed
      ensures id in b.oldValues ==> id !in a.removed && id !in b.removed
      ensures id in b.removed ==> id !in a.removed
      ensures id in a.oldValues ==> id !in a.newIds
    {
      ImpossibleCells(a, b, s, id);
      assert FitsAt(b, s, id) && FitsAt(a, Undo(b, s), id);
    }
  }

  /** Undoing the merged diff is undoing the later session and then the earlier one. */
  lemma MergeIsComposition<V>(a: UndoState<V>, b: UndoState<V>, s: Store<V>)
    requires Fits(b, s) && Fits(a, Undo(b, s))
    ensures Fits(Compose(a, b), s)
    ensures Undo(Compose(a, b), s) == Undo(a, Undo(b, s))
  {
    var mid, c := Undo(b, s), Compose(a, b);
    forall i
      ensures FitsIndex(c, s, i)
    {
      assert FitsIndex(b, s, i) && FitsIndex(a, mid, i);
    }
    forall id
      ensures FitsAt(c, s, id)
      ensures Lookup(Undo(c, s).objects, id) == Lookup(Undo(a, mid).objects, id)
    {
      MergeAt(a, b, s, id);
    }
    RestoredTwice(s.nextIds, b.oldNextIds, a.oldNextIds);
    SameStore(Undo(c, s), Undo(a, mid));
  }

  lemma RestoredTwice(next: map<nat, nat>, later: map<nat, nat>, earlier: map<nat, nat>)
    ensures next + later + earlier == next + (later + earlier)
  {
  }

  lemma MergeAt<V>(a: UndoState<V>, b: UndoState<V>, s: Store<V>, id: ObjectId)
    requires Fits(b, s) && Fits(a, Undo(b, s))
    ensures FitsAt(Compose(a, b), s, id)
    ensures Lookup(Undo(Compose(a, b), s).objects, id) == Lookup(Undo(a, Undo(b, s)).objects, id)
  {
    var mid, c := Undo(b, s), Compose(a, b);
    UndoAt(b, s, id);
    UndoAt(a, mid, id);
    UndoAt(c, s, id);
    assert FitsAt(b, s, id) && FitsAt(a, mid, id) && FitsIndex(b, s, id.index) && FitsIndex(a, mid, id.index);
    ComposeFitsAt(a, b, s, id);
    ComposeBefore(a, b, s, id);
  }

  /** Both sessions fit the store they were recorded on, as far as one object goes. */
  ghost predicate FitAt<V>(a: UndoState<V>, b: UndoState<V>, s: Store<V>, id: ObjectId) {
    && FitsAt(b, s, id) && FitsAt(a, Undo(b, s), id)
    && FitsIndex(b, s, id.index) && FitsIndex(a, Undo(b, s), id.index)
  }

  lemma ComposeFitsAt<V>(a: UndoState<V>, b: UndoState<V>, s: Store<V>, id: ObjectId)
    requires FitAt(a, b, s, id)
    ensures FitsAt(Compose(a, b), s, id)
  {
    UndoAt(b, s, id);
  }

  lemma ComposeBefore<V>(a: UndoState<V>, b: UndoState<V>, s: Store<V>, id: ObjectId)
    requires FitAt(a, b, s, id)
    ensures Before(Compose(a, b), s, id) == Before(a, Undo(b, s), id)
  {
    UndoAt(b, s, id);
  }

  // --- The stack as snapshots -----------------------------------------------------------

  /** The snapshots a stack of diffs stands for, oldest first. */
  function Snapshots<V>(stack: seq<UndoState<V>>, s: Store<V>): (h: seq<Store<V>>)
    ensures |h| == |stack|
  {
    if stack == [] then []
    else
      var before := Undo(stack[|stack| - 1], s);
      Snapshots(stack[..|stack| - 1], before) + [before]
  }

  ghost predicate StackFits<V>(stack: seq<UndoState<V>>, s: Store<V>) {
    stack != [] ==>
      && Fits(stack[|stack| - 1], s)
      && StackFits(stack[..|stack| - 1], Undo(stack[|stack| - 1], s))
  }

  /** An empty diff on top stands for the store itself. */
  lemma PushEmpty<V>(stack: seq<UndoState<V>>, s: Store<V>)
    requires s.Valid() && StackFits(stack, s)
    ensures StackFits(stack + [EmptyState()], s)
    ensures Snapshots(stack + [EmptyState()], s) == Snapshots(stack, s) + [s]
  {
    var pushed := stack + [EmptyState()];
    assert pushed[..|pushed| - 1] == stack;
    assert Undo(EmptyState(), s) == s;
  }

  /** Forgetting the oldest diff forgets the oldest snapshot and nothing else. */
  lemma {:induction false} DropOldest<V>(stack: seq<UndoState<V>>, s: Store<V>)
    requires stack != [] && StackFits(stack, s)
    ensures StackFits(stack[1..], s)
    ensures Snapshots(stack[1..], s) == Snapshots(stack, s)[1..]
  {
    if |stack| > 1 {
      var n := |stack| - 1;
      var before := Undo(stack[n], s);
      DropOldest(stack[..n], before);
      assert stack[1..][..n - 1] == stack[..n][1..];
    }
  }
}

/** The undo database as a machine over values, refined by a stack of full snapshots. */
module UndoMachines {
  import opened Options
  import opened UndoStates

  datatype Operation<V> =
    | Create(index: nat, value: V)
    | Modify(id: ObjectId, value: V)
    | Remove(id: ObjectId)
    | StartSession
    | UndoSession
    | MergeSession
    | CommitSession
    | PopCommit

  /** The newest n elements. */
  function Kept<T>(s: seq<T>, n: nat): seq<T> {
    if |s| > n then s[|s| - n..] else s
  }

  /** The enabled database: what it stores, its stack of diffs, and its open sessions. */
  datatype Machine<V> = Machine(store: Store<V>, stack: seq<UndoState<V>>, active: nat, maxSize: nat) {

    ghost predicate Valid() {
      store.Valid() && StackFits(stack, store)
    }

    function Top(): UndoState<V> {
      if stack == [] then EmptyState() else stack[|stack| - 1]
    }

    function WithTop(s: Store<V>, top: UndoState<V>): Machine<V> {
      this.(store := s, stack := (if stack == [] then [] else stack[..|stack| - 1]) + [top])
    }

    function Popped(s: Store<V>, active': nat): Machine<V>
      requires stack != []
    {
      this.(store := s, stack := stack[..|stack| - 1], active := active')
    }

    /** One operation; one the source rejects leaves everything as it was. */
    function Step(op: Operation<V>): Machine<V> {
      match op
      case Create(index, value) =>
        if index !in store.nextIds then this
        else WithTop(Created(store, index, value), OnCreate(Top(), ObjectId(index, store.nextIds[index])))
      case Modify(id, value) =>
        if id !in store.objects then this
        else WithTop(Modified(store, id, value), OnModify(Top(), id, store.objects[id]))
      case Remove(id) =>
        if id !in store.objects then this
        else WithTop(Removed(store, id), OnRemove(Top(), id, store.objects[id]))
      case StartSession =>
        this.(stack := Kept(stack, maxSize) + [EmptyState()], active := active + 1)
      case UndoSession =>
        if active == 0 || stack == [] then this else Popped(Undo(Top(), store), active - 1)
      case MergeSession =>
        if active == 1 && |stack| == 1 then this.(stack := [], active := 0)
        else if active == 0 || |stack| < 2 then this
        else this.(stack := stack[..|stack| - 2] + [Compose(stack[|stack| - 2], Top())], active := active - 1)
      case CommitSession => if active == 0 then this else this.(active := active - 1)
      case PopCommit => if active > 0 || stack == [] then this else Popped(Undo(Top(), store), 0)
    }

    function Abstract(): Snapshot<V> {
      Snapshot(store, Snapshots(stack, store), active, maxSize)
    }
  }

  /** The specification: a store, full copies of it at each retained start, and open sessions. */
  datatype Snapshot<V> = Snapshot(store: Store<V>, history: seq<Store<V>>, active: nat, maxSize: nat) {

    function Changed(s: Store<V>): Snapshot<V> {
      this.(store := s, history := if history == [] then [store] else history)
    }

    function Restored(active': nat): Snapshot<V>
      requires history != []
    {
      this.(store := history[|history| - 1], history := history[..|history| - 1], active := active')
    }

    function Step(op: Operation<V>): Snapshot<V> {
      match op
      case Create(index, value) => if index in store.nextIds then Changed(Created(store, index, value)) else this
      case Modify(id, value) => if id in store.objects then Changed(Modified(store, id, value)) else this
      case Remove(id) => if id in store.objects then Changed(Removed(store, id)) else this
      case StartSession =>
        this.(history := Kept(history, maxSize) + [store], active := active + 1)
      case UndoSession => if active == 0 || history == [] then this else Restored(active - 1)
      case MergeSession =>
        if active == 0 || history == [] || (|history| == 1 && active > 1) then this
        else this.(history := history[..|history| - 1], active := active - 1)
      case CommitSession => if active == 0 then this else this.(active := active - 1)
      case PopCommit => if active > 0 || history == [] then this else Restored(0)
    }

    function Run(ops: seq<Operation<V>>): Snapshot<V>
      decreases |ops|
    {
      if ops == [] then this else Step(ops[0]).Run(ops[1..])
    }
  }

  function Run<V>(m: Machine<V>, ops: seq<Operation<V>>): Machine<V>
    decreases |ops|
  {
    if ops == [] then m else Run(m.Step(ops[0]), ops[1..])
  }

  lemma ChangeRefines<V>(m: Machine<V>, s: Store<V>, top: UndoState<V>)
    requires m.Valid() && Fits(top, s) && s.Valid()
    requires Undo(top, s) == if m.stack == [] then m.store else Undo(m.Top(), m.store)
    ensures var m' := m.WithTop(s, top);
            m'.Valid() && m'.Abstract() == m.Abstract().Changed(s)
  {
    var below := if m.stack == [] then [] else m.stack[..|m.stack| - 1];
    var stack := below + [top];
    assert stack[..|stack| - 1] == below;
  }

  lemma FitsEmpty<V>(s: Store<V>)
    requires s.Valid()
    ensures Fits(EmptyState(), s) && Undo(EmptyState(), s) == s
  {
  }

  lemma TrimRefines<V>(stack: seq<UndoState<V>>, s: Store<V>, n: nat)
    requires StackFits(stack, s) && n <= |stack|
    ensures StackFits(stack[|stack| - n..], s)
    ensures Snapshots(stack[|stack| - n..], s) == Snapshots(stack, s)[|stack| - n..]
    decreases |stack|
  {
    if n < |stack| {
      DropOldest(stack, s);
      TrimRefines(stack[1..], s, n);
      assert stack[1..][|stack| - 1 - n..] == stack[|stack| - n..];
    } else {
      assert stack[0..] == stack;
    }
  }

  lemma KeptRefines<V>(stack: seq<UndoState<V>>, s: Store<V>, n: nat)
    requires StackFits(stack, s)
    ensures StackFits(Kept(stack, n), s) && Snapshots(Kept(stack, n), s) == Kept(Snapshots(stack, s), n)
  {
    if n < |stack| {
      TrimRefines(stack, s, n);
    }
  }

  lemma MergeRefines<V>(m: Machine<V>)
    requires m.Valid() && m.active > 0 && |m.stack| >= 2
    ensures var m' := m.Step(MergeSession);
            m'.Valid() && m'.Abstract() == m.Abstract().Step(MergeSession)
  {
    var n := |m.stack| - 1;
    var a, b, below := m.stack[n - 1], m.stack[n], m.stack[..n - 1];
    var mid := Undo(b, m.store);
    assert m.stack[..n][..n - 1] == below;
    assert StackFits(m.stack[..n], mid);
    assert Snapshots(m.stack[..n], mid) == Snapshots(below, Undo(a, mid)) + [Undo(a, mid)];
    MergeIsComposition(a, b, m.store);
    var stack := below + [Compose(a, b)];
    assert stack[..n - 1] == below;
  }

  lemma RecordedChangeRefines<V>(m: Machine<V>, op: Operation<V>)
    requires m.Valid() && (op.Create? || op.Modify? || op.Remove?)
    ensures m.Step(op).Valid()
    ensures m.Step(op).Abstract() == m.Abstract().Step(op)
  {
    FitsEmpty(m.store);
    match op
    case Create(index, value) =>
      if index in m.store.nextIds {
        CreateIsUndone(m.Top(), m.store, index, value);
        ChangeRefines(m, Created(m.store, index, value), OnCreate(m.Top(), ObjectId(index, m.store.nextIds[index])));
      }
    case Modify(id, value) =>
      if id in m.store.objects {
        ModifyIsUndone(m.Top(), m.store, id, value);
        ChangeRefines(m, Modified(m.store, id, value), OnModify(m.Top(), id, m.store.objects[id]));
      }
    case Remove(id) =>
      if id in m.store.objects {
        RemoveIsUndone(m.Top(), m.store, id);
        ChangeRefines(m, Removed(m.store, id), OnRemove(m.Top(), id, m.store.objects[id]));
      }
  }

  lemma StartRefines<V>(m: Machine<V>)
    requires m.Valid()
    ensures m.Step(StartSession).Valid()
    ensures m.Step(StartSession).Abstract() == m.Abstract().Step(StartSession)
  {
    KeptRefines(m.stack, m.store, m.maxSize);
    PushRefines(m, Kept(m.stack, m.maxSize));
  }

  lemma PushRefines<V>(m: Machine<V>, kept: seq<UndoState<V>>)
    requires m.store.Valid() && StackFits(kept, m.store)
    ensures var m' := m.(stack := kept + [EmptyState()], active := m.active + 1);
            m'.Valid() && m'.Abstract() == Snapshot(m.store, Snapshots(kept, m.store) + [m.store], m.active + 1, m.maxSize)
  {
    PushEmpty(kept, m.store);
  }

  lemma RestoreRefines<V>(m: Machine<V>, active': nat)
    requires m.Valid() && m.stack != []
    ensures var m' := m.Popped(Undo(m.Top(), m.store), active');
            m'.Valid() && m'.Abstract() == m.Abstract().Restored(active')
  {
    UndoKeepsValid(m.Top(), m.store);
  }

  lemma UnwindRefines<V>(m: Machine<V>, op: Operation<V>)
    requires m.Valid() && (op.UndoSession? || op.PopCommit?)
    ensures m.Step(op).Valid()
    ensures m.Step(op).Abstract() == m.Abstract().Step(op)
  {
    if m.stack != [] {
      RestoreRefines(m, if op.UndoSession? && m.active > 0 then m.active - 1 else 0);
    }
  }

  lemma SessionEndRefines<V>(m: Machine<V>, op: Operation<V>)
    requires m.Valid() && (op.MergeSession? || op.CommitSession?)
    ensures m.Step(op).Valid()
    ensures m.Step(op).Abstract() == m.Abstract().Step(op)
  {
    if op.MergeSession? && m.active > 0 && |m.stack| >= 2 {
      MergeRefines(m);
    }
  }

  /** Every operation on diffs does to the snapshots what it does to full copies. */
  lemma StepRefines<V>(m: Machine<V>, op: Operation<V>)
    requires m.Valid()
    ensures m.Step(op).Valid()
    ensures m.Step(op).Abstract() == m.Abstract().Step(op)
  {
    match op
    case Create(_, _) => RecordedChangeRefines(m, op);
    case Modify(_, _) => RecordedChangeRefines(m, op);
    case Remove(_) => RecordedChangeRefines(m, op);
    case StartSession => StartRefines(m);
    case MergeSession => SessionEndRefines(m, op);
    case CommitSession => SessionEndRefines(m, op);
    case UndoSession => UnwindRefines(m, op);
    case PopCommit => UnwindRefines(m, op);
  }

  /** Over any interleaving, from any valid state, the diffs mean the snapshots. */
  lemma {:induction false} RunRefines<V>(m: Machine<V>, ops: seq<Operation<V>>)
    requires m.Valid()
    ensures Run(m, ops).Valid()
    ensures Run(m, ops).Abstract() == m.Abstract().Run(ops)
    decreases |ops|
  {
    if ops != [] {
      StepRefines(m, ops[0]);
      RunRefines(m.Step(ops[0]), ops[1..]);
    }
  }

  /** A run that never unwinds below n retained states and never has to forget one. */
  ghost predicate StaysAbove<V>(s: Snapshot<V>, ops: seq<Operation<V>>, n: nat)
    decreases |ops|
  {
    && n <= |s.history| <= s.maxSize
    && (ops != [] ==> StaysAbove(s.Step(ops[0]), ops[1..], n))
  }

  lemma {:induction false} OlderSnapshotsStay<V>(s: Snapshot<V>, ops: seq<Operation<V>>, n: nat)
    requires n > 0 && StaysAbove(s, ops, n)
    ensures |s.Run(ops).history| >= n && s.Run(ops).history[..n] == s.history[..n]
    decreases |ops|
  {
    if ops != [] {
      var s' := s.Step(ops[0]);
      assert s'.history[..n] == s.history[..n];
      OlderSnapshotsStay(s', ops[1..], n);
    }
  }

  /**
   A session that is undone leaves no trace: whatever happens inside it, including nested
   sessions that are undone, merged or committed, the store at its start comes back.
   */
  lemma UndoneSessionRestores<V>(m: Machine<V>, ops: seq<Operation<V>>)
    requires m.Valid()
    requires var n := |m.stack| + 1;
             && StaysAbove(m.Abstract().Step(StartSession), ops, n)
             && |Run(m.Step(StartSession), ops).stack| == n
             && Run(m.Step(StartSession), ops).active > 0
    ensures var ended := Run(m.Step(StartSession), ops).Step(UndoSession);
            ended.store == m.store && Snapshots(ended.stack, ended.store) == Snapshots(m.stack, m.store)
  {
    var started := m.Step(StartSession);
    var inside := Run(started, ops);
    StepRefines(m, StartSession);
    RunRefines(started, ops);
    OlderSnapshotsStay(started.Abstract(), ops, |m.stack| + 1);
    SamePrefix(inside.Abstract().history, started.Abstract().history, |m.stack| + 1);
    NewestIsRestored(m, inside);
  }

  lemma SamePrefix<T>(s: seq<T>, t: seq<T>, n: nat)
    requires |s| == n && |t| == n && s[..n] == t[..n]
    ensures s == t
  {
    assert s == s[..n] && t == t[..n];
  }

  /** Undoing a session whose start is the newest snapshot brings that snapshot back. */
  lemma NewestIsRestored<V>(m: Machine<V>, inside: Machine<V>)
    requires m.Valid() && inside.Valid() && inside.active > 0 && |inside.stack| == |m.stack| + 1
    requires inside.Abstract().history == Snapshots(m.stack, m.store) + [m.store]
    ensures var ended := inside.Step(UndoSession);
            ended.store == m.store && Snapshots(ended.stack, ended.store) == Snapshots(m.stack, m.store)
  {
    UnwindRefines(inside, UndoSession);
    var history := inside.Abstract().history;
    assert history[|history| - 1] == m.store && history[..|history| - 1] == Snapshots(m.stack, m.store);
  }
}

module UndoDatabases {
  import opened Options
  import opened UndoStates
  import M = UndoMachines

  /** Moving one entry over from what is left keeps what the two maps come to. */
  lemma MoveEntry<K, V>(m: map<K, V>, left: map<K, V>, k: K)
    requires k in left
    ensures m[k := left[k]] + (left - {k}) == m + left
  {
  }

  class UndoDatabase<V(!new)> {
    var store: Store<V>
    var stack: seq<UndoState<V>>
    var activeSessions: nat
    var disabled: bool
    var maxSize: nat

    ghost function State(): M.Machine<V>
      reads this
    {
      M.Machine(store, stack, activeSessions, maxSize)
    }

    ghost predicate Valid()
      reads this
    {
      State().Valid()
    }

    /** What the stack of diffs stands for: full copies of the store, oldest first. */
    ghost function View(): M.Snapshot<V>
      reads this
    {
      State().Abstract()
    }

    constructor (indices: map<nat, nat>)
      ensures Valid() && store == Store(map[], indices)
      ensures View() == M.Snapshot(store, [], 0, 256) && !disabled
    {
      store := Store(map[], indices);
      stack := [];
      activeSessions := 0;
      disabled := false;
      maxSize := 256;
    }

    /** Returns whether a session was really started, and whether ending it disables the database. */
    method StartUndoSession(forceEnable: bool) returns (started: bool, disableOnExit: bool)
      requires Valid()
      modifies this`stack, this`activeSessions, this`disabled
      ensures Valid()
      ensures started == (!old(disabled) || forceEnable)
      ensures disableOnExit == (old(disabled) && forceEnable)
      ensures disabled == !started
      ensures View() == if started then old(View()).Step(M.StartSession) else old(View())
      ensures started && old(activeSessions) <= maxSize && old(activeSessions) <= |old(stack)| ==>
                activeSessions <= |stack|
    {
      if disabled && !forceEnable {
        return false, false;
      }
      disableOnExit := disabled && forceEnable;
      if forceEnable {
        disabled := false;
      }
      PushState();
      started := true;
    }

    method PushState()
      requires Valid()
      modifies this`stack, this`activeSessions
      ensures Valid() && View() == old(View()).Step(M.StartSession)
      ensures old(activeSessions) <= maxSize && old(activeSessions) <= |old(stack)| ==> activeSessions <= |stack|
    {
      M.StepRefines(State(), M.StartSession);
      TrimStack();
      stack := stack + [EmptyState()];
      activeSessions := activeSessions + 1;
    }

    /** Forgets the oldest retained states beyond the maximum. */
    method TrimStack()
      modifies this`stack
      ensures var n := |old(stack)|;
              stack == if n > maxSize then old(stack)[n - maxSize..] else old(stack)
    {
      ghost var before := stack;
      while |stack| > maxSize
        invariant |stack| <= |before| && stack == before[|before| - |stack|..]
        invariant |before| <= maxSize ==> stack == before
        invariant |before| > maxSize ==> |stack| >= maxSize
        decreases |stack|
      {
        stack := stack[1..];
      }
    }

    method Create(index: nat, value: V) returns (id: ObjectId)
      requires Valid() && index in store.nextIds
      modifies this`store, this`stack
      ensures id == ObjectId(index, old(store).nextIds[index]) && store == Created(old(store), index, value)
      ensures old(disabled) ==> stack == old(stack)
      ensures !old(disabled) ==> Valid() && View() == old(View()).Step(M.Create(index, value))
    {
      ghost var before := State();
      id := ObjectId(index, store.nextIds[index]);
      store := Created(store, index, value);
      if disabled {
        return;
      }
      if stack == [] {
        stack := [EmptyState()];
      }
      var n := |stack| - 1;
      stack := stack[..n] + [OnCreate(stack[n], id)];
      assert State() == before.Step(M.Create(index, value));
      M.StepRefines(before, M.Create(index, value));
    }

    method Modify(id: ObjectId, value: V)
      requires Valid() && id in store.objects
      modifies this`store, this`stack
      ensures store == Modified(old(store), id, value)
      ensures old(disabled) ==> stack == old(stack)
      ensures !old(disabled) ==> Valid() && View() == old(View()).Step(M.Modify(id, value))
    {
      ghost var before := State();
      if !disabled {
        if stack == [] {
          stack := [EmptyState()];
        }
        var n := |stack| - 1;
        stack := stack[..n] + [OnModify(stack[n], id, store.objects[id])];
        M.StepRefines(before, M.Modify(id, value));
      }
      store := Modified(store, id, value);
      assert !disabled ==> State() == before.Step(M.Modify(id, value));
    }

    method Remove(id: ObjectId)
      requires Valid() && id in store.objects
      modifies this`store, this`stack
      ensures store == Removed(old(store), id)
      ensures old(disabled) ==> stack == old(stack)
      ensures !old(disabled) ==> Valid() && View() == old(View()).Step(M.Remove(id))
    {
      ghost var before := State();
      if !disabled {
        if stack == [] {
          stack := [EmptyState()];
        }
        var n := |stack| - 1;
        stack := stack[..n] + [OnRemove(stack[n], id, store.objects[id])];
        M.StepRefines(before, M.Remove(id));
      }
      store := Removed(store, id);
      assert !disabled ==> State() == before.Step(M.Remove(id));
    }

    /** Puts the first recorded value of every changed object back; every object looked up exists. */
    method RestoreValues(values: map<ObjectId, V>)
      requires forall id :: id in values ==> id in store.objects
      modifies this`store
      ensures store == old(store).(objects := old(store).objects + values)
    {
      ghost var start := store;
      var left := values;
      while left != map[]
        invariant forall id :: id in left ==> id in store.objects
        invariant store.nextIds == start.nextIds
        invariant store.objects + left == start.objects + values
        decreases |left|
      {
        var id :| id in left;
        MoveEntry(store.objects, left, id);
        store := store.(objects := store.objects[id := left[id]]);
        left := left - {id};
      }
      assert store.objects + left == store.objects;
    }

    /** Removes every object the session created; every object looked up exists. */
    method RemoveCreated(created: set<ObjectId>)
      requires forall id :: id in created ==> id in store.objects
      modifies this`store
      ensures store == old(store).(objects := old(store).objects - created)
    {
      ghost var start := store;
      var left := created;
      while left != {}
        invariant forall id :: id in left ==> id in store.objects
        invariant store.nextIds == start.nextIds
        invariant store.objects - left == start.objects - created
        decreases |left|
      {
        var id :| id in left;
        assert store.objects - {id} - (left - {id}) == store.objects - left;
        store := store.(objects := store.objects - {id});
        left := left - {id};
      }
      assert store.objects - left == store.objects;
    }

    method RestoreNextIds(nextIds: map<nat, nat>)
      modifies this`store
      ensures store == old(store).(nextIds := old(store).nextIds + nextIds)
    {
      ghost var start := store;
      var left := nextIds;
      while left != map[]
        invariant store.objects == start.objects
        invariant store.nextIds + left == start.nextIds + nextIds
        decreases |left|
      {
        var index :| index in left;
        MoveEntry(store.nextIds, left, index);
        store := store.(nextIds := store.nextIds[index := left[index]]);
        left := left - {index};
      }
      assert store.nextIds + left == store.nextIds;
    }

    /** Puts removed objects back; none of them is present, so no insertion is refused. */
    method InsertRemoved(removed: map<ObjectId, V>)
      requires forall id :: id in removed ==> id !in store.objects
      modifies this`store
      ensures store == old(store).(objects := old(store).objects + removed)
    {
      ghost var start := store;
      var left := removed;
      while left != map[]
        invariant forall id :: id in left ==> id !in store.objects
        invariant store.nextIds == start.nextIds
        invariant store.objects + left == start.objects + removed
        decreases |left|
      {
        var id :| id in left;
        MoveEntry(store.objects, left, id);
        store := store.(objects := store.objects[id := left[id]]);
        left := left - {id};
      }
      assert store.objects + left == store.objects;
    }

    /** Walks the newest diff: values back, created objects out, next ids back, removed objects in. */
    method Restore()
      requires Valid() && stack != []
      modifies this`store
      ensures store == Undo(stack[|stack| - 1], old(store))
    {
      var state := stack[|stack| - 1];
      forall id
        ensures id in state.oldValues ==> id in store.objects
        ensures id in state.newIds ==> id in store.objects
        ensures id in state.removed ==> id !in store.objects && id !in state.oldValues
      {
        assert FitsAt(state, store, id);
      }
      RestoreValues(state.oldValues);
      RemoveCreated(state.newIds);
      RestoreNextIds(state.oldNextIds);
      InsertRemoved(state.removed);
    }

    /** Undo the newest session: its snapshot is the store again. */
    method UndoNewest() returns (ok: bool)
      requires Valid() && stack != []
      modifies this
      ensures Valid()
      ensures ok == (!old(disabled) && old(activeSessions) > 0)
      ensures View() == if ok then old(View()).Step(M.UndoSession) else old(View())
      ensures disabled == old(disabled)
    {
      if disabled || activeSessions == 0 {
        return false;
      }
      M.StepRefines(State(), M.UndoSession);
      disabled := true;
      Restore();
      stack := stack[..|stack| - 1];
      disabled := false;
      activeSessions := activeSessions - 1;
      ok := true;
    }

    /** Undo the newest retained state once no session is active, as popping a block does. */
    method PopCommit() returns (ok: bool)
      requires Valid()
      modifies this
      ensures Valid()
      ensures ok == (old(activeSessions) == 0 && old(stack) != [])
      ensures View() == old(View()).Step(M.PopCommit)
      ensures disabled == (old(disabled) && !ok)
    {
      if activeSessions > 0 || stack == [] {
        return false;
      }
      M.StepRefines(State(), M.PopCommit);
      disabled := true;
      Restore();
      stack := stack[..|stack| - 1];
      disabled := false;
      ok := true;
    }

    method Commit() returns (ok: bool)
      modifies this`activeSessions
      ensures ok == (old(activeSessions) > 0)
      ensures View() == old(View()).Step(M.CommitSession)
    {
      if activeSessions == 0 {
        return false;
      }
      activeSessions := activeSessions - 1;
      ok := true;
    }

    /** Fold the newest session into the one below: its snapshot is forgotten, all others stay. */
    method Merge() returns (ok: bool)
      requires Valid()
      modifies this`stack, this`activeSessions
      ensures Valid()
      ensures ok == (old(activeSessions) > 0 && (|old(stack)| >= 2 || (old(activeSessions) == 1 && |old(stack)| == 1)))
      ensures View() == old(View()).Step(M.MergeSession)
    {
      M.StepRefines(State(), M.MergeSession);
      if activeSessions == 0 {
        return false;
      }
      if activeSessions == 1 && |stack| == 1 {
        stack := [];
        activeSessions := 0;
        return true;
      }
      if |stack| < 2 {
        return false;
      }
      MergeNewest();
      ok := true;
    }

    method MergeNewest()
      requires Valid() && activeSessions > 0 && |stack| >= 2
      modifies this`stack, this`activeSessions
      ensures State() == old(State()).Step(M.MergeSession)
    {
      var n := |stack| - 1;
      var prev, state := stack[n - 1], stack[n];
      assert StackFits(stack[..n], Undo(state, store)) && stack[..n][n - 1] == prev;
      MergeAllowed(prev, state, store);
      var merged := MergeInto(prev, state);
      stack := stack[..n - 1] + [merged];
      activeSessions := activeSessions - 1;
    }

    /** The in-place merge; the two cells the source asserts against are ruled out by the caller. */
    static method MergeInto(prev: UndoState<V>, state: UndoState<V>) returns (merged: UndoState<V>)
      requires forall id :: id in state.oldValues ==> id !in prev.removed && id !in state.removed
      requires forall id :: id in state.removed ==> id !in prev.removed
      requires forall id :: id in state.newIds ==> id !in prev.oldValues && id !in state.removed
      requires forall id :: id in prev.oldValues ==> id !in prev.newIds
      ensures merged == Compose(prev, state)
    {
      var values := MergeValues(prev, state);
      var newIds := prev.newIds + state.newIds;
      var nextIds := MergeNextIds(prev.oldNextIds, state.oldNextIds);
      var updated := UndoState(values, nextIds, newIds, prev.removed);
      merged := MergeRemoved(updated, state.removed);
      forall id
        ensures SameAt(Compose(prev, state), merged, id)
      {
        assert AbsorbedAt(updated, state.removed, merged, id);
      }
      SameDiff(Compose(prev, state), merged);
    }

    static lemma SameDiff(u: UndoState<V>, v: UndoState<V>)
      requires u.oldNextIds == v.oldNextIds && forall id :: SameAt(u, v, id)
      ensures u == v
    {
      assert forall id :: id in u.oldValues <==> Lookup(u.oldValues, id).Some?;
      assert forall id :: id in u.removed <==> Lookup(u.removed, id).Some?;
      forall id
        ensures id in u.newIds <==> id in v.newIds
        ensures id in u.oldValues <==> id in v.oldValues
        ensures id in u.removed <==> id in v.removed
        ensures id in u.oldValues ==> u.oldValues[id] == v.oldValues[id]
        ensures id in u.removed ==> u.removed[id] == v.removed[id]
      {
        assert SameAt(u, v, id);
      }
    }

    /** Everything meets updated. */
    static method MergeValues(prev: UndoState<V>, state: UndoState<V>) returns (values: map<ObjectId, V>)
      requires forall id :: id in state.oldValues ==> id !in prev.removed
      ensures values == prev.oldValues + (state.oldValues - prev.newIds - prev.oldValues.Keys)
    {
      values := prev.oldValues;
      var left := state.oldValues;
      while left != map[]
        invariant forall id :: id in left ==> id in state.oldValues && left[id] == state.oldValues[id]
        invariant forall id :: id in values <==>
                    id in prev.oldValues || (id in state.oldValues && id !in left && id !in prev.newIds)
        invariant forall id :: id in values ==>
                    values[id] == if id in prev.oldValues then prev.oldValues[id] else state.oldValues[id]
        decreases |left|
      {
        var id :| id in left;
        if id !in prev.newIds && id !in values {
          assert id !in prev.removed;
          values := values[id := left[id]];
        }
        left := left - {id};
      }
    }

    static method MergeNextIds(prev: map<nat, nat>, state: map<nat, nat>) returns (nextIds: map<nat, nat>)
      ensures nextIds == state + prev
    {
      nextIds := prev;
      var left := state;
      while left != map[]
        invariant forall i :: i in left ==> i in state && left[i] == state[i]
        invariant forall i :: i in nextIds <==> i in prev || (i in state && i !in left)
        invariant forall i :: i in nextIds ==> nextIds[i] == if i in prev then prev[i] else state[i]
        decreases |left|
      {
        var i :| i in left;
        if i !in nextIds {
          nextIds := nextIds[i := left[i]];
        }
        left := left - {i};
      }
    }

    /** Everything meets removed. */
    static method MergeRemoved(prev: UndoState<V>, removed: map<ObjectId, V>) returns (merged: UndoState<V>)
      requires forall id :: id in removed ==> id !in prev.removed
      ensures merged.oldNextIds == prev.oldNextIds
      ensures forall id :: AbsorbedAt(prev, removed, merged, id)
    {
      merged := prev;
      var left := removed;
      ghost var done: map<ObjectId, V> := map[];
      while left != map[]
        invariant forall id :: id in left ==> id !in done
        invariant done + left == removed
        invariant merged.oldNextIds == prev.oldNextIds
        invariant forall id :: AbsorbedAt(prev, done, merged, id)
        decreases |left|
      {
        var id :| id in left;
        ghost var before := merged;
        assert AbsorbedAt(prev, done, merged, id);
        merged := MergeRemovedObject(merged, id, left[id]);
        MoveEntry(done, left, id);
        AbsorbOne(prev, done, before, id, left[id], merged, done[id := left[id]]);
        done := done[id := left[id]];
        left := left - {id};
      }
      assert done + left == done;
    }

    static lemma AbsorbOne(prev: UndoState<V>, done: map<ObjectId, V>, before: UndoState<V>, id: ObjectId, value: V, merged: UndoState<V>,
                           done': map<ObjectId, V>)
      requires done' == done[id := value]
      requires id !in done && forall x :: AbsorbedAt(prev, done, before, x)
      requires forall x :: x != id ==> SameAt(before, merged, x)
      requires AbsorbedAt(before, map[id := value], merged, id)
      ensures forall x :: AbsorbedAt(prev, done', merged, x)
    {
      forall x
        ensures AbsorbedAt(prev, done', merged, x)
      {
        assert AbsorbedAt(prev, done, before, x);
        assert x != id ==> SameAt(before, merged, x);
      }
    }

    static method MergeRemovedObject(prev: UndoState<V>, id: ObjectId, value: V) returns (merged: UndoState<V>)
      requires id !in prev.removed
      ensures merged.oldNextIds == prev.oldNextIds
      ensures forall x :: x != id ==> SameAt(prev, merged, x)
      ensures AbsorbedAt(prev, map[id := value], merged, id)
    {
      if id in prev.newIds {
        merged := prev.(newIds := prev.newIds - {id});
      } else if id in prev.oldValues {
        merged := prev.(removed := prev.removed[id := prev.oldValues[id]], oldValues := prev.oldValues - {id});
      } else {
        merged := prev.(removed := prev.removed[id := value]);
      }
    }

    /** What one object's record becomes when the removed objects are merged in. */
    static ghost predicate AbsorbedAt(prev: UndoState<V>, removed: map<ObjectId, V>, merged: UndoState<V>, id: ObjectId) {
      if id !in removed then SameAt(prev, merged, id)
      else if id in prev.newIds then
        && id !in merged.newIds
        && Lookup(merged.oldValues, id) == Lookup(prev.oldValues, id)
        && Lookup(merged.removed, id) == Lookup(prev.removed, id)
      else
        && id !in merged.newIds && id !in merged.oldValues
        && Lookup(merged.removed, id) == Some(if id in prev.oldValues then prev.oldValues[id] else removed[id])
    }

    static ghost predicate SameAt(prev: UndoState<V>, merged: UndoState<V>, id: ObjectId) {
      && (id in merged.newIds <==> id in prev.newIds)
      && Lookup(merged.oldValues, id) == Lookup(prev.oldValues, id)
      && Lookup(merged.removed, id) == Lookup(prev.removed, id)
    }
  }
}
