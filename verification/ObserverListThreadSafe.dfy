/** base/observer_list_threadsafe.h as a step relation. One step is a block run under
    `list_lock_`, or an access to a context made outside the lock; any thread may take the next
    step. Addresses of deleted contexts may be handed out again. */
module ObserverListThreadSafe {
  import opened Options

  type ThreadId = nat
  type Address = nat
  type Observer(==,!new) = nat

  type Slot = Option<Observer>
  datatype NotificationType = NotifyAll | NotifyExistingOnly

  /** ObserverListContext: the thread its loop belongs to, and its ObserverList. */
  datatype Context = Context(owner: ThreadId, list: seq<Slot>, depth: int)

  /** A library call in progress on some thread, at the point it has reached. */
  datatype Frame =
    | AddToList(ctx: Address, obs: Observer)       // AddObserver, the lock released
    | RemoveFromList(ctx: Address, obs: Observer)  // RemoveObserver, the lock released
    | RemoveTest(ctx: Address)                     // RemoveObserver, about to test size()
    | WrapperStart(ctx: Address)                   // NotifyWrapper, past its first test
    | Iterating(ctx: Address, index: nat, maxIndex: nat, bounded: bool)  // an observer is running
    | WrapperTest(ctx: Address)                    // NotifyWrapper, iterator gone, about to test size()
    | WrapperDelete(ctx: Address)                  // NotifyWrapper, about to delete

  datatype Task = Task(thread: ThreadId, ctx: Address)

  datatype State = State(
    kind: NotificationType,
    lists: map<ThreadId, Address>,           // observer_lists_
    heap: map<Address, Context>,             // contexts allocated and not deleted
    stacks: map<ThreadId, seq<Frame>>,       // innermost call last
    tasks: multiset<Task>,                   // posted, neither run nor dropped
    alive: bool,                             // the ObserverListThreadSafe itself
    news: nat,                               // contexts ever allocated
    deletes: nat)                            // delete operations ever performed

  datatype Action =
    | Add(thread: ThreadId, obs: Observer, hasLoop: bool, address: Address)
    | Remove(thread: ThreadId, obs: Observer)
    | Notify(thread: ThreadId)
    | RunTask(thread: ThreadId, ctx: Address)
    | DropTask(task: Task)
    | Proceed(thread: ThreadId)
    | Destroy

  /** Fault: a deleted context was dereferenced, or deleted again. */
  datatype Outcome = Next(state: State) | NotEnabled | Fault

  function Stack(s: State, t: ThreadId): seq<Frame> {
    if t in s.stacks then s.stacks[t] else []
  }

  function Push(s: State, t: ThreadId, f: Frame): State {
    s.(stacks := s.stacks[t := Stack(s, t) + [f]])
  }

  function Pop(s: State, t: ThreadId): State
    requires Stack(s, t) != []
  {
    s.(stacks := s.stacks[t := Stack(s, t)[..|Stack(s, t)| - 1]])
  }

  function Replace(s: State, t: ThreadId, f: Frame): State
    requires Stack(s, t) != []
  {
    Push(Pop(s, t), t, f)
  }

  function Free(s: State, c: Address): State {
    s.(heap := s.heap - {c}, deletes := s.deletes + 1)
  }

  /** Client code runs on a thread outside any library call, or from an observer being notified. */
  predicate ClientRuns(s: State, t: ThreadId) {
    Client(Stack(s, t))
  }

  predicate Client(k: seq<Frame>) {
    k == [] || k[|k| - 1].Iterating?
  }

  // ObserverListBase, on one context's list

  function ListAdd(list: seq<Slot>, obs: Observer): seq<Slot> {
    if Some(obs) in list then list else list + [Some(obs)]
  }

  function Find(list: seq<Slot>, x: Slot): (i: nat)
    requires x in list
    ensures i < |list| && list[i] == x
  {
    if list[0] == x then 0 else 1 + Find(list[1..], x)
  }

  function ListRemove(list: seq<Slot>, depth: int, obs: Observer): seq<Slot> {
    if Some(obs) !in list then list
    else
      var i := Find(list, Some(obs));
      if depth != 0 then list[i := None] else list[..i] + list[i + 1..]
  }

  function Compact(list: seq<Slot>): seq<Slot> {
    if list == [] then [] else (if list[0].None? then [] else [list[0]]) + Compact(list[1..])
  }

  /** The first index from `index` up to `limit` holding an observer, or `limit`. */
  function SkipEmpty(list: seq<Slot>, index: nat, limit: nat): (i: nat)
    requires limit <= |list|
    ensures index < limit ==> index <= i <= limit && (i < limit ==> list[i].Some?)
    ensures index >= limit ==> i == index
    decreases limit - index
  {
    if index < limit && list[index].None? then SkipEmpty(list, index + 1, limit) else index
  }

  function Act(s: State, a: Action): Outcome {
    if !s.alive then NotEnabled
    else match a
      case Add(t, obs, hasLoop, address) =>
        if !ClientRuns(s, t) then NotEnabled
        else if !hasLoop then Next(s)
        else if t in s.lists then
          if s.lists[t] in s.heap then Next(Push(s, t, AddToList(s.lists[t], obs))) else Fault
        else if address in s.heap then NotEnabled
        else
          var s' := s.(lists := s.lists[t := address], heap := s.heap[address := Context(t, [], 0)],
                       news := s.news + 1);
          Next(Push(s', t, AddToList(address, obs)))

      case Remove(t, obs) =>
        if !ClientRuns(s, t) then NotEnabled
        else if t !in s.lists then Next(s)
        else
          var c := s.lists[t];
          if c !in s.heap then Fault
          else
            var last := Some(obs) in s.heap[c].list && |s.heap[c].list| == 1;
            Next(Push(if last then s.(lists := s.lists - {t}) else s, t, RemoveFromList(c, obs)))

      case Notify(t) =>
        if !ClientRuns(s, t) then NotEnabled
        else if exists u :: u in s.lists && s.lists[u] !in s.heap then Fault
        else Next(s.(tasks := s.tasks + multiset(set u | u in s.lists :: Task(s.heap[s.lists[u]].owner, s.lists[u]))))

      case RunTask(t, c) =>
        if !ClientRuns(s, t) || Task(t, c) !in s.tasks then NotEnabled
        else
          var s' := s.(tasks := s.tasks - multiset{Task(t, c)});
          if t !in s.lists || s.lists[t] != c then Next(s') else Next(Push(s', t, WrapperStart(c)))

      case DropTask(task) =>
        if task in s.tasks then Next(s.(tasks := s.tasks - multiset{task})) else NotEnabled

      case Proceed(t) =>
        if Stack(s, t) == [] then NotEnabled else Step(s, t)

      case Destroy =>
        // the last reference is gone: tasks and running calls hold references
        if s.tasks != multiset{} || exists t :: t in s.stacks && s.stacks[t] != [] then NotEnabled
        else if exists t :: t in s.lists && s.lists[t] !in s.heap then Fault
        else if exists t, u :: t in s.lists && u in s.lists && t != u && s.lists[t] == s.lists[u] then Fault
        else Next(Destroyed(s))
  }

  /** Every context in the map is deleted. */
  function Destroyed(s: State): State {
    s.(lists := map[], heap := s.heap - s.lists.Values, alive := false, deletes := s.deletes + |s.lists|)
  }

  /** Where a pass ends, as GetNext takes it. */
  function Limit(f: Frame, x: Context): nat
    requires f.Iterating?
  {
    if f.bounded && f.maxIndex < |x.list| then f.maxIndex else |x.list|
  }

  /** GetNext, then either the next observer or the end of the iterator. */
  function Advance(s: State, t: ThreadId, f: Frame, x: Context): State
    requires Stack(s, t) != [] && f.Iterating?
  {
    var i := SkipEmpty(x.list, f.index, Limit(f, x));
    if i < Limit(f, x) then Replace(s, t, Iterating(f.ctx, i + 1, f.maxIndex, f.bounded))
    else Replace(s.(heap := s.heap[f.ctx := PassEnded(x)]), t, WrapperTest(f.ctx))
  }

  function PassEnded(x: Context): Context {
    x.(list := if x.depth - 1 == 0 then Compact(x.list) else x.list, depth := x.depth - 1)
  }

  /** What the innermost call on thread t does next. */
  function Step(s: State, t: ThreadId): Outcome
    requires Stack(s, t) != []
  {
    var k := Stack(s, t);
    var f := k[|k| - 1];
    var c := f.ctx;
    if c !in s.heap then Fault
    else
      var x := s.heap[c];
      match f
      case AddToList(_, obs) =>
        Next(Pop(s.(heap := s.heap[c := x.(list := ListAdd(x.list, obs))]), t))
      case RemoveFromList(_, obs) =>
        Next(Replace(s.(heap := s.heap[c := x.(list := ListRemove(x.list, x.depth, obs))]), t, RemoveTest(c)))
      case RemoveTest(_) =>
        Next(Pop(if x.list == [] then Free(s, c) else s, t))
      case WrapperStart(_) =>
        Next(Replace(s.(heap := s.heap[c := x.(depth := x.depth + 1)]), t,
                     Iterating(c, 0, |x.list|, s.kind.NotifyExistingOnly?)))
      case Iterating(_, _, _, _) =>
        Next(Advance(s, t, f, x))
      case WrapperTest(_) =>
        if x.list != [] then Next(Pop(s, t))
        else
          var s' := if t in s.lists && s.lists[t] == c then s.(lists := s.lists - {t}) else s;
          Next(Replace(s', t, WrapperDelete(c)))
      case WrapperDelete(_) =>
        Next(Pop(Free(s, c), t))
  }

  function Init(kind: NotificationType): State {
    State(kind, map[], map[], map[], multiset{}, true, 0, 0)
  }

  /** A run: actions that are not enabled have no effect; a fault stays. */
  function Run(s: State, actions: seq<Action>): Outcome
    decreases |actions|
  {
    if actions == [] then Next(s)
    else match Act(s, actions[0])
      case Next(s') => Run(s', actions[1..])
      case NotEnabled => Run(s, actions[1..])
      case Fault => Fault
  }

  // The invariant

  function Passes(k: seq<Frame>, c: Address): nat {
    if k == [] then 0
    else Passes(k[..|k| - 1], c) + (if k[|k| - 1].Iterating? && k[|k| - 1].ctx == c then 1 else 0)
  }

  predicate Mapped(s: State, t: ThreadId, c: Address) {
    t in s.lists && s.lists[t] == c
  }

  /** A context while client code runs: in the map with observers, or out of it, with its one
      slot cleared, kept only by the passes over it. */
  predicate Resting(x: Context, mapped: bool) {
    if mapped then x.list != [] else x.depth > 0 && x.list == [None]
  }

  /** What holds of context x at address c, given its thread's calls in progress. */
  predicate Fits(x: Context, c: Address, mapped: bool, k: seq<Frame>) {
    && x.depth == Passes(k, c)
    && (x.depth > 0 ==> x.list != [])
    && if k == [] || k[|k| - 1].ctx != c then Resting(x, mapped) else FitsTop(x, mapped, k[|k| - 1])
  }

  predicate FitsTop(x: Context, mapped: bool, top: Frame) {
    match top
    case AddToList(_, _) => mapped
    case RemoveFromList(_, obs) =>
      if mapped then x.list != [] && x.list != [Some(obs)] else x.list == [Some(obs)]
    case RemoveTest(_) => Resting(x, mapped) || (!mapped && x.list == [])
    case WrapperStart(_) => mapped && x.list != []
    case Iterating(_, _, _, _) => Resting(x, mapped)
    case WrapperTest(_) => Resting(x, mapped) || x.list == []
    case WrapperDelete(_) => !mapped && x.list == []
  }

  predicate ContextOk(s: State, c: Address)
    requires c in s.heap
  {
    var x := s.heap[c];
    Fits(x, c, Mapped(s, x.owner, c), Stack(s, x.owner))
  }

  predicate StackOk(s: State, t: ThreadId) {
    var k := Stack(s, t);
    && (forall i :: 0 <= i < |k| ==> k[i].ctx in s.heap && s.heap[k[i].ctx].owner == t)
    && (forall i :: 0 <= i < |k| - 1 ==> k[i].Iterating?)
  }

  ghost predicate Inv(s: State) {
    && (forall t :: t in s.lists ==> s.lists[t] in s.heap && s.heap[s.lists[t]].owner == t)
    && (forall t :: StackOk(s, t))
    && (forall c :: c in s.heap ==> ContextOk(s, c))
    && s.news == s.deletes + |s.heap|
    && (!s.alive ==> s.heap == map[])
  }

  // Preservation, one action at a time

  lemma {:induction false} PassesZero(k: seq<Frame>, c: Address, i: nat)
    requires Passes(k, c) == 0 && i < |k|
    ensures !(k[i].Iterating? && k[i].ctx == c)
  {
    if i < |k| - 1 {
      PassesZero(k[..|k| - 1], c, i);
    }
  }

  lemma PassesPush(k: seq<Frame>, f: Frame, c: Address)
    ensures Passes(k + [f], c) == Passes(k, c) + (if f.Iterating? && f.ctx == c then 1 else 0)
  {
    assert (k + [f])[..|k|] == k;
  }

  /** A context other than the one the innermost calls concern does not notice them. */
  lemma FitsAside(x: Context, d: Address, mapped: bool, k: seq<Frame>, f: Frame)
    requires f.ctx != d && Client(k)
    ensures Fits(x, d, mapped, k + [f]) <==> Fits(x, d, mapped, k)
  {
    PassesPush(k, f, d);
  }

  /** One action of thread t changed its stack, its entry in the map and the context at c. */
  ghost predicate Touches(s: State, s': State, t: ThreadId, c: Address) {
    && (forall u :: u != t ==> Stack(s', u) == Stack(s, u))
    && (forall u :: u != t ==> (u in s'.lists <==> u in s.lists))
    && (forall u :: u != t && u in s.lists && u in s'.lists ==> s'.lists[u] == s.lists[u])
    && (forall d :: d != c ==> (d in s'.heap <==> d in s.heap))
    && (forall d :: d != c && d in s.heap && d in s'.heap ==> s'.heap[d] == s.heap[d])
    && (c in s.heap ==> s.heap[c].owner == t)
    && (c in s'.heap ==> s'.heap[c].owner == t)
  }

  /** The contexts of thread t other than c fit its calls. */
  ghost predicate OthersFit(s: State, s': State, t: ThreadId, c: Address) {
    forall d :: d in s.heap && d != c && s.heap[d].owner == t ==> Fits(s.heap[d], d, Mapped(s', t, d), Stack(s', t))
  }

  predicate SelfFits(s: State, t: ThreadId, c: Address) {
    c in s.heap ==> Fits(s.heap[c], c, Mapped(s, t, c), Stack(s, t))
  }

  predicate EntryOk(s: State, t: ThreadId) {
    t in s.lists ==> s.lists[t] in s.heap && s.heap[s.lists[t]].owner == t
  }

  predicate Counted(s: State) {
    s.news == s.deletes + |s.heap|
  }

  lemma TouchesOnly(s: State, s': State, t: ThreadId, c: Address, k: seq<Frame>)
    requires s'.stacks == s.stacks[t := k]
    requires EntryMoves(s, s', t, c)
    requires c in s.heap ==> s.heap[c].owner == t
    requires HeapMoves(s, s', t, c)
    ensures Touches(s, s', t, c)
  {
  }

  /** Another thread's calls still hold contexts of that thread. */
  lemma OtherStack(s: State, s': State, t: ThreadId, c: Address, u: ThreadId)
    requires StackOk(s, u) && Touches(s, s', t, c) && u != t
    ensures StackOk(s', u)
  {
    var k := Stack(s, u);
    assert Stack(s', u) == k;
    forall i | 0 <= i < |k| ensures k[i].ctx in s'.heap && s'.heap[k[i].ctx].owner == u {
      assert k[i].ctx in s.heap && s.heap[k[i].ctx].owner == u;
    }
  }

  lemma OtherContext(s: State, s': State, t: ThreadId, c: Address, d: Address)
    requires Touches(s, s', t, c) && d in s.heap && d in s'.heap && s.heap[d].owner != t && ContextOk(s, d)
    ensures ContextOk(s', d)
  {
    hide Fits;
    assert s'.heap[d] == s.heap[d];
  }

  lemma Assemble(s: State, s': State, t: ThreadId, c: Address)
    requires Inv(s) && Touches(s, s', t, c) && s'.alive
    requires EntryOk(s', t) && StackOk(s', t) && SelfFits(s', t, c) && OthersFit(s, s', t, c) && Counted(s')
    ensures Inv(s')
  {
    hide Fits, StackOk;
    forall u ensures StackOk(s', u) {
      if u != t { OtherStack(s, s', t, c, u); }
    }
    forall d | d in s'.heap ensures ContextOk(s', d) {
      if d != c && s.heap[d].owner != t { OtherContext(s, s', t, c, d); }
    }
    forall u | u in s'.lists ensures s'.lists[u] in s'.heap && s'.heap[s'.lists[u]].owner == u {
      if u != t {
        assert s.lists[u] in s.heap && s.heap[s.lists[u]].owner == u;
      }
    }
  }

  ghost predicate HeapKept(s: State, s': State) {
    forall d :: d in s.heap ==> d in s'.heap && s'.heap[d].owner == s.heap[d].owner
  }

  /** The context at c goes, comes or changes. */
  predicate HeapMoves(s: State, s': State, t: ThreadId, c: Address) {
    s'.heap == s.heap - {c} || (c in s'.heap && s'.heap[c].owner == t && s'.heap == s.heap[c := s'.heap[c]])
  }

  /** The map entry of thread t stays, goes, or comes to name c. */
  predicate EntryMoves(s: State, s': State, t: ThreadId, c: Address) {
    || s'.lists == s.lists
    || (t !in s.lists && s'.lists == s.lists[t := c])
    || (Mapped(s, t, c) && s'.lists == s.lists - {t})
  }

  /** The contexts of thread t other than c, when a call over c begins on it. */
  lemma AsidePush(s: State, s': State, t: ThreadId, f: Frame)
    requires Inv(s) && ClientRuns(s, t) && Stack(s', t) == Stack(s, t) + [f]
    requires EntryMoves(s, s', t, f.ctx)
    ensures OthersFit(s, s', t, f.ctx)
  {
    forall d | d in s.heap && d != f.ctx && s.heap[d].owner == t
      ensures Fits(s.heap[d], d, Mapped(s', t, d), Stack(s', t))
    {
      hide Fits;
      assert ContextOk(s, d);
      FitsAside(s.heap[d], d, Mapped(s', t, d), Stack(s, t), f);
    }
  }

  /** The same when the innermost call, over c, moves on. */
  lemma AsideReplace(s: State, s': State, t: ThreadId, k: seq<Frame>, f: Frame, f': Frame)
    requires Inv(s) && Stack(s, t) == k + [f] && Stack(s', t) == k + [f'] && f'.ctx == f.ctx
    requires EntryMoves(s, s', t, f.ctx)
    ensures OthersFit(s, s', t, f.ctx)
  {
    assert Client(k) by { assert StackOk(s, t); assert k != [] ==> (k + [f])[|k| - 1].Iterating?; }
    forall d | d in s.heap && d != f.ctx && s.heap[d].owner == t
      ensures Fits(s.heap[d], d, Mapped(s', t, d), Stack(s', t))
    {
      hide Fits;
      assert ContextOk(s, d);
      FitsAside(s.heap[d], d, Mapped(s', t, d), k, f);
      FitsAside(s.heap[d], d, Mapped(s', t, d), k, f');
    }
  }

  /** The same when it returns. */
  lemma AsidePop(s: State, s': State, t: ThreadId, k: seq<Frame>, f: Frame)
    requires Inv(s) && Stack(s, t) == k + [f] && Stack(s', t) == k
    requires EntryMoves(s, s', t, f.ctx)
    ensures OthersFit(s, s', t, f.ctx)
  {
    assert Client(k) by { assert StackOk(s, t); assert k != [] ==> (k + [f])[|k| - 1].Iterating?; }
    forall d | d in s.heap && d != f.ctx && s.heap[d].owner == t
      ensures Fits(s.heap[d], d, Mapped(s', t, d), Stack(s', t))
    {
      hide Fits;
      assert ContextOk(s, d);
      FitsAside(s.heap[d], d, Mapped(s', t, d), k, f);
    }
  }

  lemma StackPush(s: State, s': State, t: ThreadId, f: Frame)
    requires StackOk(s, t) && ClientRuns(s, t) && Stack(s', t) == Stack(s, t) + [f]
    requires HeapKept(s, s')
    requires f.ctx in s'.heap && s'.heap[f.ctx].owner == t
    ensures StackOk(s', t)
  {
  }

  lemma StackTail(s: State, s': State, t: ThreadId, k: seq<Frame>, f: Frame, tail: seq<Frame>)
    requires StackOk(s, t) && Stack(s, t) == k + [f] && Stack(s', t) == k + tail
    requires HeapKept(s, s')
    requires tail == [] || (|tail| == 1 && tail[0].ctx == f.ctx)
    ensures StackOk(s', t)
  {
    var k' := Stack(s, t);
    forall i | 0 <= i < |k| ensures k[i].ctx in s'.heap && s'.heap[k[i].ctx].owner == t && k[i].Iterating? {
      assert k'[i] == k[i] && k'[i].Iterating?;
    }
    assert k'[|k|] == f;
  }

  /** What the invariant says of the innermost call on t. */
  lemma Innermost(s: State, t: ThreadId, k: seq<Frame>, f: Frame)
    requires Inv(s) && Stack(s, t) == k + [f]
    ensures StackOk(s, t) && Client(k)
    ensures f.ctx in s.heap && s.heap[f.ctx].owner == t
    ensures var x := s.heap[f.ctx];
            && x.depth == Passes(k, f.ctx) + (if f.Iterating? then 1 else 0)
            && (x.depth > 0 ==> x.list != [])
            && FitsTop(x, Mapped(s, t, f.ctx), f)
  {
    assert StackOk(s, t) && (k + [f])[|k|] == f;
    assert k != [] ==> (k + [f])[|k| - 1].Iterating?;
    assert ContextOk(s, f.ctx);
    PassesPush(k, f, f.ctx);
  }

  lemma Books(s: State, t: ThreadId)
    requires Inv(s)
    ensures t in s.lists ==> s.lists[t] in s.heap && s.heap[s.lists[t]].owner == t
    ensures s.news == s.deletes + |s.heap.Keys|
  {
  }

  lemma FitsMake(x: Context, mapped: bool, k: seq<Frame>, f: Frame)
    requires x.depth == Passes(k, f.ctx) + (if f.Iterating? then 1 else 0)
    requires (x.depth > 0 ==> x.list != []) && FitsTop(x, mapped, f)
    ensures Fits(x, f.ctx, mapped, k + [f])
  {
    PassesPush(k, f, f.ctx);
  }

  lemma FitsRested(x: Context, c: Address, mapped: bool, k: seq<Frame>)
    requires Client(k) && x.depth == Passes(k, c) && x.list != [] && Resting(x, mapped)
    ensures Fits(x, c, mapped, k)
  {
  }

  lemma CallKeeps(s: State, s': State, t: ThreadId, f: Frame)
    requires Inv(s) && s.alive && ClientRuns(s, t) && !f.Iterating?
    requires f.ctx in s.heap && s.heap[f.ctx].owner == t
    requires s'.stacks == s.stacks[t := Stack(s, t) + [f]] && s'.heap == s.heap
    requires s'.lists == s.lists || (Mapped(s, t, f.ctx) && s'.lists == s.lists - {t})
    requires s'.alive && s'.news == s.news && s'.deletes == s.deletes
    requires FitsTop(s.heap[f.ctx], Mapped(s', t, f.ctx), f)
    ensures Inv(s')
  {
    assert StackOk(s, t) && ContextOk(s, f.ctx);
    FitsMake(s.heap[f.ctx], Mapped(s', t, f.ctx), Stack(s, t), f);
    assert Stack(s', t) == Stack(s, t) + [f];
    assert SelfFits(s', t, f.ctx) && EntryOk(s', t) && Counted(s');
    assert EntryMoves(s, s', t, f.ctx) && HeapMoves(s, s', t, f.ctx) && HeapKept(s, s');
    hide *;
    TouchesOnly(s, s', t, f.ctx, Stack(s, t) + [f]);
    AsidePush(s, s', t, f);
    StackPush(s, s', t, f);
    Assemble(s, s', t, f.ctx);
  }

  lemma AddKeeps(s: State, t: ThreadId, obs: Observer, address: Address)
    requires Inv(s) && s.alive && ClientRuns(s, t)
    ensures var o := Act(s, Add(t, obs, true, address)); !o.Fault? && (o.Next? ==> Inv(o.state))
  {
    assert StackOk(s, t);
    if t in s.lists {
      CallKeeps(s, Act(s, Add(t, obs, true, address)).state, t, AddToList(s.lists[t], obs));
    } else if address !in s.heap {
      NewContextKeeps(s, Act(s, Add(t, obs, true, address)).state, t, AddToList(address, obs));
    }
  }

  lemma NewContextKeeps(s: State, s': State, t: ThreadId, f: Frame)
    requires Inv(s) && s.alive && ClientRuns(s, t) && t !in s.lists && f.ctx !in s.heap && f.AddToList?
    requires s' == s.(stacks := s.stacks[t := Stack(s, t) + [f]], lists := s.lists[t := f.ctx],
                      heap := s.heap[f.ctx := Context(t, [], 0)], news := s.news + 1)
    ensures Inv(s')
  {
    NewContextFits(s, s', t, f);
    NewContextBooks(s, s', t, f);
    var k := Stack(s, t);
    hide *;
    TouchesOnly(s, s', t, f.ctx, k + [f]);
    AsidePush(s, s', t, f);
    StackPush(s, s', t, f);
    Assemble(s, s', t, f.ctx);
  }

  lemma NewContextFits(s: State, s': State, t: ThreadId, f: Frame)
    requires Inv(s) && ClientRuns(s, t) && t !in s.lists && f.ctx !in s.heap && f.AddToList?
    requires s'.stacks == s.stacks[t := Stack(s, t) + [f]] && s'.lists == s.lists[t := f.ctx]
    requires s'.heap == s.heap[f.ctx := Context(t, [], 0)]
    ensures Stack(s', t) == Stack(s, t) + [f] && SelfFits(s', t, f.ctx)
  {
    var k := Stack(s, t);
    assert StackOk(s, t);
    hide Inv;
    NoPasses(k, f.ctx);
    FitsMake(Context(t, [], 0), true, k, f);
    hide Fits, Passes, StackOk;
    assert Stack(s', t) == k + [f];
  }

  lemma NewContextBooks(s: State, s': State, t: ThreadId, f: Frame)
    requires Inv(s) && t !in s.lists && f.ctx !in s.heap
    requires s'.lists == s.lists[t := f.ctx] && s'.heap == s.heap[f.ctx := Context(t, [], 0)]
    requires s'.news == s.news + 1 && s'.deletes == s.deletes
    ensures EntryOk(s', t) && Counted(s')
    ensures EntryMoves(s, s', t, f.ctx) && HeapMoves(s, s', t, f.ctx) && HeapKept(s, s')
  {
    assert s.news == s.deletes + |s.heap|;
    hide Inv;
    assert s'.heap.Keys == s.heap.Keys + {f.ctx};
  }

  lemma {:induction false} NoPasses(k: seq<Frame>, c: Address)
    requires forall i :: 0 <= i < |k| ==> k[i].ctx != c
    ensures Passes(k, c) == 0
  {
    if k != [] {
      NoPasses(k[..|k| - 1], c);
    }
  }

  lemma RemoveKeeps(s: State, t: ThreadId, obs: Observer)
    requires Inv(s) && s.alive && ClientRuns(s, t)
    ensures var o := Act(s, Remove(t, obs)); o.Next? && Inv(o.state)
  {
    if t in s.lists {
      var c := s.lists[t];
      assert StackOk(s, t) && ContextOk(s, c) && Mapped(s, t, c);
      var x := s.heap[c];
      assert |x.list| == 1 ==> x.list == [x.list[0]];
      CallKeeps(s, Act(s, Remove(t, obs)).state, t, RemoveFromList(c, obs));
    }
  }

  lemma RunTaskKeeps(s: State, t: ThreadId, c: Address)
    requires Inv(s) && s.alive
    ensures var o := Act(s, RunTask(t, c)); !o.Fault? && (o.Next? ==> Inv(o.state))
  {
    if ClientRuns(s, t) && Task(t, c) in s.tasks {
      var s1 := s.(tasks := s.tasks - multiset{Task(t, c)});
      TasksAside(s, s1);
      if t in s.lists && s.lists[t] == c {
        assert StackOk(s1, t) && ContextOk(s1, c) && Mapped(s1, t, c);
        CallKeeps(s1, Act(s, RunTask(t, c)).state, t, WrapperStart(c));
      }
    }
  }

  /** Posted tasks hold no claim on a context. */
  lemma TasksAside(s: State, s': State)
    requires Inv(s) && s' == s.(tasks := s'.tasks)
    ensures Inv(s')
  {
    forall t ensures StackOk(s', t) {
      assert StackOk(s, t);
    }
    forall c | c in s'.heap ensures ContextOk(s', c) {
      assert ContextOk(s, c);
    }
  }

  lemma UpdatePremises(s: State, s': State, t: ThreadId, c: Address, x: Context)
    requires Inv(s) && c in s.heap && s.heap[c].owner == t && x.owner == t
    requires s'.heap == s.heap[c := x] && s'.news == s.news && s'.deletes == s.deletes
    requires s'.lists == s.lists || (Mapped(s, t, c) && s'.lists == s.lists - {t})
    ensures EntryOk(s', t) && Counted(s')
    ensures EntryMoves(s, s', t, c) && HeapMoves(s, s', t, c) && HeapKept(s, s')
  {
    Books(s, t);
    hide Inv;
    assert s'.heap.Keys == s.heap.Keys;
    assert s'.heap[c] == x;
  }

  lemma MovePremises(s: State, s': State, t: ThreadId, k: seq<Frame>, f: Frame, f': Frame, x: Context)
    requires Inv(s) && s.alive && Stack(s, t) == k + [f] && f'.ctx == f.ctx
    requires f.ctx in s.heap && x.owner == t
    requires s'.stacks == s.stacks[t := k + [f']] && s'.heap == s.heap[f.ctx := x]
    requires s'.lists == s.lists || (Mapped(s, t, f.ctx) && s'.lists == s.lists - {t})
    requires s'.alive && s'.news == s.news && s'.deletes == s.deletes
    requires x.depth - s.heap[f.ctx].depth == (if f'.Iterating? then 1 else 0) - (if f.Iterating? then 1 else 0)
    requires x.depth > 0 ==> x.list != []
    requires FitsTop(x, Mapped(s', t, f.ctx), f')
    ensures Stack(s', t) == k + [f']
    ensures SelfFits(s', t, f.ctx) && EntryOk(s', t) && Counted(s')
    ensures EntryMoves(s, s', t, f.ctx) && HeapMoves(s, s', t, f.ctx) && HeapKept(s, s')
  {
    Innermost(s, t, k, f);
    UpdatePremises(s, s', t, f.ctx, x);
    hide Inv, StackOk, FitsTop, EntryOk, EntryMoves, HeapMoves, HeapKept, Counted;
    FitsMake(x, Mapped(s', t, f.ctx), k, f');
  }

  /** The innermost call on t, over c, moves from f to f'. */
  lemma MoveKeeps(s: State, s': State, t: ThreadId, k: seq<Frame>, f: Frame, f': Frame, x: Context)
    requires Inv(s) && s.alive && Stack(s, t) == k + [f] && f'.ctx == f.ctx
    requires f.ctx in s.heap && x.owner == t
    requires s'.stacks == s.stacks[t := k + [f']] && s'.heap == s.heap[f.ctx := x]
    requires s'.lists == s.lists || (Mapped(s, t, f.ctx) && s'.lists == s.lists - {t})
    requires s'.alive && s'.news == s.news && s'.deletes == s.deletes
    requires x.depth - s.heap[f.ctx].depth == (if f'.Iterating? then 1 else 0) - (if f.Iterating? then 1 else 0)
    requires x.depth > 0 ==> x.list != []
    requires FitsTop(x, Mapped(s', t, f.ctx), f')
    ensures Inv(s')
  {
    hide *;
    MovePremises(s, s', t, k, f, f', x);
    Innermost(s, t, k, f);
    TouchesOnly(s, s', t, f.ctx, k + [f']);
    AsideReplace(s, s', t, k, f, f');
    StackTail(s, s', t, k, f, [f']);
    Assemble(s, s', t, f.ctx);
  }

  lemma ReturnPremises(s: State, s': State, t: ThreadId, k: seq<Frame>, f: Frame, x: Context)
    requires Inv(s) && s.alive && Stack(s, t) == k + [f] && !f.Iterating?
    requires f.ctx in s.heap && x.owner == t && x.depth == s.heap[f.ctx].depth
    requires s'.stacks == s.stacks[t := k] && s'.heap == s.heap[f.ctx := x] && s'.lists == s.lists
    requires s'.alive && s'.news == s.news && s'.deletes == s.deletes
    requires Resting(x, Mapped(s, t, f.ctx)) && x.list != []
    ensures Stack(s', t) == k
    ensures SelfFits(s', t, f.ctx) && EntryOk(s', t) && Counted(s')
    ensures EntryMoves(s, s', t, f.ctx) && HeapMoves(s, s', t, f.ctx) && HeapKept(s, s')
  {
    Innermost(s, t, k, f);
    UpdatePremises(s, s', t, f.ctx, x);
    hide Inv, StackOk, FitsTop, EntryOk, EntryMoves, HeapMoves, HeapKept, Counted;
    FitsRested(x, f.ctx, Mapped(s, t, f.ctx), k);
  }

  /** The innermost call on t, over c, returns, leaving c alive. */
  lemma ReturnKeeps(s: State, s': State, t: ThreadId, k: seq<Frame>, f: Frame, x: Context)
    requires Inv(s) && s.alive && Stack(s, t) == k + [f] && !f.Iterating?
    requires f.ctx in s.heap && x.owner == t && x.depth == s.heap[f.ctx].depth
    requires s'.stacks == s.stacks[t := k] && s'.heap == s.heap[f.ctx := x] && s'.lists == s.lists
    requires s'.alive && s'.news == s.news && s'.deletes == s.deletes
    requires Resting(x, Mapped(s, t, f.ctx)) && x.list != []
    ensures Inv(s')
  {
    hide *;
    ReturnPremises(s, s', t, k, f, x);
    Innermost(s, t, k, f);
    TouchesOnly(s, s', t, f.ctx, k);
    AsidePop(s, s', t, k, f);
    assert k + [] == k;
    StackTail(s, s', t, k, f, []);
    Assemble(s, s', t, f.ctx);
  }

  lemma DeletePremises(s: State, s': State, t: ThreadId, k: seq<Frame>, f: Frame)
    requires Inv(s) && Stack(s, t) == k + [f] && (f.RemoveTest? || f.WrapperDelete?)
    requires f.ctx in s.heap && s.heap[f.ctx].list == [] && s' == Pop(Free(s, f.ctx), t)
    ensures s'.stacks == s.stacks[t := k] && Stack(s', t) == k && StackOk(s', t)
    ensures SelfFits(s', t, f.ctx) && EntryOk(s', t) && Counted(s')
    ensures EntryMoves(s, s', t, f.ctx) && HeapMoves(s, s', t, f.ctx)
  {
    assert (k + [f])[..|k|] == k;
    assert s' == s.(stacks := s.stacks[t := k], heap := s.heap - {f.ctx}, deletes := s.deletes + 1);
    hide Pop, Free;
    DeleteFits(s, s', t, k, f);
    DeleteBooks(s, s', t, k, f);
  }

  lemma DeleteFits(s: State, s': State, t: ThreadId, k: seq<Frame>, f: Frame)
    requires Inv(s) && Stack(s, t) == k + [f] && (f.RemoveTest? || f.WrapperDelete?)
    requires f.ctx in s.heap && s.heap[f.ctx].list == []
    requires s'.stacks == s.stacks[t := k] && s'.heap == s.heap - {f.ctx}
    ensures Stack(s', t) == k && StackOk(s', t) && SelfFits(s', t, f.ctx)
  {
    Innermost(s, t, k, f);
    hide Inv, FitsTop, Resting, Passes;
    StackFreed(s, s', t, k, f);
  }

  lemma DeleteBooks(s: State, s': State, t: ThreadId, k: seq<Frame>, f: Frame)
    requires Inv(s) && Stack(s, t) == k + [f] && (f.RemoveTest? || f.WrapperDelete?)
    requires f.ctx in s.heap && s.heap[f.ctx].list == []
    requires s'.lists == s.lists && s'.heap == s.heap - {f.ctx} && s'.news == s.news && s'.deletes == s.deletes + 1
    ensures EntryOk(s', t) && Counted(s') && EntryMoves(s, s', t, f.ctx) && HeapMoves(s, s', t, f.ctx)
  {
    Innermost(s, t, k, f);
    Books(s, t);
    hide Inv, StackOk, Passes;
    FreedBooks(s, s', f.ctx);
  }

  lemma FreedBooks(s: State, s': State, c: Address)
    requires c in s.heap && s'.heap == s.heap - {c} && s'.news == s.news && s'.deletes == s.deletes + 1
    requires s.news == s.deletes + |s.heap.Keys|
    ensures Counted(s')
  {
    assert s.heap.Keys == s'.heap.Keys + {c};
  }

  /** The innermost call on t returns, deleting its context. */
  lemma DeleteKeeps(s: State, t: ThreadId, k: seq<Frame>, f: Frame)
    requires Inv(s) && s.alive && Stack(s, t) == k + [f] && (f.RemoveTest? || f.WrapperDelete?)
    requires f.ctx in s.heap && s.heap[f.ctx].list == []
    ensures Inv(Pop(Free(s, f.ctx), t))
  {
    var c := f.ctx;
    var s' := Pop(Free(s, c), t);
    DeletePremises(s, s', t, k, f);
    assert s'.alive;
    hide *;
    Innermost(s, t, k, f);
    TouchesOnly(s, s', t, c, k);
    AsidePop(s, s', t, k, f);
    Assemble(s, s', t, c);
  }

  lemma StackFreed(s: State, s': State, t: ThreadId, k: seq<Frame>, f: Frame)
    requires StackOk(s, t) && Stack(s, t) == k + [f] && Stack(s', t) == k
    requires s'.heap == s.heap - {f.ctx} && Passes(k, f.ctx) == 0
    ensures StackOk(s', t)
  {
    forall i | 0 <= i < |k| ensures k[i].ctx in s'.heap && s'.heap[k[i].ctx].owner == t && k[i].Iterating? {
      assert (k + [f])[i] == k[i];
      PassesZero(k, f.ctx, i);
    }
  }

  lemma ListRemoveLength(list: seq<Slot>, depth: int, obs: Observer)
    requires list != []
    ensures list != [Some(obs)] ==> ListRemove(list, depth, obs) != []
    ensures list == [Some(obs)] ==> ListRemove(list, depth, obs) == (if depth != 0 then [None] else [])
    ensures Some(obs) !in list ==> ListRemove(list, depth, obs) == list
    ensures depth != 0 ==> |ListRemove(list, depth, obs)| == |list|
  {
  }

  lemma StepKeeps(s: State, t: ThreadId)
    requires Inv(s) && s.alive && Stack(s, t) != []
    ensures Step(s, t).Next? && Inv(Step(s, t).state)
  {
    var all := Stack(s, t);
    var k, f := all[..|all| - 1], all[|all| - 1];
    assert all == k + [f];
    hide Inv, Step, Stack;
    match f
    case AddToList(_, obs) => AddToListKeeps(s, t, k, f);
    case RemoveFromList(_, obs) => RemoveFromListStepKeeps(s, t, k, f);
    case RemoveTest(_) => RemoveTestKeeps(s, t, k, f);
    case WrapperStart(_) => WrapperStartKeeps(s, t, k, f);
    case Iterating(_, _, _, _) => IteratingKeeps(s, t, k, f);
    case WrapperTest(_) => WrapperTestKeeps(s, t, k, f);
    case WrapperDelete(_) => WrapperDeleteKeeps(s, t, k, f);
  }

  lemma AddToListKeeps(s: State, t: ThreadId, k: seq<Frame>, f: Frame)
    requires Inv(s) && s.alive && Stack(s, t) == k + [f] && f.AddToList?
    ensures Step(s, t).Next? && Inv(Step(s, t).state)
  {
    Innermost(s, t, k, f);
    hide Inv, Passes, StackOk;
    var x := s.heap[f.ctx];
    assert (k + [f])[..|k|] == k;
    ReturnKeeps(s, Step(s, t).state, t, k, f, x.(list := ListAdd(x.list, f.obs)));
  }

  lemma RemoveFromListStepKeeps(s: State, t: ThreadId, k: seq<Frame>, f: Frame)
    requires Inv(s) && s.alive && Stack(s, t) == k + [f] && f.RemoveFromList?
    ensures Step(s, t).Next? && Inv(Step(s, t).state)
  {
    Innermost(s, t, k, f);
    hide Inv, Passes, StackOk, FitsTop;
    RemoveFromListKeeps(s, t, k, f, s.heap[f.ctx]);
  }

  lemma RemoveTestKeeps(s: State, t: ThreadId, k: seq<Frame>, f: Frame)
    requires Inv(s) && s.alive && Stack(s, t) == k + [f] && f.RemoveTest?
    ensures Step(s, t).Next? && Inv(Step(s, t).state)
  {
    Innermost(s, t, k, f);
    hide Inv, Passes, StackOk;
    var x := s.heap[f.ctx];
    assert (k + [f])[..|k|] == k;
    if x.list == [] {
      DeleteKeeps(s, t, k, f);
    } else {
      assert s.heap[f.ctx := x] == s.heap;
      ReturnKeeps(s, Step(s, t).state, t, k, f, x);
    }
  }

  lemma WrapperStartKeeps(s: State, t: ThreadId, k: seq<Frame>, f: Frame)
    requires Inv(s) && s.alive && Stack(s, t) == k + [f] && f.WrapperStart?
    ensures Step(s, t).Next? && Inv(Step(s, t).state)
  {
    PassBegins(s, t, k, f);
    var x := s.heap[f.ctx];
    var f' := Iterating(f.ctx, 0, |x.list|, s.kind.NotifyExistingOnly?);
    var x' := x.(depth := x.depth + 1);
    assert Step(s, t) == Next(Replace(s.(heap := s.heap[f.ctx := x']), t, f'));
    hide *;
    ReplaceKeeps(s, s.(heap := s.heap[f.ctx := x']), t, k, f, f', x');
  }

  lemma PassBegins(s: State, t: ThreadId, k: seq<Frame>, f: Frame)
    requires Inv(s) && Stack(s, t) == k + [f] && f.WrapperStart?
    ensures f.ctx in s.heap && s.heap[f.ctx].owner == t && s.heap[f.ctx].list != []
    ensures var x := s.heap[f.ctx];
            FitsTop(x.(depth := x.depth + 1), Mapped(s, t, f.ctx),
                    Iterating(f.ctx, 0, |x.list|, s.kind.NotifyExistingOnly?))
    ensures forall s1: State :: s1.lists == s.lists ==> Mapped(s1, t, f.ctx) == Mapped(s, t, f.ctx)
  {
    Innermost(s, t, k, f);
    hide Inv, Passes, StackOk;
  }

  lemma IteratingKeeps(s: State, t: ThreadId, k: seq<Frame>, f: Frame)
    requires Inv(s) && s.alive && Stack(s, t) == k + [f] && f.Iterating?
    ensures Step(s, t).Next? && Inv(Step(s, t).state)
  {
    Innermost(s, t, k, f);
    hide Inv, Passes, StackOk, FitsTop, Advance;
    AdvanceKeeps(s, t, k, f, s.heap[f.ctx]);
  }

  lemma WrapperTestKeeps(s: State, t: ThreadId, k: seq<Frame>, f: Frame)
    requires Inv(s) && s.alive && Stack(s, t) == k + [f] && f.WrapperTest?
    ensures Step(s, t).Next? && Inv(Step(s, t).state)
  {
    Innermost(s, t, k, f);
    hide Inv, Passes, StackOk;
    var x := s.heap[f.ctx];
    assert (k + [f])[..|k|] == k && s.heap[f.ctx := x] == s.heap;
    if x.list != [] {
      ReturnKeeps(s, Step(s, t).state, t, k, f, x);
    } else {
      ReplaceKeeps(s, if Mapped(s, t, f.ctx) then s.(lists := s.lists - {t}) else s, t, k, f, WrapperDelete(f.ctx), x);
    }
  }

  lemma WrapperDeleteKeeps(s: State, t: ThreadId, k: seq<Frame>, f: Frame)
    requires Inv(s) && s.alive && Stack(s, t) == k + [f] && f.WrapperDelete?
    ensures Step(s, t).Next? && Inv(Step(s, t).state)
  {
    Innermost(s, t, k, f);
    hide Inv, Passes, StackOk;
    DeleteKeeps(s, t, k, f);
  }

  /** The innermost call moves on, s1 being s with its other effects applied. */
  lemma ReplaceKeeps(s: State, s1: State, t: ThreadId, k: seq<Frame>, f: Frame, f': Frame, x: Context)
    requires Inv(s) && s.alive && Stack(s, t) == k + [f] && f'.ctx == f.ctx
    requires f.ctx in s.heap && x.owner == t
    requires s1 == s.(heap := s.heap[f.ctx := x], lists := s1.lists)
    requires s1.lists == s.lists || (Mapped(s, t, f.ctx) && s1.lists == s.lists - {t})
    requires x.depth - s.heap[f.ctx].depth == (if f'.Iterating? then 1 else 0) - (if f.Iterating? then 1 else 0)
    requires x.depth > 0 ==> x.list != []
    requires FitsTop(x, Mapped(s1, t, f.ctx), f')
    ensures Inv(Replace(s1, t, f'))
  {
    hide Inv, FitsTop;
    var s' := Replace(s1, t, f');
    assert (k + [f])[..|k|] == k;
    assert s.stacks[t := k][t := k + [f']] == s.stacks[t := k + [f']];
    MoveKeeps(s, s', t, k, f, f', x);
  }

  lemma RemoveFromListKeeps(s: State, t: ThreadId, k: seq<Frame>, f: Frame, x: Context)
    requires Inv(s) && s.alive && Stack(s, t) == k + [f] && f.RemoveFromList? && f.ctx in s.heap && x == s.heap[f.ctx]
    ensures var x' := x.(list := ListRemove(x.list, x.depth, f.obs));
            Inv(Replace(s.(heap := s.heap[f.ctx := x']), t, RemoveTest(f.ctx)))
  {
    Innermost(s, t, k, f);
    hide Inv, Passes, StackOk, ListRemove;
    ListRemoveLength(x.list, x.depth, f.obs);
    var x' := x.(list := ListRemove(x.list, x.depth, f.obs));
    ReplaceKeeps(s, s.(heap := s.heap[f.ctx := x']), t, k, f, RemoveTest(f.ctx), x');
  }

  lemma AdvanceKeeps(s: State, t: ThreadId, k: seq<Frame>, f: Frame, x: Context)
    requires Inv(s) && s.alive && Stack(s, t) == k + [f] && f.Iterating? && f.ctx in s.heap && x == s.heap[f.ctx]
    ensures Inv(Advance(s, t, f, x))
  {
    hide Inv, Replace, PassEnded;
    var i := SkipEmpty(x.list, f.index, Limit(f, x));
    if i < Limit(f, x) {
      NextObserverKeeps(s, t, k, f, i + 1);
    } else {
      LastObserverKeeps(s, t, k, f);
    }
  }

  lemma NextObserverKeeps(s: State, t: ThreadId, k: seq<Frame>, f: Frame, i: nat)
    requires Inv(s) && s.alive && Stack(s, t) == k + [f] && f.Iterating?
    ensures Inv(Replace(s, t, Iterating(f.ctx, i, f.maxIndex, f.bounded)))
  {
    Innermost(s, t, k, f);
    hide Inv, Passes, StackOk;
    ReplaceKeeps(s, s, t, k, f, Iterating(f.ctx, i, f.maxIndex, f.bounded), s.heap[f.ctx]);
  }

  lemma LastObserverKeeps(s: State, t: ThreadId, k: seq<Frame>, f: Frame)
    requires Inv(s) && s.alive && Stack(s, t) == k + [f] && f.Iterating? && f.ctx in s.heap
    ensures Inv(Replace(s.(heap := s.heap[f.ctx := PassEnded(s.heap[f.ctx])]), t, WrapperTest(f.ctx)))
  {
    Innermost(s, t, k, f);
    hide Inv, Passes, StackOk;
    var x := s.heap[f.ctx];
    PassEndedFits(x, f, Mapped(s, t, f.ctx));
    hide FitsTop, PassEnded;
    ReplaceKeeps(s, s.(heap := s.heap[f.ctx := PassEnded(x)]), t, k, f, WrapperTest(f.ctx), PassEnded(x));
  }

  lemma PassEndedFits(x: Context, f: Frame, mapped: bool)
    requires f.Iterating? && FitsTop(x, mapped, f) && (x.depth > 0 ==> x.list != [])
    ensures PassEnded(x).owner == x.owner && PassEnded(x).depth == x.depth - 1
    ensures FitsTop(PassEnded(x), mapped, WrapperTest(f.ctx))
    ensures PassEnded(x).depth > 0 ==> PassEnded(x).list != []
  {
    assert Compact([None]) == [];
  }

  lemma ActKeeps(s: State, a: Action)
    requires Inv(s)
    ensures var o := Act(s, a); !o.Fault? && (o.Next? ==> Inv(o.state))
  {
    if s.alive {
      match a
      case Add(t, obs, hasLoop, address) => if ClientRuns(s, t) { AddKeeps(s, t, obs, address); }
      case Remove(t, obs) => if ClientRuns(s, t) { RemoveKeeps(s, t, obs); }
      case Notify(t) => if ClientRuns(s, t) { TasksAside(s, Act(s, a).state); }
      case RunTask(t, c) => RunTaskKeeps(s, t, c);
      case DropTask(task) => if task in s.tasks { TasksAside(s, Act(s, a).state); }
      case Proceed(t) => if Stack(s, t) != [] { StepKeeps(s, t); }
      case Destroy => DestroyKeeps(s);
    }
  }

  /** The destructor deletes every context there is: nothing is iterated when it runs. */
  lemma DestroyKeeps(s: State)
    requires Inv(s) && s.alive
    ensures var o := Act(s, Destroy); !o.Fault? && (o.Next? ==> Inv(o.state) && o.state.news == o.state.deletes)
  {
    if s.tasks == multiset{} && forall t :: t in s.stacks ==> s.stacks[t] == [] {
      DestroyedKeeps(s);
      assert !exists t :: t in s.lists && s.lists[t] !in s.heap;
      assert !exists t, u :: t in s.lists && u in s.lists && t != u && s.lists[t] == s.lists[u];
      hide Inv, Destroyed;
    }
  }

  lemma DestroyedKeeps(s: State)
    requires Inv(s) && s.alive && forall t :: t in s.stacks ==> s.stacks[t] == []
    ensures Inv(Destroyed(s)) && Destroyed(s).news == Destroyed(s).deletes
  {
    AllMapped(s);
    ValuesCount(s, s.lists.Keys);
    assert (set t | t in s.lists.Keys :: s.lists[t]) == s.lists.Values;
    assert |s.heap.Keys| == |s.lists|;
    assert Destroyed(s).heap == map[];
    assert forall t :: Stack(Destroyed(s), t) == [];
  }

  lemma AllMapped(s: State)
    requires Inv(s) && forall t :: t in s.stacks ==> s.stacks[t] == []
    ensures s.heap.Keys == s.lists.Values
  {
    forall c | c in s.heap ensures c in s.lists.Values {
      assert ContextOk(s, c);
      assert Stack(s, s.heap[c].owner) == [];
      assert s.lists[s.heap[c].owner] == c;
    }
  }

  lemma {:induction false} ValuesCount(s: State, ts: set<ThreadId>)
    requires Inv(s) && ts <= s.lists.Keys
    ensures |set t | t in ts :: s.lists[t]| == |ts|
    decreases |ts|
  {
    if ts != {} {
      var t :| t in ts;
      var rest := ts - {t};
      ValuesCount(s, rest);
      assert (set u | u in ts :: s.lists[u]) == (set u | u in rest :: s.lists[u]) + {s.lists[t]};
      assert s.lists[t] !in (set u | u in rest :: s.lists[u]);
    }
  }

  // The theorems

  /** No run dereferences or deletes a deleted context, whatever the interleaving. */
  lemma {:induction false} RunKeeps(s: State, actions: seq<Action>)
    requires Inv(s)
    ensures Run(s, actions).Next? && Inv(Run(s, actions).state)
    decreases |actions|
  {
    if actions != [] {
      ActKeeps(s, actions[0]);
      match Act(s, actions[0])
      case Next(s') => RunKeeps(s', actions[1..]);
      case NotEnabled => RunKeeps(s, actions[1..]);
      case Fault =>
    }
  }

  lemma InitOk(kind: NotificationType)
    ensures Inv(Init(kind))
  {
  }

  predicate Iterated(s: State, c: Address)
    requires c in s.heap
  {
    exists i :: 0 <= i < |Stack(s, s.heap[c].owner)|
      && Stack(s, s.heap[c].owner)[i].Iterating? && Stack(s, s.heap[c].owner)[i].ctx == c
  }

  /** Whenever only client code runs, the live contexts are those in the map and those being iterated. */
  lemma LiveExactlyWhenUsed(kind: NotificationType, actions: seq<Action>)
    requires Run(Init(kind), actions).Next?
    requires forall t :: ClientRuns(Run(Init(kind), actions).state, t)
    ensures var s := Run(Init(kind), actions).state;
            && (forall c :: c in s.heap ==> Mapped(s, s.heap[c].owner, c) || Iterated(s, c))
            && (forall t :: t in s.lists ==> s.lists[t] in s.heap)
            && (forall t, i :: 0 <= i < |Stack(s, t)| ==>
                  Stack(s, t)[i].ctx in s.heap && s.heap[Stack(s, t)[i].ctx].owner == t)
  {
    InitOk(kind);
    RunKeeps(Init(kind), actions);
    var s := Run(Init(kind), actions).state;
    forall c | c in s.heap ensures Mapped(s, s.heap[c].owner, c) || Iterated(s, c) {
      assert ContextOk(s, c) && ClientRuns(s, s.heap[c].owner);
      if !Mapped(s, s.heap[c].owner, c) { PassesPositive(Stack(s, s.heap[c].owner), c); }
    }
    forall t, i | 0 <= i < |Stack(s, t)| ensures Stack(s, t)[i].ctx in s.heap && s.heap[Stack(s, t)[i].ctx].owner == t {
      assert StackOk(s, t);
    }
  }

  lemma {:induction false} PassesPositive(k: seq<Frame>, c: Address)
    requires Passes(k, c) > 0
    ensures exists i :: 0 <= i < |k| && k[i].Iterating? && k[i].ctx == c
  {
    if !(k[|k| - 1].Iterating? && k[|k| - 1].ctx == c) {
      PassesPositive(k[..|k| - 1], c);
      var i :| 0 <= i < |k| - 1 && k[..|k| - 1][i].Iterating? && k[..|k| - 1][i].ctx == c;
      assert k[i] == k[..|k| - 1][i];
    }
  }

  /** Each context allocated in a run that ends in destruction was deleted exactly once. */
  lemma DeletedExactlyOnce(kind: NotificationType, actions: seq<Action>)
    ensures var o := Run(Init(kind), actions);
            && o.Next?
            && o.state.news == o.state.deletes + |o.state.heap|
            && (!o.state.alive ==> o.state.heap == map[] && o.state.news == o.state.deletes)
  {
    InitOk(kind);
    RunKeeps(Init(kind), actions);
  }

  // Stale delivery: what the pointer comparison in NotifyWrapper can and cannot rule out

  /** Action a gives thread t a new context, at address c. */
  predicate HandsOut(s: State, a: Action, t: ThreadId, c: Address) {
    && a.Add? && a.thread == t && a.hasLoop && a.address == c
    && s.alive && ClientRuns(s, t) && t !in s.lists && c !in s.heap
  }

  /** The state after the first i actions of a run. */
  ghost function After(s: State, actions: seq<Action>, i: nat): State
    requires Inv(s) && i <= |actions|
  {
    RunKeeps(s, actions[..i]);
    Run(s, actions[..i]).state
  }

  /** A step of a call in progress maps no thread to a context it was not mapped to. */
  lemma StepMapsNothing(s: State, u: ThreadId, t: ThreadId, c: Address)
    requires Stack(s, u) != [] && Step(s, u).Next? && Mapped(Step(s, u).state, t, c)
    ensures Mapped(s, t, c)
  {
    hide ListAdd, ListRemove, SkipEmpty, PassEnded;
  }

  /** One action maps t to c exactly when it hands c out to t. */
  lemma MapsIff(s: State, a: Action, t: ThreadId, c: Address)
    requires Inv(s) && !Mapped(s, t, c) && Act(s, a).Next?
    ensures Mapped(Act(s, a).state, t, c) <==> HandsOut(s, a, t, c)
  {
    hide Inv;
    if a.Proceed? {
      var u := a.thread;
      if Mapped(Act(s, a).state, t, c) { StepMapsNothing(s, u, t, c); }
    } else {
      hide Step;
    }
  }

  /** A task posted for the context at c has its thread t notify exactly when t is mapped to c. */
  lemma DeliversIff(s: State, t: ThreadId, c: Address)
    requires Inv(s) && Act(s, RunTask(t, c)).Next?
    ensures var s' := Act(s, RunTask(t, c)).state;
            && (Mapped(s, t, c) <==> Stack(s', t) == Stack(s, t) + [WrapperStart(c)])
            && (!Mapped(s, t, c) <==> s' == s.(tasks := s.tasks - multiset{Task(t, c)}))
  {
    hide Inv;
    if Mapped(s, t, c) {
      assert |Stack(s, t) + [WrapperStart(c)]| != |Stack(s, t)|;
    }
  }

  lemma {:induction false} RunSnoc(s: State, actions: seq<Action>, a: Action)
    requires Run(s, actions).Next?
    ensures var s' := Run(s, actions).state;
            Run(s, actions + [a]) == if Act(s', a).NotEnabled? then Next(s') else Act(s', a)
    decreases |actions|
  {
    hide Act;
    if actions == [] {
      assert ([] + [a])[1..] == [];
    } else {
      assert (actions + [a])[0] == actions[0] && (actions + [a])[1..] == actions[1..] + [a];
      match Act(s, actions[0])
      case Next(s') => RunSnoc(s', actions[1..], a);
      case NotEnabled => RunSnoc(s, actions[1..], a);
      case Fault =>
    }
  }

  /** What the i-th action of a run does to the state before it. */
  lemma AfterNext(s: State, actions: seq<Action>, i: nat)
    requires Inv(s) && i < |actions|
    ensures var s' := After(s, actions, i);
            && Inv(s')
            && !Act(s', actions[i]).Fault?
            && After(s, actions, i + 1) == if Act(s', actions[i]).Next? then Act(s', actions[i]).state else s'
  {
    hide Inv, Act, Run;
    RunKeeps(s, actions[..i]);
    ActKeeps(After(s, actions, i), actions[i]);
    RunSnoc(s, actions[..i], actions[i]);
    assert actions[..i + 1] == actions[..i] + [actions[i]];
  }

  lemma {:induction false} MappedWasHandedOut(s: State, actions: seq<Action>, n: nat, t: ThreadId, c: Address)
    requires Inv(s) && !Mapped(s, t, c) && n <= |actions| && Mapped(After(s, actions, n), t, c)
    ensures exists i :: 0 <= i < n && HandsOut(After(s, actions, i), actions[i], t, c)
    decreases n
  {
    hide Inv, Act, Mapped, HandsOut;
    assert actions[..0] == [];
    if n > 0 {
      AfterNext(s, actions, n - 1);
      var s' := After(s, actions, n - 1);
      if Mapped(s', t, c) {
        MappedWasHandedOut(s, actions, n - 1, t, c);
      } else {
        MapsIff(s', actions[n - 1], t, c);
      }
    }
  }

  /** When a run can deliver to a stale context. Thread t is not mapped to c, because the context
      there is deleted, about to be, or another thread's. A task posted for (t, c) finds t mapped
      to c at some moment of the run if and only if some action of the run hands c out to t. */
  lemma StaleDeliveryIff(s: State, actions: seq<Action>, t: ThreadId, c: Address)
    requires Inv(s) && !Mapped(s, t, c)
    ensures (exists i :: 0 <= i <= |actions| && Mapped(After(s, actions, i), t, c))
       <==> (exists i :: 0 <= i < |actions| && HandsOut(After(s, actions, i), actions[i], t, c))
  {
    hide Inv, Act, Mapped, HandsOut;
    if i :| 0 <= i <= |actions| && Mapped(After(s, actions, i), t, c) {
      MappedWasHandedOut(s, actions, i, t, c);
    }
    if i :| 0 <= i < |actions| && HandsOut(After(s, actions, i), actions[i], t, c) {
      AfterNext(s, actions, i);
      HandedOutMaps(After(s, actions, i), actions[i], t, c);
    }
  }

  lemma HandedOutMaps(s: State, a: Action, t: ThreadId, c: Address)
    requires Inv(s) && HandsOut(s, a, t, c)
    ensures Act(s, a).Next? && Mapped(Act(s, a).state, t, c)
  {
    hide Inv;
  }

  /** So a task for a deleted context is consumed without effect, as long as no action hands its
      address out to its thread again; other threads may be given the address. */
  lemma NoStaleDelivery(s: State, actions: seq<Action>, t: ThreadId, c: Address)
    requires Inv(s) && !Mapped(s, t, c)
    requires forall i :: 0 <= i < |actions| ==> !HandsOut(After(s, actions, i), actions[i], t, c)
    ensures Run(s, actions).Next?
    ensures var s' := Run(s, actions).state;
            Act(s', RunTask(t, c)).Next? ==>
              Act(s', RunTask(t, c)).state == s'.(tasks := s'.tasks - multiset{Task(t, c)})
  {
    hide Inv, Act, Mapped, HandsOut;
    RunKeeps(s, actions);
    StaleDeliveryIff(s, actions, t, c);
    assert actions[..|actions|] == actions;
    var s' := After(s, actions, |actions|);
    if Act(s', RunTask(t, c)).Next? { DeliversIff(s', t, c); }
  }

  /** A run that delivers to the wrong context, from the start: observer a is added, a notification
      posted, a removed, b added at the same address, and the task notifies b. */
  lemma StaleDeliveryFromInit(kind: NotificationType, t: ThreadId, c: Address, a: Observer, b: Observer)
    ensures var o := Run(Init(kind), [Add(t, a, true, c), Proceed(t), Notify(t), Remove(t, a), Proceed(t), Proceed(t),
                                      Add(t, b, true, c), Proceed(t), RunTask(t, c)]);
            && o.Next?
            && Stack(o.state, t) == [WrapperStart(c)]
            && c in o.state.heap && o.state.heap[c] == Context(t, [Some(b)], 0)
  {
    hide Run;
    var r := [Add(t, a, true, c), Proceed(t), Notify(t), Remove(t, a), Proceed(t), Proceed(t),
              Add(t, b, true, c), Proceed(t), RunTask(t, c)];
    var s := AddedAndPosted(kind, t, c, a, r);
    StaleDeliveryByReuse(s, t, c, a, b);
    assert r[0..] == r;
    assert r[3..] == [Remove(t, a), Proceed(t), Proceed(t), Add(t, b, true, c), Proceed(t), RunTask(t, c)];
  }

  lemma AddedAndPosted(kind: NotificationType, t: ThreadId, c: Address, a: Observer, r: seq<Action>)
    returns (s: State)
    requires |r| > 3 && r[..3] == [Add(t, a, true, c), Proceed(t), Notify(t)]
    ensures Run(Init(kind), r[0..]) == Run(s, r[3..])
    ensures s.alive && Stack(s, t) == [] && Task(t, c) in s.tasks
    ensures c in s.heap && s.heap[c] == Context(t, [Some(a)], 0) && Mapped(s, t, c)
  {
    assert r[0] == r[..3][0] && r[1] == r[..3][1] && r[2] == r[..3][2];
    var s2 := FreshAdd(Init(kind), t, c, a, r, 0);
    Posted(s2, t, c, r);
    s := Act(s2, r[2]).state;
    Runs(s2, r, 2);
  }

  lemma Posted(s: State, t: ThreadId, c: Address, r: seq<Action>)
    requires s.alive && Stack(s, t) == [] && s.lists == map[t := c] && c in s.heap && s.heap[c].owner == t
    requires |r| > 3 && r[2] == Notify(t)
    ensures Act(s, r[2]).Next?
    ensures var s' := Act(s, r[2]).state; s' == s.(tasks := s'.tasks) && Task(t, c) in s'.tasks
  {
    assert Task(s.heap[s.lists[t]].owner, s.lists[t]) == Task(t, c);
  }

  /** With a task pending for the context of thread t, removing its one observer a and adding b,
      whose context gets the same address, has the task notify b. */
  lemma StaleDeliveryByReuse(s: State, t: ThreadId, c: Address, a: Observer, b: Observer)
    requires s.alive && Stack(s, t) == [] && Task(t, c) in s.tasks
    requires c in s.heap && s.heap[c] == Context(t, [Some(a)], 0) && Mapped(s, t, c)
    ensures var o := Run(s, [Remove(t, a), Proceed(t), Proceed(t), Add(t, b, true, c), Proceed(t), RunTask(t, c)]);
            && o.Next?
            && Stack(o.state, t) == [WrapperStart(c)]
            && c in o.state.heap && o.state.heap[c] == Context(t, [Some(b)], 0)
  {
    hide Run;
    var r := [Remove(t, a), Proceed(t), Proceed(t), Add(t, b, true, c), Proceed(t), RunTask(t, c)];
    var s3 := LastRemoved(s, t, c, a, r);
    var s5 := FreshAdd(s3, t, c, b, r, 3);
    DeliveredLast(s5, t, c, b, r);
    assert r[0..] == r;
  }

  lemma DeliveredLast(s: State, t: ThreadId, c: Address, b: Observer, r: seq<Action>)
    requires s.alive && Stack(s, t) == [] && Mapped(s, t, c) && Task(t, c) in s.tasks
    requires c in s.heap && s.heap[c] == Context(t, [Some(b)], 0)
    requires |r| == 6 && r[5] == RunTask(t, c)
    ensures var o := Run(s, r[5..]);
            && o.Next?
            && Stack(o.state, t) == [WrapperStart(c)]
            && c in o.state.heap && o.state.heap[c] == Context(t, [Some(b)], 0)
  {
    Runs(s, r, 5);
    assert r[6..] == [];
    assert Stack(s, t) + [WrapperStart(c)] == [WrapperStart(c)];
  }

  lemma Runs(s: State, r: seq<Action>, i: nat)
    requires i < |r| && Act(s, r[i]).Next?
    ensures Run(s, r[i..]) == Run(Act(s, r[i]).state, r[i + 1..])
  {
    assert r[i..][1..] == r[i + 1..];
  }

  lemma LastRemoved(s: State, t: ThreadId, c: Address, a: Observer, r: seq<Action>) returns (s3: State)
    requires s.alive && Stack(s, t) == [] && Task(t, c) in s.tasks
    requires c in s.heap && s.heap[c] == Context(t, [Some(a)], 0) && Mapped(s, t, c)
    requires |r| >= 3 && r[..3] == [Remove(t, a), Proceed(t), Proceed(t)]
    ensures Run(s, r[0..]) == Run(s3, r[3..])
    ensures s3.alive && Stack(s3, t) == [] && t !in s3.lists && c !in s3.heap && s3.tasks == s.tasks
  {
    hide *;
    assert r[0] == r[..3][0] && r[1] == r[..3][1] && r[2] == r[..3][2];
    LastRemoveCalled(s, t, c, a);
    var s1 := Act(s, r[0]).state;
    Runs(s, r, 0);
    LastRemoveListed(s1, t, c, a);
    var s2 := Act(s1, r[1]).state;
    Runs(s1, r, 1);
    LastRemoveTested(s2, t, c);
    s3 := Act(s2, r[2]).state;
    Runs(s2, r, 2);
  }

  lemma LastRemoveCalled(s: State, t: ThreadId, c: Address, a: Observer)
    requires s.alive && Stack(s, t) == [] && c in s.heap && s.heap[c] == Context(t, [Some(a)], 0) && Mapped(s, t, c)
    ensures Act(s, Remove(t, a)).Next?
    ensures var s1 := Act(s, Remove(t, a)).state;
            && s1.alive && s1.heap == s.heap && s1.tasks == s.tasks && t !in s1.lists
            && Stack(s1, t) == [RemoveFromList(c, a)]
  {
    assert Some(a) == s.heap[c].list[0];
  }

  lemma LastRemoveListed(s: State, t: ThreadId, c: Address, a: Observer)
    requires s.alive && Stack(s, t) == [RemoveFromList(c, a)] && c in s.heap && s.heap[c] == Context(t, [Some(a)], 0)
    ensures Act(s, Proceed(t)).Next?
    ensures var s1 := Act(s, Proceed(t)).state;
            && s1.alive && s1.lists == s.lists && s1.tasks == s.tasks && c in s1.heap && s1.heap[c].list == []
            && Stack(s1, t) == [RemoveTest(c)]
  {
    assert ListRemove([Some(a)], 0, a) == [];
    hide ListRemove;
  }

  lemma LastRemoveTested(s: State, t: ThreadId, c: Address)
    requires s.alive && Stack(s, t) == [RemoveTest(c)] && c in s.heap && s.heap[c].list == []
    ensures Act(s, Proceed(t)).Next?
    ensures var s1 := Act(s, Proceed(t)).state;
            s1.alive && s1.lists == s.lists && s1.tasks == s.tasks && c !in s1.heap && Stack(s1, t) == []
  {
  }

  lemma FreshAdd(s: State, t: ThreadId, c: Address, b: Observer, r: seq<Action>, i: nat) returns (s': State)
    requires s.alive && Stack(s, t) == [] && t !in s.lists && c !in s.heap
    requires i + 1 < |r| && r[i] == Add(t, b, true, c) && r[i + 1] == Proceed(t)
    ensures Run(s, r[i..]) == Run(s', r[i + 2..])
    ensures s'.alive && Stack(s', t) == [] && s'.lists == s.lists[t := c] && s'.tasks == s.tasks
    ensures c in s'.heap && s'.heap[c] == Context(t, [Some(b)], 0)
  {
    hide *;
    FreshAddCalled(s, t, c, b);
    var s1 := Act(s, r[i]).state;
    Runs(s, r, i);
    FreshAddListed(s1, t, c, b);
    s' := Act(s1, r[i + 1]).state;
    Runs(s1, r, i + 1);
  }

  lemma FreshAddCalled(s: State, t: ThreadId, c: Address, b: Observer)
    requires s.alive && Stack(s, t) == [] && t !in s.lists && c !in s.heap
    ensures Act(s, Add(t, b, true, c)).Next?
    ensures var s1 := Act(s, Add(t, b, true, c)).state;
            && s1.alive && s1.lists == s.lists[t := c] && s1.tasks == s.tasks
            && c in s1.heap && s1.heap[c] == Context(t, [], 0) && Stack(s1, t) == [AddToList(c, b)]
  {
  }

  lemma FreshAddListed(s: State, t: ThreadId, c: Address, b: Observer)
    requires s.alive && Stack(s, t) == [AddToList(c, b)] && c in s.heap && s.heap[c] == Context(t, [], 0)
    ensures Act(s, Proceed(t)).Next?
    ensures var s1 := Act(s, Proceed(t)).state;
            && s1.alive && s1.lists == s.lists && s1.tasks == s.tasks
            && c in s1.heap && s1.heap[c] == Context(t, [Some(b)], 0) && Stack(s1, t) == []
  {
    assert ListAdd([], b) == [Some(b)];
    hide ListAdd;
  }
}
