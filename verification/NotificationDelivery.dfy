/**
 * What clients of ObserverListThreadSafe can rely on: where a notification is posted, that what is
 * posted stays until it is run or dropped and then begins a pass, and what adding and removing do.
 */
module NotificationDelivery {
  import opened Options
  import opened T = ObserverListThreadSafe
  import L = ObserverLists
  import P = NotificationPasses

  // Posting

  /** A notification is posted once to each thread that is in the map, for the context it is mapped to. */
  lemma NotifyPosts(s: State, t: ThreadId)
    requires Inv(s) && Act(s, Notify(t)).Next?
    ensures var s' := Act(s, Notify(t)).state;
            && s' == s.(tasks := s'.tasks)
            && forall task: Task ::
                 s'.tasks[task] == s.tasks[task] + (if Mapped(s, task.thread, task.ctx) then 1 else 0)
  {
    var s' := Act(s, Notify(t)).state;
    var posted := set u | u in s.lists :: Task(s.heap[s.lists[u]].owner, s.lists[u]);
    forall task: Task ensures task in posted <==> Mapped(s, task.thread, task.ctx) {
      if Mapped(s, task.thread, task.ctx) {
        assert s.heap[s.lists[task.thread]].owner == task.thread;
      }
    }
    assert s'.tasks == s.tasks + multiset(posted);
  }

  /** A client may notify from any thread at any time. */
  lemma NotifyIsEnabled(s: State, t: ThreadId)
    requires Inv(s) && s.alive && ClientRuns(s, t)
    ensures Act(s, Notify(t)).Next?
  {
  }

  function Posts(s: State, a: Action, task: Task): nat {
    if a.Notify? && Act(s, a).Next? && Mapped(s, task.thread, task.ctx) then 1 else 0
  }

  function Takes(s: State, a: Action, task: Task): nat {
    if Act(s, a).Next? && (a == RunTask(task.thread, task.ctx) || a == DropTask(task)) then 1 else 0
  }

  /** How often a run posts the task. */
  function Posted(s: State, actions: seq<Action>, task: Task): nat
    decreases |actions|
  {
    if actions == [] then 0
    else
      Posts(s, actions[0], task)
      + if Act(s, actions[0]).Next? then Posted(Act(s, actions[0]).state, actions[1..], task)
        else Posted(s, actions[1..], task)
  }

  /** How often a run runs or drops it. */
  function Taken(s: State, actions: seq<Action>, task: Task): nat
    decreases |actions|
  {
    if actions == [] then 0
    else
      Takes(s, actions[0], task)
      + if Act(s, actions[0]).Next? then Taken(Act(s, actions[0]).state, actions[1..], task)
        else Taken(s, actions[1..], task)
  }

  lemma StepLeavesTasks(s: State, t: ThreadId)
    requires Stack(s, t) != [] && Step(s, t).Next?
    ensures Step(s, t).state.tasks == s.tasks && Step(s, t).state.alive == s.alive
  {
    hide ListAdd, ListRemove, SkipEmpty, PassEnded, Limit;
  }

  lemma OneTask(s: State, a: Action, task: Task)
    requires Inv(s) && Act(s, a).Next?
    ensures Act(s, a).state.tasks[task] + Takes(s, a, task) == s.tasks[task] + Posts(s, a, task)
  {
    hide Inv, Step;
    if a.Notify? {
      hide Act;
      NotifyPosts(s, a.thread);
    } else if a.Proceed? {
      StepLeavesTasks(s, a.thread);
    } else {
      OtherTask(s, a, task);
    }
  }

  lemma OtherTask(s: State, a: Action, task: Task)
    requires Act(s, a).Next? && !a.Notify? && !a.Proceed?
    ensures Act(s, a).state.tasks[task] + Takes(s, a, task) == s.tasks[task] + Posts(s, a, task)
  {
    hide Step, Inv;
  }

  /** No task is lost or run twice: in any run what was pending or posted is pending, run or dropped. */
  lemma {:induction false} TasksAreConserved(s: State, actions: seq<Action>, task: Task)
    requires Inv(s)
    ensures Run(s, actions).Next?
    ensures Run(s, actions).state.tasks[task] + Taken(s, actions, task) == s.tasks[task] + Posted(s, actions, task)
    decreases |actions|
  {
    hide Inv, Act, Takes, Posts;
    RunKeeps(s, actions);
    if actions != [] {
      var a := actions[0];
      ActKeeps(s, a);
      if Act(s, a).Next? {
        OneTask(s, a, task);
        TasksAreConserved(Act(s, a).state, actions[1..], task);
      } else {
        NotTaken(s, a, task);
        TasksAreConserved(s, actions[1..], task);
      }
    }
  }

  lemma NotTaken(s: State, a: Action, task: Task)
    requires !Act(s, a).Next?
    ensures Takes(s, a, task) == 0 && Posts(s, a, task) == 0
  {
    hide Act;
  }

  // Delivery

  /** Tasks hold references: the list is there as long as one is pending. */
  predicate HeldByTasks(s: State) {
    s.tasks != multiset{} ==> s.alive
  }

  lemma ActHolds(s: State, a: Action)
    requires Act(s, a).Next? && HeldByTasks(s)
    ensures HeldByTasks(Act(s, a).state)
  {
    hide Step;
    if a.Proceed? { StepLeavesTasks(s, a.thread); }
  }

  lemma {:induction false} RunHolds(s: State, actions: seq<Action>)
    requires Inv(s) && HeldByTasks(s)
    ensures Run(s, actions).Next? && HeldByTasks(Run(s, actions).state)
    decreases |actions|
  {
    hide Inv, Act, HeldByTasks;
    if actions != [] {
      var a := actions[0];
      ActKeeps(s, a);
      if Act(s, a).Next? {
        ActHolds(s, a);
        RunHolds(Act(s, a).state, actions[1..]);
      } else {
        RunHolds(s, actions[1..]);
      }
    }
  }

  /** A pending task can be run whenever its thread runs client code; it begins a pass over the context the
      thread is mapped to, if that is the task's. */
  predicate Deliverable(s: State, task: Task) {
    var u, c := task.thread, task.ctx;
    && s.alive && task in s.tasks
    && (ClientRuns(s, u) ==>
          && Act(s, RunTask(u, c)).Next?
          && (Mapped(s, u, c) ==> Stack(Act(s, RunTask(u, c)).state, u) == Stack(s, u) + [WrapperStart(c)]))
  }

  lemma PendingIsDeliverable(s: State, task: Task)
    requires Inv(s) && HeldByTasks(s) && task in s.tasks
    ensures Deliverable(s, task)
  {
    hide Inv;
  }

  /** After a notification from any thread, in every run that goes on from there, the task of each thread u
      mapped to a context c stays and can be delivered, until as many have been run or dropped as were
      pending for u and c before. */
  lemma NotificationIsDelivered(kind: NotificationType, before: seq<Action>, t: ThreadId, after: seq<Action>,
                                u: ThreadId, c: Address)
    requires Run(Init(kind), before).Next?
    requires Act(Run(Init(kind), before).state, Notify(t)).Next? && Mapped(Run(Init(kind), before).state, u, c)
    requires var s := Run(Init(kind), before).state;
             Taken(Act(s, Notify(t)).state, after, Task(u, c)) <= s.tasks[Task(u, c)]
    ensures var s' := Run(Act(Run(Init(kind), before).state, Notify(t)).state, after);
            s'.Next? && Deliverable(s'.state, Task(u, c))
  {
    var s := Run(Init(kind), before).state;
    InitOk(kind);
    RunKeeps(Init(kind), before);
    RunHolds(Init(kind), before);
    FromNotify(s, t, after, Task(u, c));
  }

  lemma FromNotify(s: State, t: ThreadId, after: seq<Action>, task: Task)
    requires Inv(s) && HeldByTasks(s) && Act(s, Notify(t)).Next? && Mapped(s, task.thread, task.ctx)
    requires Taken(Act(s, Notify(t)).state, after, task) <= s.tasks[task]
    ensures var s' := Run(Act(s, Notify(t)).state, after); s'.Next? && Deliverable(s'.state, task)
  {
    hide Inv, Act, HeldByTasks, Deliverable, Run, Taken, Mapped;
    var s1 := Act(s, Notify(t)).state;
    NotifyPosts(s, t);
    ActKeeps(s, Notify(t));
    ActHolds(s, Notify(t));
    TasksAreConserved(s1, after, task);
    RunKeeps(s1, after);
    RunHolds(s1, after);
    PendingIsDeliverable(Run(s1, after).state, task);
  }

  /** The pass that a delivered task begins has called nothing, and is bounded by the registrations made so
      far unless the type is NOTIFY_ALL.  From here on it goes on as NotificationReaches says. */
  lemma PassBegins(s: State, j: P.Journal, u: ThreadId, k: seq<Frame>, c: Address)
    requires Inv(s) && P.Tracks(s, j) && Stack(s, u) == k + [WrapperStart(c)] && c in s.heap && c in j
    ensures Step(s, u).Next?
    ensures var x, w, w', all := s.heap[c], j[c].world, P.NotedStep(s, j, u)[c].world, s.kind.NotifyAll?;
            && Stack(Step(s, u).state, u) == k + [Iterating(c, 0, |x.list|, !all)]
            && w'.live == w.live
            && |k| in w'.passes && w'.passes[|k|] == L.Pass(0, if all then None else Some(w.nextId), [])
  {
    hide Inv, P.Tracks, P.Follows, StackOk;
    Innermost(s, u, k, WrapperStart(c));
    WrapperSteps(s, u, k, c);
    Tracked(s, j, c);
    PassIsNew(s.heap[c], c, k, j[c], s.kind.NotifyAll?);
    P.NotedStepIs(s, j, u, k, WrapperStart(c));
  }

  lemma WrapperSteps(s: State, u: ThreadId, k: seq<Frame>, c: Address)
    requires Stack(s, u) == k + [WrapperStart(c)] && c in s.heap
    ensures Step(s, u).Next?
    ensures Stack(Step(s, u).state, u) == k + [Iterating(c, 0, |s.heap[c].list|, s.kind.NotifyExistingOnly?)]
  {
    LastFrame(k, WrapperStart(c));
  }

  lemma Tracked(s: State, j: P.Journal, c: Address)
    requires P.Tracks(s, j) && c in s.heap
    ensures c in j && P.Follows(s.heap[c], c, Stack(s, s.heap[c].owner), j[c], s.kind.NotifyAll?)
    ensures |j[c].ids| == |s.heap[c].list|
  {
    hide L.Inv, L.Placed, L.Filled;
  }

  lemma PassIsNew(x: Context, c: Address, k: seq<Frame>, r: P.Record, all: bool)
    requires P.Follows(x, c, k + [WrapperStart(c)], r, all) && |r.ids| == |x.list|
    ensures var w' := P.Continued(x, |k|, WrapperStart(c), r).world;
            && w'.live == r.world.live
            && |k| in w'.passes && w'.passes[|k|] == L.Pass(0, if all then None else Some(r.world.nextId), [])
  {
    LastFrame(k, WrapperStart(c));
    hide L.Inv, L.Placed, L.Filled, L.Numbered, L.Distinct;
    assert !P.IsPass((k + [WrapperStart(c)])[|k|], c);
  }

  lemma LastFrame(k: seq<Frame>, f: Frame)
    ensures (k + [f])[..|k|] == k && (k + [f])[|k|] == f
  {
  }

  // Adding and removing

  /** The observers in the slots, in order. */
  function Held(list: seq<Slot>): seq<Observer> {
    if list == [] then [] else (if list[0].Some? then [list[0].value] else []) + Held(list[1..])
  }

  /** The observers of a thread. */
  function ObserversOf(s: State, t: ThreadId): seq<Observer> {
    if t in s.lists && s.lists[t] in s.heap then Held(s.heap[s.lists[t]].list) else []
  }

  lemma {:induction false} HeldConcat(a: seq<Slot>, b: seq<Slot>)
    ensures Held(a + b) == Held(a) + Held(b)
  {
    if a == [] {
      assert a + b == b;
    } else {
      assert (a + b)[1..] == a[1..] + b && (a + b)[0] == a[0];
      HeldConcat(a[1..], b);
    }
  }

  lemma {:induction false} HeldIs(list: seq<Slot>, obs: Observer)
    ensures obs in Held(list) <==> Some(obs) in list
  {
    if list != [] { HeldIs(list[1..], obs); }
  }

  lemma HeldAdd(list: seq<Slot>, obs: Observer)
    ensures Held(ListAdd(list, obs)) == if obs in Held(list) then Held(list) else Held(list) + [obs]
  {
    HeldIs(list, obs);
    HeldConcat(list, [Some(obs)]);
    assert Held([Some(obs)]) == [obs];
  }

  /** Takes one occurrence out and leaves the others in order. */
  ghost predicate TakenOut(before: seq<Observer>, obs: Observer, after: seq<Observer>) {
    if obs !in before then after == before
    else exists i :: 0 <= i < |before| && before[i] == obs && after == before[..i] + before[i + 1..]
  }

  lemma HeldSplit(list: seq<Slot>, i: nat)
    requires i < |list|
    ensures Held(list) == Held(list[..i]) + (Held([list[i]]) + Held(list[i + 1..]))
    ensures Held(list[i := None]) == Held(list[..i]) + Held(list[i + 1..])
    ensures Held(list[..i] + list[i + 1..]) == Held(list[..i]) + Held(list[i + 1..])
  {
    var a, b := list[..i], list[i + 1..];
    assert list == a + ([list[i]] + b) && list[i := None] == a + ([None] + b);
    assert Held([None]) == [] && [] + Held(b) == Held(b);
    hide Held;
    HeldConcat(a, [list[i]] + b);
    HeldConcat([list[i]], b);
    HeldConcat(a, [None] + b);
    HeldConcat([None], b);
    HeldConcat(a, b);
  }

  lemma HeldRemove(list: seq<Slot>, depth: int, obs: Observer)
    ensures TakenOut(Held(list), obs, Held(ListRemove(list, depth, obs)))
  {
    HeldIs(list, obs);
    assert Held([Some(obs)]) == [obs];
    hide Held;
    if Some(obs) in list {
      var i := Find(list, Some(obs));
      HeldSplit(list, i);
      OneOut(Held(list[..i]), obs, Held(list[i + 1..]));
      hide TakenOut;
    }
  }

  lemma OneOut(a: seq<Observer>, obs: Observer, b: seq<Observer>)
    ensures TakenOut(a + ([obs] + b), obs, a + b)
  {
    var all := a + ([obs] + b);
    assert all[|a|] == obs && all[..|a|] + all[|a| + 1..] == a + b;
  }

  ghost predicate OthersKeep(s: State, s': State, t: ThreadId) {
    forall u :: u != t ==> ObserversOf(s', u) == ObserversOf(s, u)
  }

  /** A step of thread t over its context at c leaves other threads' entries and contexts alone. */
  lemma OwnContextOnly(s: State, s': State, t: ThreadId, c: Address)
    requires Inv(s) && (c in s.heap ==> s.heap[c].owner == t)
    requires forall u :: u != t ==> ((u in s'.lists <==> u in s.lists) && (u in s.lists ==> s'.lists[u] == s.lists[u]))
    requires forall d :: d != c ==> ((d in s'.heap <==> d in s.heap) && (d in s.heap ==> s'.heap[d] == s.heap[d]))
    ensures OthersKeep(s, s', t)
  {
    hide Held;
    forall u | u != t ensures ObserversOf(s', u) == ObserversOf(s, u) {
      if u in s.lists { assert s.lists[u] in s.heap && s.heap[s.lists[u]].owner == u; }
    }
  }

  /** AddObserver, once it has returned, leaves the observer registered on its thread, as the last one if it
      was not registered yet, and changes no other thread's observers. */
  lemma AddRegisters(s: State, t: ThreadId, obs: Observer, a: Address)
    requires Inv(s) && Act(s, Add(t, obs, true, a)).Next?
    ensures var s1 := Act(s, Add(t, obs, true, a)).state;
            && Act(s1, Proceed(t)).Next?
            && var s2 := Act(s1, Proceed(t)).state;
               && ObserversOf(s2, t) == ObserversOf(s, t) + (if obs in ObserversOf(s, t) then [] else [obs])
               && OthersKeep(s, s2, t) && Stack(s2, t) == Stack(s, t) && s2.tasks == s.tasks
  {
    hide Inv, Held, ListAdd, Step, Act;
    var s1 := Act(s, Add(t, obs, true, a)).state;
    AddCalls(s, t, obs, a);
    var c := s1.lists[t];
    AddSteps(s1, t, Stack(s, t), c, obs);
    HeldAdd(s1.heap[c].list, obs);
    var s2 := Act(s1, Proceed(t)).state;
    OwnContextOnly(s, s2, t, c);
  }

  /** A client may add at any time, a context made for its thread lying where none is; a thread without a
      message loop adds nothing. */
  lemma AddIsEnabled(s: State, t: ThreadId, obs: Observer, a: Address)
    requires Inv(s) && s.alive && ClientRuns(s, t) && (t in s.lists || a !in s.heap)
    ensures Act(s, Add(t, obs, true, a)).Next?
    ensures Act(s, Add(t, obs, false, a)) == Next(s)
  {
  }

  lemma AddCalls(s: State, t: ThreadId, obs: Observer, a: Address)
    requires Inv(s) && Act(s, Add(t, obs, true, a)).Next?
    ensures var s1 := Act(s, Add(t, obs, true, a)).state;
            && s1.alive && s1.tasks == s.tasks && t in s1.lists && s1.lists[t] in s1.heap
            && Stack(s1, t) == Stack(s, t) + [AddToList(s1.lists[t], obs)]
            && Held(s1.heap[s1.lists[t]].list) == ObserversOf(s, t)
            && (s1.lists[t] in s.heap ==> s.heap[s1.lists[t]].owner == t)
            && (forall u :: u != t ==>
                  ((u in s1.lists <==> u in s.lists) && (u in s.lists ==> s1.lists[u] == s.lists[u])))
            && (forall d :: d != s1.lists[t] ==>
                  ((d in s1.heap <==> d in s.heap) && (d in s.heap ==> s1.heap[d] == s.heap[d])))
  {
    if t in s.lists { assert s.lists[t] in s.heap && s.heap[s.lists[t]].owner == t; }
    hide Inv;
  }

  lemma AddSteps(s: State, t: ThreadId, k: seq<Frame>, c: Address, obs: Observer)
    requires s.alive && Stack(s, t) == k + [AddToList(c, obs)] && c in s.heap
    ensures Act(s, Proceed(t)).Next?
    ensures var x := s.heap[c];
            Act(s, Proceed(t)).state
            == s.(heap := s.heap[c := x.(list := ListAdd(x.list, obs))], stacks := s.stacks[t := k])
  {
    LastFrame(k, AddToList(c, obs));
    hide ListAdd;
  }

  /** RemoveObserver, once past the list, leaves the observer registered on its thread once less, if it was,
      and changes neither the order of the others nor any other thread's observers. */
  lemma RemoveUnregisters(s: State, t: ThreadId, obs: Observer)
    requires Inv(s) && Act(s, Remove(t, obs)).Next? && t in s.lists
    ensures var s1 := Act(s, Remove(t, obs)).state;
            && Act(s1, Proceed(t)).Next?
            && var s2 := Act(s1, Proceed(t)).state;
               && TakenOut(ObserversOf(s, t), obs, ObserversOf(s2, t))
               && OthersKeep(s, s2, t) && Stack(s2, t) == Stack(s, t) + [RemoveTest(s.lists[t])]
  {
    hide Inv, Held, ListRemove, Step, TakenOut, Act;
    var s1, c := Act(s, Remove(t, obs)).state, s.lists[t];
    RemoveCalls(s, t, obs);
    RemoveSteps(s1, t, Stack(s, t), c, obs);
    var x := s.heap[c];
    HeldRemove(x.list, x.depth, obs);
    if t !in s1.lists { LastHeld(x.list, obs); }
    OwnContextOnly(s, Act(s1, Proceed(t)).state, t, c);
  }

  lemma RemoveCalls(s: State, t: ThreadId, obs: Observer)
    requires Inv(s) && Act(s, Remove(t, obs)).Next? && t in s.lists
    ensures var s1, c := Act(s, Remove(t, obs)).state, s.lists[t];
            && s1.alive && c in s.heap && s.heap[c].owner == t && s1.heap == s.heap
            && Stack(s1, t) == Stack(s, t) + [RemoveFromList(c, obs)]
            && (t in s1.lists ==> s1.lists[t] == c)
            && (t !in s1.lists ==> s.heap[c].list == [Some(obs)])
            && (forall u :: u != t ==>
                  ((u in s1.lists <==> u in s.lists) && (u in s.lists ==> s1.lists[u] == s.lists[u])))
  {
    var c := s.lists[t];
    assert c in s.heap && s.heap[c].owner == t;
    hide Inv;
    if Some(obs) in s.heap[c].list && |s.heap[c].list| == 1 { assert s.heap[c].list == [Some(obs)]; }
  }

  lemma LastHeld(list: seq<Slot>, obs: Observer)
    requires list == [Some(obs)]
    ensures TakenOut(Held(list), obs, [])
  {
    assert Held(list) == [obs];
    assert [obs][0] == obs && [] == [obs][..0] + [obs][0 + 1..];
  }

  lemma RemoveSteps(s: State, t: ThreadId, k: seq<Frame>, c: Address, obs: Observer)
    requires s.alive && Stack(s, t) == k + [RemoveFromList(c, obs)] && c in s.heap
    ensures Act(s, Proceed(t)).Next?
    ensures var x := s.heap[c];
            Act(s, Proceed(t)).state
            == s.(heap := s.heap[c := x.(list := ListRemove(x.list, x.depth, obs))],
                  stacks := s.stacks[t := k + [RemoveTest(c)]])
  {
    LastFrame(k, RemoveFromList(c, obs));
    hide ListRemove;
    assert s.stacks[t := k][t := k + [RemoveTest(c)]] == s.stacks[t := k + [RemoveTest(c)]];
  }

  /** Removing from a thread without observers does nothing. */
  lemma RemoveFromNothing(s: State, t: ThreadId, obs: Observer)
    requires s.alive && ClientRuns(s, t) && t !in s.lists
    ensures Act(s, Remove(t, obs)) == Next(s)
  {
  }

  /** The contexts in the map are there, and no two threads share one. */
  lemma OwnContexts(s: State)
    requires Inv(s)
    ensures !exists t :: t in s.lists && s.lists[t] !in s.heap
    ensures !exists t, u :: t in s.lists && u in s.lists && t != u && s.lists[t] == s.lists[u]
  {
  }

  /** With no call in progress and no task pending the list can be destroyed, and then nothing is left. */
  lemma DestroyHappens(s: State)
    requires Inv(s) && s.alive && s.tasks == multiset{} && forall t :: Stack(s, t) == []
    ensures Act(s, Destroy).Next?
    ensures var s' := Act(s, Destroy).state; !s'.alive && s'.heap == map[] && s'.lists == map[]
  {
    assert forall t :: t in s.stacks ==> Stack(s, t) == s.stacks[t];
    DestroyedKeeps(s);
    OwnContexts(s);
    DestroyedIs(s);
    hide Inv, Destroyed;
  }

  lemma DestroyedIs(s: State)
    ensures Inv(Destroyed(s)) ==> Destroyed(s).heap == map[]
    ensures !Destroyed(s).alive && Destroyed(s).lists == map[]
  {
  }
}
