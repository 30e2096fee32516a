/**
 * Which observers a notification reaches, in any run of the thread-safe list: beside each context
 * goes the reference list of its observers, with one pass for each NotifyWrapper that iterates it.
 */
module NotificationPasses {
  import opened Options
  import T = ObserverListThreadSafe
  import L = ObserverLists

  /** The numbers of a context's slots, and the list of registrations and the passes they stand for.
      A pass is named by the position of its call on the stack. */
  datatype Record = Record(ids: seq<nat>, world: L.World<T.Observer>)

  type Journal = map<T.Address, Record>

  predicate IsPass(f: T.Frame, c: T.Address) { f.Iterating? && f.ctx == c }

  function PlaceOf(f: T.Frame, pass: L.Pass): L.Place
    requires f.Iterating?
  {
    L.Place(f.index, if f.bounded then Some(f.maxIndex) else None, pass)
  }

  ghost predicate Stands(list: seq<T.Slot>, r: Record, all: bool) {
    && |r.ids| == |list| && L.Numbered(r.ids, r.world.nextId) && L.Distinct(list)
    && L.Filled(list, r.ids) == r.world.live
    && r.world.all == all && L.Inv(r.world)
  }

  ghost predicate PassesStand(list: seq<T.Slot>, c: T.Address, k: seq<T.Frame>, r: Record)
    requires |r.ids| == |list|
  {
    && (forall p <- r.world.passes :: p < |k| && IsPass(k[p], c))
    && (forall p :: 0 <= p < |k| && IsPass(k[p], c) ==>
          && p in r.world.passes
          && L.Placed(PlaceOf(k[p], r.world.passes[p]), list, r.ids, r.world.nextId))
  }

  /** The context at c, iterated by the calls on stack k, is as its record says. */
  ghost predicate Follows(x: T.Context, c: T.Address, k: seq<T.Frame>, r: Record, all: bool) {
    Stands(x.list, r, all) && PassesStand(x.list, c, k, r)
  }

  ghost predicate Tracks(s: T.State, j: Journal) {
    forall c <- s.heap :: c in j && Follows(s.heap[c], c, T.Stack(s, s.heap[c].owner), j[c], s.kind.NotifyAll?)
  }

  // How a record goes on

  function Reached(x: T.Context, f: T.Frame): nat
    requires f.Iterating?
  {
    T.SkipEmpty(x.list, f.index, T.Limit(f, x))
  }

  function KeptIds(list: seq<T.Slot>, ids: seq<nat>): seq<nat>
    requires |ids| == |list|
  {
    if list == [] then [] else (if list[0].None? then [] else [ids[0]]) + KeptIds(list[1..], ids[1..])
  }

  function Added(x: T.Context, r: Record, obs: T.Observer): Record {
    Record(if Some(obs) in x.list then r.ids else r.ids + [r.world.nextId], L.Step(r.world, L.Add(obs)))
  }

  function Removed(x: T.Context, r: Record, obs: T.Observer): Record
    requires |r.ids| == |x.list|
  {
    var ids :=
      if Some(obs) in x.list && x.depth == 0 then
        var i := T.Find(x.list, Some(obs));
        r.ids[..i] + r.ids[i + 1..]
      else r.ids;
    Record(ids, L.Step(r.world, L.Remove(obs)))
  }

  function Advanced(x: T.Context, p: nat, f: T.Frame, r: Record): Record
    requires f.Iterating? && |r.ids| == |x.list|
  {
    var world := L.Step(r.world, L.GetNext(p));
    if Reached(x, f) < T.Limit(f, x) then r.(world := world)
    else Record(if x.depth - 1 == 0 then KeptIds(x.list, r.ids) else r.ids, L.Step(world, L.End(p)))
  }

  /** The record once the call f, p-th on its stack, has taken its next step. */
  function Continued(x: T.Context, p: nat, f: T.Frame, r: Record): Record
    requires |r.ids| == |x.list|
  {
    match f
    case AddToList(_, obs) => Added(x, r, obs)
    case RemoveFromList(_, obs) => Removed(x, r, obs)
    case WrapperStart(_) => r.(world := L.Step(r.world, L.Begin(p)))
    case Iterating(_, _, _, _) => Advanced(x, p, f, r)
    case _ => r
  }

  lemma AddStands(x: T.Context, r: Record, obs: T.Observer, all: bool)
    requires Stands(x.list, r, all)
    ensures Stands(T.ListAdd(x.list, obs), Added(x, r, obs), all)
  {
    hide L.Inv, L.Filled, L.Numbered, L.Distinct, L.Has;
    L.HasSlot(x.list, r.ids, obs);
    L.StepKeeps(r.world, L.Add(obs));
    if Some(obs) !in x.list {
      L.FilledSnoc(x.list, r.ids, obs, r.world.nextId);
      L.Added(x.list, r.ids, r.world.nextId, obs);
    }
  }

  lemma AddFollows(x: T.Context, c: T.Address, k: seq<T.Frame>, r: Record, obs: T.Observer, all: bool)
    requires Follows(x, c, k, r, all)
    ensures Follows(x.(list := T.ListAdd(x.list, obs)), c, k, Added(x, r, obs), all)
  {
    AddStands(x, r, obs, all);
    L.HasSlot(x.list, r.ids, obs);
    hide L.Inv, L.Filled, L.Numbered, L.Distinct, L.Has, L.Placed;
    if Some(obs) !in x.list {
      forall p | p in r.world.passes
        ensures L.Placed(PlaceOf(k[p], r.world.passes[p]), x.list + [Some(obs)], r.ids + [r.world.nextId],
                         r.world.nextId + 1)
      {
        L.PlacedAfterAdd(PlaceOf(k[p], r.world.passes[p]), x.list, r.ids, r.world.nextId, obs);
      }
    }
  }

  lemma ErasedStands(list: seq<T.Slot>, r: Record, obs: T.Observer, i: nat, all: bool)
    requires Stands(list, r, all) && i < |list| && list[i] == Some(obs)
    ensures Stands(list[..i] + list[i + 1..],
                   Record(r.ids[..i] + r.ids[i + 1..], L.Step(r.world, L.Remove(obs))), all)
  {
    hide L.Inv, L.Filled, L.Numbered, L.Distinct, L.Without;
    L.StepKeeps(r.world, L.Remove(obs));
    FirstSlot(list, obs, i);
    L.FilledWithout(list, r.ids, obs, i);
    L.Erased(list, r.ids, r.world.nextId, i);
  }

  lemma ClearedStands(list: seq<T.Slot>, r: Record, obs: T.Observer, i: nat, all: bool)
    requires Stands(list, r, all) && i <= |list| && (i < |list| ==> list[i] == Some(obs))
    requires i == |list| ==> Some(obs) !in list
    ensures Stands(if i < |list| then list[i := None] else list, Record(r.ids, L.Step(r.world, L.Remove(obs))), all)
  {
    hide L.Inv, L.Filled, L.Numbered, L.Distinct, L.Without;
    L.StepKeeps(r.world, L.Remove(obs));
    if i < |list| { FirstSlot(list, obs, i); }
    L.FilledWithout(list, r.ids, obs, i);
  }

  lemma RemoveStands(x: T.Context, r: Record, obs: T.Observer, all: bool)
    requires Stands(x.list, r, all)
    ensures Stands(T.ListRemove(x.list, x.depth, obs), Removed(x, r, obs), all)
  {
    assert |r.ids| == |x.list|;
    hide Stands, L.Step;
    var i := if Some(obs) in x.list then T.Find(x.list, Some(obs)) else |x.list|;
    if Some(obs) in x.list && x.depth == 0 {
      ErasedStands(x.list, r, obs, i, all);
    } else {
      ClearedStands(x.list, r, obs, i, all);
    }
  }

  lemma FirstSlot(list: seq<T.Slot>, obs: T.Observer, i: nat)
    requires L.Distinct(list) && i < |list| && list[i] == Some(obs)
    ensures (forall j :: 0 <= j < i ==> list[j] != Some(obs)) && L.Distinct(list[i := None])
  {
  }

  lemma RemoveFollows(x: T.Context, c: T.Address, k: seq<T.Frame>, r: Record, obs: T.Observer, all: bool)
    requires Follows(x, c, k, r, all)
    requires x.depth == 0 ==> forall p :: 0 <= p < |k| ==> !IsPass(k[p], c)
    ensures Follows(x.(list := T.ListRemove(x.list, x.depth, obs)), c, k, Removed(x, r, obs), all)
  {
    RemoveStands(x, r, obs, all);
    hide Stands, L.Numbered, L.Placed;
    var i := if Some(obs) in x.list then T.Find(x.list, Some(obs)) else 0;
    if Some(obs) in x.list && x.depth != 0 {
      forall p | p in r.world.passes
        ensures L.Placed(PlaceOf(k[p], r.world.passes[p]), x.list[i := None], r.ids, r.world.nextId)
      {
        L.PlacedAfterRemove(PlaceOf(k[p], r.world.passes[p]), x.list, r.ids, r.world.nextId, x.list[i := None]);
      }
    }
  }

  lemma BeginFollows(x: T.Context, c: T.Address, k: seq<T.Frame>, r: Record, all: bool)
    requires Follows(x, c, k, r, all)
    ensures Follows(x.(depth := x.depth + 1), c, k + [T.Iterating(c, 0, |x.list|, !all)],
                    r.(world := L.Step(r.world, L.Begin(|k|))), all)
  {
    L.StepKeeps(r.world, L.Begin(|k|));
    L.PlacedAtStart(x.list, r.ids, r.world.nextId, all);
    hide L.Inv, L.Filled, L.Numbered, L.Placed, L.Distinct;
    var world, k' := L.Step(r.world, L.Begin(|k|)), k + [T.Iterating(c, 0, |x.list|, !all)];
    forall p | 0 <= p < |k'| && IsPass(k'[p], c)
      ensures p in world.passes && L.Placed(PlaceOf(k'[p], world.passes[p]), x.list, r.ids, world.nextId)
    {
      if p < |k| { assert IsPass(k[p], c); }
    }
  }

  lemma {:induction false} SkipPlaced(at: L.Place, list: seq<T.Slot>, ids: seq<nat>, nextId: nat, limit: nat)
    requires |ids| == |list| && L.Numbered(ids, nextId) && L.Placed(at, list, ids, nextId) && limit <= |list|
    ensures L.Placed(at.(index := T.SkipEmpty(list, at.index, limit)), list, ids, nextId)
    decreases limit - at.index
  {
    if at.index < limit && list[at.index].None? {
      L.PlacedAfterNext(at, list, ids, nextId);
      SkipPlaced(at.(index := at.index + 1), list, ids, nextId, limit);
    }
  }

  /** Where the loop of GetNext stops is where the pass goes on. */
  lemma ReachedIsNext(list: seq<T.Slot>, f: T.Frame, x: T.Context, ids: seq<nat>, nextId: nat, pass: L.Pass)
    requires f.Iterating? && x.list == list && |ids| == |list| && L.Numbered(ids, nextId)
    requires L.Placed(PlaceOf(f, pass), list, ids, nextId)
    ensures var i := Reached(x, f);
            && L.Placed(PlaceOf(f, pass).(index := i), list, ids, nextId)
            && L.Next(L.Filled(list, ids), pass)
               == if i < T.Limit(f, x) then Some(L.Registration(ids[i], list[i].value)) else None
  {
    var i := Reached(x, f);
    SkipPlaced(PlaceOf(f, pass), list, ids, nextId, T.Limit(f, x));
    L.NextAt(PlaceOf(f, pass).(index := i), list, ids, nextId);
  }

  lemma PassMoved(list: seq<T.Slot>, c: T.Address, k: seq<T.Frame>, f: T.Frame, r: Record, f': T.Frame, pass: L.Pass,
                  r': Record)
    requires |r.ids| == |list| && PassesStand(list, c, k + [f], r) && IsPass(f, c) && IsPass(f', c)
    requires r'.ids == r.ids && r'.world.nextId == r.world.nextId && r'.world.passes == r.world.passes[|k| := pass]
    requires L.Placed(PlaceOf(f', pass), list, r.ids, r.world.nextId)
    ensures PassesStand(list, c, k + [f'], r')
  {
    hide L.Placed;
    forall p | 0 <= p <= |k| && IsPass((k + [f'])[p], c)
      ensures p in r'.world.passes
      ensures L.Placed(PlaceOf((k + [f'])[p], r'.world.passes[p]), list, r.ids, r.world.nextId)
    {
      if p < |k| { assert IsPass((k + [f])[p], c); }
    }
    forall p | p in r'.world.passes ensures p <= |k| && IsPass((k + [f'])[p], c) {
      if p != |k| { assert IsPass((k + [f])[p], c); }
    }
  }

  lemma PassGone(list: seq<T.Slot>, c: T.Address, k: seq<T.Frame>, f: T.Frame, r: Record, r': Record)
    requires |r.ids| == |list| && PassesStand(list, c, k + [f], r)
    requires r'.ids == r.ids && r'.world.nextId == r.world.nextId && r'.world.passes == r.world.passes - {|k|}
    ensures PassesStand(list, c, k, r')
  {
    hide L.Placed;
    forall p | 0 <= p < |k| && IsPass(k[p], c)
      ensures p in r'.world.passes && L.Placed(PlaceOf(k[p], r'.world.passes[p]), list, r.ids, r.world.nextId)
    {
      assert IsPass((k + [f])[p], c);
    }
    forall p | p in r'.world.passes ensures p < |k| && IsPass(k[p], c) {
      assert IsPass((k + [f])[p], c);
    }
  }

  lemma GetNextStands(list: seq<T.Slot>, p: nat, r: Record, all: bool)
    requires Stands(list, r, all) && p in r.world.passes
    ensures var pass := L.Advance(r.world.live, r.world.passes[p]);
            && L.Step(r.world, L.GetNext(p)) == r.world.(passes := r.world.passes[p := pass])
            && Stands(list, r.(world := L.Step(r.world, L.GetNext(p))), all)
  {
    L.StepKeeps(r.world, L.GetNext(p));
    hide L.Inv, L.Filled, L.Numbered, L.Distinct, L.Advance;
  }

  /** The pass of an iterator that reaches a slot calls the registration there. */
  lemma NextPlaced(x: T.Context, f: T.Frame, r: Record, pass: L.Pass, all: bool)
    requires Stands(x.list, r, all) && f.Iterating? && Reached(x, f) < T.Limit(f, x)
    requires L.Placed(PlaceOf(f, pass), x.list, r.ids, r.world.nextId)
    ensures var i := Reached(x, f);
            && L.Placed(L.Place(i + 1, PlaceOf(f, pass).maxIndex, L.Advance(r.world.live, pass)),
                        x.list, r.ids, r.world.nextId)
            && L.Next(r.world.live, pass) == Some(L.Registration(r.ids[i], x.list[i].value))
  {
    var i := Reached(x, f);
    hide L.Inv, L.Placed, L.Filled, L.Numbered, L.Next;
    ReachedIsNext(x.list, f, x, r.ids, r.world.nextId, pass);
    L.PlacedAfterNext(PlaceOf(f, pass).(index := i), x.list, r.ids, r.world.nextId);
    hide Reached;
  }

  lemma OwnPass(x: T.Context, c: T.Address, k: seq<T.Frame>, f: T.Frame, r: Record, all: bool)
    requires Follows(x, c, k + [f], r, all) && IsPass(f, c)
    ensures |r.ids| == |x.list| && |k| in r.world.passes && Stands(x.list, r, all) && PassesStand(x.list, c, k + [f], r)
    ensures L.Placed(PlaceOf(f, r.world.passes[|k|]), x.list, r.ids, r.world.nextId)
  {
    hide L.Placed;
    assert IsPass((k + [f])[|k|], c);
  }

  /** The pass goes on: it calls the registration that is next. */
  lemma NextFollows(x: T.Context, c: T.Address, k: seq<T.Frame>, f: T.Frame, r: Record, all: bool)
    requires Follows(x, c, k + [f], r, all) && IsPass(f, c) && Reached(x, f) < T.Limit(f, x)
    ensures Follows(x, c, k + [T.Iterating(c, Reached(x, f) + 1, f.maxIndex, f.bounded)], Advanced(x, |k|, f, r), all)
    ensures |k| in r.world.passes
    ensures L.Next(r.world.live, r.world.passes[|k|])
         == Some(L.Registration(r.ids[Reached(x, f)], x.list[Reached(x, f)].value))
  {
    hide Stands, L.Placed, L.Next, L.Advance, Reached, PassesStand, L.Step, T.Limit;
    OwnPass(x, c, k, f, r, all);
    var f' := T.Iterating(c, Reached(x, f) + 1, f.maxIndex, f.bounded);
    var pass := r.world.passes[|k|];
    GetNextStands(x.list, |k|, r, all);
    NextPlaced(x, f, r, pass, all);
    PassMoved(x.list, c, k, f, r, f', L.Advance(r.world.live, pass), Advanced(x, |k|, f, r));
  }

  lemma {:induction false} KeptAreIn(list: seq<T.Slot>, ids: seq<nat>)
    requires |ids| == |list|
    ensures |KeptIds(list, ids)| == |T.Compact(list)|
    ensures forall x <- T.Compact(list) :: x in list && x.Some?
    ensures forall id <- KeptIds(list, ids) :: id in ids
  {
    if list != [] { KeptAreIn(list[1..], ids[1..]); }
  }

  lemma {:induction false} KeptIdsAre(list: seq<T.Slot>, ids: seq<nat>, nextId: nat)
    requires |ids| == |list| && L.Numbered(ids, nextId) && L.Distinct(list)
    ensures |KeptIds(list, ids)| == |T.Compact(list)|
    ensures L.Numbered(KeptIds(list, ids), nextId) && L.Distinct(T.Compact(list))
    ensures L.Filled(T.Compact(list), KeptIds(list, ids)) == L.Filled(list, ids)
  {
    if list != [] {
      KeptIdsAre(list[1..], ids[1..], nextId);
      assert [] + T.Compact(list[1..]) == T.Compact(list[1..]);
      assert [] + KeptIds(list[1..], ids[1..]) == KeptIds(list[1..], ids[1..]);
      KeptAreIn(list[1..], ids[1..]);
      if list[0].Some? {
        NumberedHead(ids, KeptIds(list[1..], ids[1..]), nextId);
        DistinctHead(list, T.Compact(list[1..]));
      }
      hide L.Numbered, L.Distinct;
    }
  }

  lemma NumberedHead(ids: seq<nat>, kept: seq<nat>, nextId: nat)
    requires ids != [] && L.Numbered(ids, nextId) && L.Numbered(kept, nextId) && forall id <- kept :: id in ids[1..]
    ensures L.Numbered([ids[0]] + kept, nextId)
  {
    forall j | 0 <= j < |kept| ensures ids[0] < kept[j] {
      assert kept[j] in kept;
      var i :| 0 <= i < |ids| - 1 && ids[1..][i] == kept[j];
      assert ids[i + 1] == kept[j];
    }
  }

  lemma DistinctHead(list: seq<T.Slot>, kept: seq<T.Slot>)
    requires list != [] && L.Distinct(list) && L.Distinct(kept) && list[0].Some? && forall x <- kept :: x in list[1..]
    ensures L.Distinct([list[0]] + kept)
  {
    forall j | 0 <= j < |kept| ensures list[0] != kept[j] {
      assert kept[j] in kept;
      var i :| 0 <= i < |list| - 1 && list[1..][i] == kept[j];
      assert list[i + 1] == kept[j];
    }
  }

  lemma EndStands(x: T.Context, p: nat, f: T.Frame, r: Record, all: bool)
    requires Stands(x.list, r, all) && f.Iterating? && p in r.world.passes && Reached(x, f) >= T.Limit(f, x)
    requires L.Placed(PlaceOf(f, r.world.passes[p]), x.list, r.ids, r.world.nextId)
    ensures var r' := Advanced(x, p, f, r);
            && Stands(T.PassEnded(x).list, r', all) && L.CalledAll(r.world, p)
            && r'.world == r.world.(passes := r.world.passes - {p}, start := r.world.start - {p})
            && (x.depth != 1 ==> r'.ids == r.ids)
  {
    hide L.Inv, L.Filled, L.Numbered, L.Placed, L.Distinct, L.Next, Reached, KeptIds, T.Compact, L.CalledAll, L.Step;
    ReachedIsNext(x.list, f, x, r.ids, r.world.nextId, r.world.passes[p]);
    L.NothingLeft(r.world, p);
    PassEnds(r.world, p);
    KeptIdsAre(x.list, r.ids, r.world.nextId);
  }

  lemma PassEnds(w: L.World<T.Observer>, p: nat)
    requires L.Inv(w) && p in w.passes && L.Next(w.live, w.passes[p]) == None
    ensures var w' := L.Step(L.Step(w, L.GetNext(p)), L.End(p));
            L.Inv(w') && w' == w.(passes := w.passes - {p}, start := w.start - {p})
  {
    assert w.passes[p := w.passes[p]] == w.passes;
    assert L.Step(w, L.GetNext(p)) == w;
    L.StepKeeps(w, L.End(p));
    hide L.Inv;
  }

  /** The pass ends, having called all it should; the last one over the list compacts it. */
  lemma EndFollows(x: T.Context, c: T.Address, k: seq<T.Frame>, f: T.Frame, r: Record, all: bool)
    requires Follows(x, c, k + [f], r, all) && IsPass(f, c) && Reached(x, f) >= T.Limit(f, x)
    requires x.depth == 1 ==> forall p :: 0 <= p < |k| ==> !IsPass(k[p], c)
    ensures Follows(T.PassEnded(x), c, k, Advanced(x, |k|, f, r), all)
    ensures L.CalledAll(r.world, |k|)
  {
    OwnPass(x, c, k, f, r, all);
    EndStands(x, |k|, f, r, all);
    hide L.Placed, Advanced, Reached, L.CalledAll, T.Compact, L.Inv, L.Filled, L.Numbered, L.Distinct;
    var r' := Advanced(x, |k|, f, r);
    PassGone(x.list, c, k, f, r, Record(r.ids, r'.world));
  }

  // What a call in progress does to its own context, to the others, and to other threads

  lemma Aside(x: T.Context, c: T.Address, k: seq<T.Frame>, f: T.Frame, r: Record, all: bool)
    requires !IsPass(f, c)
    ensures Follows(x, c, k + [f], r, all) <==> Follows(x, c, k, r, all)
  {
    hide L.Inv, L.Filled, L.Numbered, L.Distinct, L.Placed;
    forall p | 0 <= p < |k| ensures (k + [f])[p] == k[p] {}
    if Follows(x, c, k, r, all) {
      assert forall p :: 0 <= p <= |k| && IsPass((k + [f])[p], c) ==> p < |k|;
    }
    if Follows(x, c, k + [f], r, all) {
      forall p <- r.world.passes ensures p < |k| && IsPass(k[p], c) {
        assert IsPass((k + [f])[p], c);
      }
      forall p | 0 <= p < |k| && IsPass(k[p], c)
        ensures p in r.world.passes && L.Placed(PlaceOf(k[p], r.world.passes[p]), x.list, r.ids, r.world.nextId)
      {
        assert IsPass((k + [f])[p], c);
      }
    }
  }

  lemma NoPasses(k: seq<T.Frame>, c: T.Address)
    requires T.Passes(k, c) == 0
    ensures forall p :: 0 <= p < |k| ==> !IsPass(k[p], c)
  {
    forall p | 0 <= p < |k| ensures !IsPass(k[p], c) { T.PassesZero(k, c, p); }
  }

  /** A call moves on: where it is now, and what becomes of its context. */
  ghost predicate Moved(s: T.State, s': T.State, t: T.ThreadId, k: seq<T.Frame>, f: T.Frame) {
    && s'.kind == s.kind
    && (forall u :: u != t ==> T.Stack(s', u) == T.Stack(s, u))
    && (T.Stack(s', t) == k || exists f': T.Frame :: f'.ctx == f.ctx && T.Stack(s', t) == k + [f'])
    && (forall d <- s'.heap :: d != f.ctx ==> d in s.heap && s'.heap[d] == s.heap[d])
  }

  lemma StepHeap(s: T.State, t: T.ThreadId, f: T.Frame)
    requires T.Stack(s, t) != [] && T.Stack(s, t)[|T.Stack(s, t)| - 1] == f && T.Step(s, t).Next?
    ensures var s' := T.Step(s, t).state;
            && s'.kind == s.kind
            && forall d <- s'.heap :: d != f.ctx ==> d in s.heap && s'.heap[d] == s.heap[d]
  {
    hide T.ListAdd, T.ListRemove, T.SkipEmpty, T.PassEnded, T.Limit;
  }

  lemma StepStacks(s: T.State, t: T.ThreadId, k: seq<T.Frame>, f: T.Frame)
    requires T.Stack(s, t) == k + [f] && T.Step(s, t).Next?
    ensures var s' := T.Step(s, t).state;
            && (forall u :: u != t ==> T.Stack(s', u) == T.Stack(s, u))
            && (|| T.Stack(s', t) == k
                || (|T.Stack(s', t)| == |k| + 1 && T.Stack(s', t) == k + [T.Stack(s', t)[|k|]]
                    && T.Stack(s', t)[|k|].ctx == f.ctx))
  {
    assert (k + [f])[..|k|] == k;
    hide T.ListAdd, T.ListRemove, T.SkipEmpty, T.PassEnded, T.Limit;
  }

  lemma StepMoves(s: T.State, t: T.ThreadId, k: seq<T.Frame>, f: T.Frame)
    requires T.Stack(s, t) == k + [f] && T.Step(s, t).Next?
    ensures Moved(s, T.Step(s, t).state, t, k, f)
  {
    hide T.Step, T.Stack;
    StepHeap(s, t, f);
    StepStacks(s, t, k, f);
  }

  /** The contexts a step does not concern. */
  lemma OtherFollows(s: T.State, s': T.State, t: T.ThreadId, k: seq<T.Frame>, f: T.Frame, d: T.Address, r: Record)
    requires T.Stack(s, t) == k + [f] && Moved(s, s', t, k, f) && d in s'.heap && d in s.heap && d != f.ctx
    requires Follows(s.heap[d], d, T.Stack(s, s.heap[d].owner), r, s.kind.NotifyAll?)
    ensures Follows(s'.heap[d], d, T.Stack(s', s'.heap[d].owner), r, s'.kind.NotifyAll?)
  {
    hide Follows;
    if s.heap[d].owner == t {
      Aside(s.heap[d], d, k, f, r, s.kind.NotifyAll?);
      if T.Stack(s', t) != k {
        var f': T.Frame :| f'.ctx == f.ctx && T.Stack(s', t) == k + [f'];
        Aside(s.heap[d], d, k, f', r, s.kind.NotifyAll?);
      }
    }
  }

  /** What the step of call f leaves of its own context follows what the record becomes. */
  lemma OwnFollows(s: T.State, s': T.State, t: T.ThreadId, k: seq<T.Frame>, f: T.Frame, r: Record)
    requires T.Inv(s) && T.Stack(s, t) == k + [f] && T.Step(s, t) == T.Next(s') && f.ctx in s.heap && f.ctx in s'.heap
    requires Follows(s.heap[f.ctx], f.ctx, k + [f], r, s.kind.NotifyAll?) && |r.ids| == |s.heap[f.ctx].list|
    ensures Follows(s'.heap[f.ctx], f.ctx, T.Stack(s', t), Continued(s.heap[f.ctx], |k|, f, r), s'.kind.NotifyAll?)
  {
    hide T.Inv, T.StackOk, T.Client, T.FitsTop, T.Passes, T.Step, T.Stack, Follows, Continued, Reached, T.Limit;
    var x := s.heap[f.ctx];
    T.Innermost(s, t, k, f);
    if x.depth == 0 || (x.depth == 1 && f.Iterating?) { NoPasses(k, f.ctx); }
    if f.Iterating? {
      PassSteps(s, t, k, f);
      PassFollows(x, f.ctx, k, f, r, s.kind.NotifyAll?, s'.heap[f.ctx], T.Stack(s', t));
    } else {
      Aside(x, f.ctx, k, f, r, s.kind.NotifyAll?);
      OtherCallFollows(s, t, k, f, r);
    }
  }

  lemma SplitLast<X>(k: seq<X>)
    requires k != []
    ensures k == k[..|k| - 1] + [k[|k| - 1]]
  {
  }

  lemma PassFollows(x: T.Context, c: T.Address, k: seq<T.Frame>, f: T.Frame, r: Record, all: bool,
                    x': T.Context, k': seq<T.Frame>)
    requires Follows(x, c, k + [f], r, all) && IsPass(f, c) && |r.ids| == |x.list|
    requires x.depth == 1 ==> forall p :: 0 <= p < |k| ==> !IsPass(k[p], c)
    requires Reached(x, f) < T.Limit(f, x) ==>
      x' == x && k' == k + [T.Iterating(c, Reached(x, f) + 1, f.maxIndex, f.bounded)]
    requires Reached(x, f) >= T.Limit(f, x) ==> x' == T.PassEnded(x) && k' == k + [T.WrapperTest(c)]
    ensures Follows(x', c, k', Continued(x, |k|, f, r), all)
  {
    hide Follows, Advanced, Reached, T.Limit, T.PassEnded;
    if Reached(x, f) < T.Limit(f, x) {
      NextFollows(x, c, k, f, r, all);
    } else {
      EndFollows(x, c, k, f, r, all);
      Aside(T.PassEnded(x), c, k, T.WrapperTest(c), Advanced(x, |k|, f, r), all);
    }
  }

  /** The observer an iterator reaches is called; past the last one the iterator goes. */
  lemma PassSteps(s: T.State, t: T.ThreadId, k: seq<T.Frame>, f: T.Frame)
    requires T.Stack(s, t) == k + [f] && f.Iterating? && f.ctx in s.heap
    ensures T.Step(s, t).Next?
    ensures var x, s' := s.heap[f.ctx], T.Step(s, t).state;
            && s'.kind == s.kind && f.ctx in s'.heap
            && (Reached(x, f) < T.Limit(f, x) ==>
                  && s'.heap == s.heap
                  && T.Stack(s', t) == k + [T.Iterating(f.ctx, Reached(x, f) + 1, f.maxIndex, f.bounded)])
            && (Reached(x, f) >= T.Limit(f, x) ==>
                  s'.heap == s.heap[f.ctx := T.PassEnded(x)] && T.Stack(s', t) == k + [T.WrapperTest(f.ctx)])
  {
    assert (k + [f])[..|k|] == k && (k + [f])[|k|] == f;
    hide T.SkipEmpty, T.Limit, T.PassEnded;
  }

  lemma SameLength(x: T.Context, c: T.Address, k: seq<T.Frame>, r: Record, all: bool)
    requires Follows(x, c, k, r, all)
    ensures |r.ids| == |x.list|
  {
  }

  lemma OtherCallFollows(s: T.State, t: T.ThreadId, k: seq<T.Frame>, f: T.Frame, r: Record)
    requires T.Stack(s, t) == k + [f] && !f.Iterating? && f.ctx in s.heap && T.Step(s, t).Next?
    requires Follows(s.heap[f.ctx], f.ctx, k, r, s.kind.NotifyAll?) && |r.ids| == |s.heap[f.ctx].list|
    requires s.heap[f.ctx].depth == 0 ==> forall p :: 0 <= p < |k| ==> !IsPass(k[p], f.ctx)
    requires f.ctx in T.Step(s, t).state.heap
    ensures var s' := T.Step(s, t).state;
            Follows(s'.heap[f.ctx], f.ctx, T.Stack(s', t), Continued(s.heap[f.ctx], |k|, f, r), s'.kind.NotifyAll?)
  {
    var x, c, all := s.heap[f.ctx], f.ctx, s.kind.NotifyAll?;
    assert (k + [f])[..|k|] == k && (k + [f])[|k|] == f;
    hide Follows, Added, Removed, T.ListAdd, T.ListRemove;
    match f
    case AddToList(_, obs) => AddFollows(x, c, k, r, obs, all);
    case RemoveFromList(_, obs) =>
      RemoveFollows(x, c, k, r, obs, all);
      Aside(x.(list := T.ListRemove(x.list, x.depth, obs)), c, k, T.RemoveTest(c), Removed(x, r, obs), all);
    case WrapperStart(_) => BeginFollows(x, c, k, r, all);
    case RemoveTest(_) =>
    case WrapperTest(_) => Aside(x, c, k, T.WrapperDelete(c), r, all);
    case WrapperDelete(_) =>
  }

  // The journal of a run

  /** The innermost call of a thread moves on. */
  ghost function NotedStep(s: T.State, j: Journal, t: T.ThreadId): Journal
    requires T.Inv(s) && Tracks(s, j) && T.Stack(s, t) != []
  {
    var k := T.Stack(s, t);
    var f := k[|k| - 1];
    assert T.StackOk(s, t) && f.ctx in s.heap;
    j[f.ctx := Continued(s.heap[f.ctx], |k| - 1, f, j[f.ctx])]
  }

  /** A new context begins with the empty list. */
  ghost function Noted(s: T.State, j: Journal, a: T.Action): Journal
    requires T.Inv(s) && Tracks(s, j)
  {
    if a.Proceed? && T.Stack(s, a.thread) != [] then NotedStep(s, j, a.thread)
    else if a.Add? && T.HandsOut(s, a, a.thread, a.address) then
      j[a.address := Record([], L.Empty(s.kind.NotifyAll?))]
    else j
  }

  lemma StepTracks(s: T.State, s': T.State, j: Journal, t: T.ThreadId)
    requires T.Inv(s) && Tracks(s, j) && T.Stack(s, t) != [] && T.Step(s, t) == T.Next(s')
    ensures Tracks(s', NotedStep(s, j, t))
  {
    hide T.Inv, T.Step, T.FitsTop, T.Passes, T.Fits, T.ContextOk, T.Stack, Follows, Continued, Moved, T.StackOk;
    var k, f := T.Stack(s, t)[..|T.Stack(s, t)| - 1], T.Stack(s, t)[|T.Stack(s, t)| - 1];
    SplitLast(T.Stack(s, t));
    StepMoves(s, t, k, f);
    T.Innermost(s, t, k, f);
    StepOwner(s, t, f);
    SameLength(s.heap[f.ctx], f.ctx, k + [f], j[f.ctx], s.kind.NotifyAll?);
    NotedStepIs(s, j, t, k, f);
    hide NotedStep;
    MovedTracks(s, s', j, t, k, f);
  }

  lemma NotedStepIs(s: T.State, j: Journal, t: T.ThreadId, k: seq<T.Frame>, f: T.Frame)
    requires T.Inv(s) && Tracks(s, j) && T.Stack(s, t) == k + [f]
    requires f.ctx in s.heap && |j[f.ctx].ids| == |s.heap[f.ctx].list|
    ensures NotedStep(s, j, t) == j[f.ctx := Continued(s.heap[f.ctx], |k|, f, j[f.ctx])]
  {
    hide T.Inv, Follows, Continued;
    assert T.Stack(s, t)[|k|] == f;
  }

  lemma MovedTracks(s: T.State, s': T.State, j: Journal, t: T.ThreadId, k: seq<T.Frame>, f: T.Frame)
    requires T.Inv(s) && Tracks(s, j) && T.Stack(s, t) == k + [f] && T.Step(s, t) == T.Next(s')
    requires Moved(s, s', t, k, f) && f.ctx in s.heap && s.heap[f.ctx].owner == t
    requires |j[f.ctx].ids| == |s.heap[f.ctx].list|
    requires f.ctx in s'.heap ==> s'.heap[f.ctx].owner == t
    ensures Tracks(s', j[f.ctx := Continued(s.heap[f.ctx], |k|, f, j[f.ctx])])
  {
    hide T.Inv, T.Step, Follows, Continued, T.Stack;
    var j' := j[f.ctx := Continued(s.heap[f.ctx], |k|, f, j[f.ctx])];
    forall d <- s'.heap
      ensures d in j' && Follows(s'.heap[d], d, T.Stack(s', s'.heap[d].owner), j'[d], s'.kind.NotifyAll?)
    {
      if d == f.ctx {
        OwnFollows(s, s', t, k, f, j[d]);
      } else {
        assert d in s.heap by { OnlyOwn(s, s', t, k, f, d); }
        OtherFollows(s, s', t, k, f, d, j[d]);
      }
    }
  }

  lemma OnlyOwn(s: T.State, s': T.State, t: T.ThreadId, k: seq<T.Frame>, f: T.Frame, d: T.Address)
    requires Moved(s, s', t, k, f) && d in s'.heap && d != f.ctx
    ensures d in s.heap
  {
  }

  lemma StepOwner(s: T.State, t: T.ThreadId, f: T.Frame)
    requires T.Stack(s, t) != [] && T.Stack(s, t)[|T.Stack(s, t)| - 1] == f && T.Step(s, t).Next?
    ensures var s' := T.Step(s, t).state;
            f.ctx in s'.heap ==> f.ctx in s.heap && s'.heap[f.ctx].owner == s.heap[f.ctx].owner
  {
    hide T.ListAdd, T.ListRemove, T.SkipEmpty, T.Limit;
  }

  lemma CallTracks(s: T.State, j: Journal, t: T.ThreadId, f: T.Frame)
    requires Tracks(s, j) && !f.Iterating?
    ensures Tracks(T.Push(s, t, f), j)
  {
    hide Follows;
    var s' := T.Push(s, t, f);
    forall d <- s'.heap
      ensures d in j && Follows(s'.heap[d], d, T.Stack(s', s'.heap[d].owner), j[d], s'.kind.NotifyAll?)
    {
      Aside(s.heap[d], d, T.Stack(s, t), f, j[d], s.kind.NotifyAll?);
    }
  }

  lemma NewTracks(s: T.State, j: Journal, t: T.ThreadId, c: T.Address, s': T.State)
    requires T.Inv(s) && Tracks(s, j) && c !in s.heap
    requires s'.stacks == s.stacks && s'.kind == s.kind && s'.heap == s.heap[c := T.Context(t, [], 0)]
    ensures Tracks(s', j[c := Record([], L.Empty(s.kind.NotifyAll?))])
  {
    hide Follows, L.Empty, T.ContextOk, T.Fits;
    var k, empty := T.Stack(s, t), Record([], L.Empty(s.kind.NotifyAll?));
    assert T.StackOk(s, t);
    EmptyFollows(t, c, k, s.kind.NotifyAll?);
    hide T.Inv, T.StackOk;
    forall d <- s'.heap
      ensures Follows(s'.heap[d], d, T.Stack(s', s'.heap[d].owner), j[c := empty][d], s'.kind.NotifyAll?)
    {
      assert T.Stack(s', s'.heap[d].owner) == T.Stack(s, s'.heap[d].owner);
    }
  }

  lemma EmptyFollows(t: T.ThreadId, c: T.Address, k: seq<T.Frame>, all: bool)
    requires forall p :: 0 <= p < |k| ==> k[p].ctx != c
    ensures Follows(T.Context(t, [], 0), c, k, Record([], L.Empty(all)), all)
  {
  }

  lemma ActTracks(s: T.State, j: Journal, a: T.Action)
    requires T.Inv(s) && Tracks(s, j) && T.Act(s, a).Next?
    ensures Tracks(T.Act(s, a).state, Noted(s, j, a))
  {
    match a
    case Add(t, obs, hasLoop, address) => AddTracks(s, j, t, obs, hasLoop, address);
    case Remove(t, obs) => RemoveTracks(s, j, t, obs);
    case RunTask(t, c) => RunTaskTracks(s, j, t, c);
    case Proceed(t) => StepTracks(s, T.Act(s, a).state, j, t);
    case Destroy => DestroyTracks(s, j);
    case Notify(_) => hide T.Inv, Follows;
    case DropTask(_) => hide T.Inv, Follows;
  }

  lemma AddTracks(s: T.State, j: Journal, t: T.ThreadId, obs: T.Observer, hasLoop: bool, c: T.Address)
    requires T.Inv(s) && Tracks(s, j) && T.Act(s, T.Add(t, obs, hasLoop, c)).Next?
    ensures Tracks(T.Act(s, T.Add(t, obs, hasLoop, c)).state, Noted(s, j, T.Add(t, obs, hasLoop, c)))
  {
    hide T.Inv, Tracks;
    if T.HandsOut(s, T.Add(t, obs, hasLoop, c), t, c) {
      var s1 := s.(lists := s.lists[t := c], heap := s.heap[c := T.Context(t, [], 0)], news := s.news + 1);
      NewTracks(s, j, t, c, s1);
      CallTracks(s1, j[c := Record([], L.Empty(s.kind.NotifyAll?))], t, T.AddToList(c, obs));
    } else if hasLoop {
      CallTracks(s, j, t, T.AddToList(s.lists[t], obs));
    }
  }

  lemma RemoveTracks(s: T.State, j: Journal, t: T.ThreadId, obs: T.Observer)
    requires T.Inv(s) && Tracks(s, j) && T.Act(s, T.Remove(t, obs)).Next?
    ensures Tracks(T.Act(s, T.Remove(t, obs)).state, j)
  {
    hide T.Inv, Follows;
    if t in s.lists {
      CallTracks(s, j, t, T.RemoveFromList(s.lists[t], obs));
      CallTracks(s.(lists := s.lists - {t}), j, t, T.RemoveFromList(s.lists[t], obs));
    }
  }

  lemma RunTaskTracks(s: T.State, j: Journal, t: T.ThreadId, c: T.Address)
    requires T.Inv(s) && Tracks(s, j) && T.Act(s, T.RunTask(t, c)).Next?
    ensures Tracks(T.Act(s, T.RunTask(t, c)).state, j)
  {
    hide T.Inv, Follows;
    CallTracks(s.(tasks := s.tasks - multiset{T.Task(t, c)}), j, t, T.WrapperStart(c));
  }

  lemma DestroyTracks(s: T.State, j: Journal)
    requires T.Inv(s) && Tracks(s, j) && T.Act(s, T.Destroy).Next?
    ensures Tracks(T.Act(s, T.Destroy).state, j)
  {
    T.DestroyKeeps(s);
    assert T.Act(s, T.Destroy).state.heap == map[];
  }

  ghost function Journaled(s: T.State, j: Journal, actions: seq<T.Action>): Journal
    requires T.Inv(s) && Tracks(s, j)
    decreases |actions|
  {
    if actions == [] then j
    else
      var a := actions[0];
      T.ActKeeps(s, a);
      if T.Act(s, a).Next? then
        ActTracks(s, j, a);
        Journaled(T.Act(s, a).state, Noted(s, j, a), actions[1..])
      else Journaled(s, j, actions[1..])
  }

  lemma {:induction false} RunTracks(s: T.State, j: Journal, actions: seq<T.Action>)
    requires T.Inv(s) && Tracks(s, j)
    ensures T.Run(s, actions).Next? && T.Inv(T.Run(s, actions).state)
    ensures Tracks(T.Run(s, actions).state, Journaled(s, j, actions))
    decreases |actions|
  {
    T.RunKeeps(s, actions);
    hide T.Inv, Tracks, T.Act, Noted;
    if actions != [] {
      var a := actions[0];
      T.ActKeeps(s, a);
      if T.Act(s, a).Next? {
        ActTracks(s, j, a);
        RunTracks(T.Act(s, a).state, Noted(s, j, a), actions[1..]);
      } else {
        RunTracks(s, j, actions[1..]);
      }
    }
  }

  /** The journal of a run from the start. */
  ghost function JournalOf(kind: T.NotificationType, actions: seq<T.Action>): Journal {
    T.InitOk(kind);
    Journaled(T.Init(kind), map[], actions)
  }

  /** In any run, when call f of NotifyWrapper on thread t goes on: it calls the registration that is next
      in its pass, if there is one; and if there is none it ends, having called each registration then in
      force on that thread once and in order of addition, those made since it began exactly for
      NOTIFY_ALL. */
  lemma NotificationReaches(kind: T.NotificationType, actions: seq<T.Action>, t: T.ThreadId, k: seq<T.Frame>,
                            f: T.Frame)
    requires T.Run(T.Init(kind), actions).Next? && f.Iterating?
    requires T.Stack(T.Run(T.Init(kind), actions).state, t) == k + [f]
    ensures var s, j := T.Run(T.Init(kind), actions).state, JournalOf(kind, actions);
            f.ctx in s.heap && f.ctx in j && Notifies(s, t, k, f, j[f.ctx], kind.NotifyAll?)
  {
    var s, j := T.Run(T.Init(kind), actions).state, JournalOf(kind, actions);
    hide T.Run, Journaled, T.Inv, Follows, T.StackOk, T.Client, T.FitsTop, T.Passes, T.Stack, Notifies;
    T.InitOk(kind);
    RunTracks(T.Init(kind), map[], actions);
    KindStays(T.Init(kind), actions);
    T.Innermost(s, t, k, f);
    GoesOn(s, t, k, f, j[f.ctx], kind.NotifyAll?);
  }

  /** Call f, whose pass over the registrations in record r is the one named by its place on the stack,
      calls what is next in it or has called all it should. */
  ghost predicate Notifies(s: T.State, t: T.ThreadId, k: seq<T.Frame>, f: T.Frame, r: Record, all: bool)
    requires f.Iterating? && f.ctx in s.heap
  {
    var list, w := s.heap[f.ctx].list, r.world;
    && |r.ids| == |list| && L.Filled(list, r.ids) == w.live && w.all == all
    && |k| in w.passes && T.Stack(s, t) != [] && T.Step(s, t).Next?
    && var stack := T.Stack(T.Step(s, t).state, t);
       match L.Next(w.live, w.passes[|k|])
       case None => stack == k + [T.WrapperTest(f.ctx)] && L.CalledAll(w, |k|)
       case Some(next) =>
         && Calls(Continued(s.heap[f.ctx], |k|, f, r).world, |k|, w.passes[|k|].called + [next.id])
         && exists i :: (&& 0 <= i < |list| && list[i] == Some(next.observer) && r.ids[i] == next.id
                         && stack == k + [T.Iterating(f.ctx, i + 1, f.maxIndex, f.bounded)])
  }

  predicate Calls(w: L.World<T.Observer>, p: nat, called: seq<nat>) {
    p in w.passes && w.passes[p].called == called
  }

  lemma GoesOn(s: T.State, t: T.ThreadId, k: seq<T.Frame>, f: T.Frame, r: Record, all: bool)
    requires f.Iterating? && f.ctx in s.heap && T.Stack(s, t) == k + [f]
    requires Follows(s.heap[f.ctx], f.ctx, k + [f], r, all)
    ensures Notifies(s, t, k, f, r, all)
  {
    var x := s.heap[f.ctx];
    PassSteps(s, t, k, f);
    hide T.Step, T.Stack, T.SkipEmpty, T.Limit, L.Placed, L.Next, L.Filled, L.CalledAll, L.Inv, L.Numbered, L.Distinct,
         L.Advance, Follows;
    OwnPass(x, f.ctx, k, f, r, all);
    ReachedIsNext(x.list, f, x, r.ids, r.world.nextId, r.world.passes[|k|]);
    if Reached(x, f) >= T.Limit(f, x) {
      EndStands(x, |k|, f, r, all);
    } else {
      GetNextStands(x.list, |k|, r, all);
    }
  }

  lemma {:induction false} KindStays(s: T.State, actions: seq<T.Action>)
    requires T.Run(s, actions).Next?
    ensures T.Run(s, actions).state.kind == s.kind
    decreases |actions|
  {
    if actions != [] {
      match T.Act(s, actions[0])
      case Next(s') =>
        KindOfAct(s, actions[0]);
        KindStays(s', actions[1..]);
      case NotEnabled => KindStays(s, actions[1..]);
      case Fault =>
    }
  }

  lemma KindOfAct(s: T.State, a: T.Action)
    requires T.Act(s, a).Next?
    ensures T.Act(s, a).state.kind == s.kind
  {
    if a.Proceed? {
      StepHeap(s, a.thread, T.Stack(s, a.thread)[|T.Stack(s, a.thread)| - 1]);
    }
    hide T.Step;
  }
}
