/**
 * ObserverListBase and its Iterator (base/observer_list.h).  A list may be changed while passes run
 * over it: removal then only clears a slot, and the last iterator to go away compacts.
 *
 * The reference is a list of registrations numbered in order of addition, without slots, indices or
 * depths; a pass over it is a cursor into the numbers.  The class is proved to behave as the
 * reference, and what the reference promises is proved over every run.
 */
module ObserverLists {
  import opened Options
  import opened Sequences

  /** One addition of an observer: adding it again later is another registration. */
  datatype Registration<O> = Registration(id: nat, observer: O)

  /** A pass: registrations before `cursor` are behind it, those at or past `limit` not part of it. */
  datatype Pass = Pass(cursor: nat, limit: Option<nat>, called: seq<nat>) {
    predicate Includes(id: nat) { limit.Some? ==> id < limit.value }
  }

  // The reference

  /** The registration a pass reaches next. */
  function Next<O>(live: seq<Registration<O>>, pass: Pass): Option<Registration<O>> {
    if live == [] then None
    else if pass.cursor <= live[0].id && pass.Includes(live[0].id) then Some(live[0])
    else Next(live[1..], pass)
  }

  function Advance<O>(live: seq<Registration<O>>, pass: Pass): Pass {
    match Next(live, pass)
    case None => pass
    case Some(r) => pass.(cursor := r.id + 1, called := pass.called + [r.id])
  }

  function Without<O(==)>(live: seq<Registration<O>>, observer: O): seq<Registration<O>> {
    if live == [] then []
    else if live[0].observer == observer then live[1..]
    else [live[0]] + Without(live[1..], observer)
  }

  predicate Has<O(==)>(live: seq<Registration<O>>, observer: O) {
    exists i :: 0 <= i < |live| && live[i].observer == observer
  }

  // The class

  /** What the slots hold, in order. */
  ghost function Filled<O>(slots: seq<Option<O>>, ids: seq<nat>): seq<Registration<O>>
    requires |slots| == |ids|
  {
    if slots == [] then []
    else if slots[0].None? then Filled(slots[1..], ids[1..])
    else [Registration(ids[0], slots[0].value)] + Filled(slots[1..], ids[1..])
  }

  ghost predicate Increasing(ids: seq<nat>) {
    forall j, k :: 0 <= j < k < |ids| ==> ids[j] < ids[k]
  }

  /** No observer holds two slots. */
  predicate Distinct<O(==)>(slots: seq<Option<O>>) {
    forall j, k :: 0 <= j < k < |slots| && slots[j].Some? ==> slots[j] != slots[k]
  }

  lemma {:induction false} FilledConcat<O>(a: seq<Option<O>>, ia: seq<nat>, b: seq<Option<O>>, ib: seq<nat>)
    requires |a| == |ia| && |b| == |ib|
    ensures Filled(a + b, ia + ib) == Filled(a, ia) + Filled(b, ib)
  {
    if a == [] {
      assert a + b == b && ia + ib == ib;
    } else {
      assert (a + b)[1..] == a[1..] + b && (ia + ib)[1..] == ia[1..] + ib;
      FilledConcat(a[1..], ia[1..], b, ib);
      if a[0].Some? {
        Assoc([Registration(ia[0], a[0].value)], Filled(a[1..], ia[1..]), Filled(b, ib));
      }
    }
  }

  lemma FilledOne<O>(slot: Option<O>, id: nat)
    ensures Filled([slot], [id]) == if slot.Some? then [Registration(id, slot.value)] else []
  {
  }

  /** The list around its k-th slot. */
  lemma FilledAround<O>(slots: seq<Option<O>>, ids: seq<nat>, k: nat)
    requires |slots| == |ids| && k < |slots|
    ensures Filled(slots, ids)
         == Filled(slots[..k], ids[..k]) + (Filled([slots[k]], [ids[k]]) + Filled(slots[k + 1..], ids[k + 1..]))
    ensures Filled(slots[k := None], ids) == Filled(slots[..k], ids[..k]) + Filled(slots[k + 1..], ids[k + 1..])
    ensures Filled(slots[..k] + slots[k + 1..], ids[..k] + ids[k + 1..])
         == Filled(slots[..k], ids[..k]) + Filled(slots[k + 1..], ids[k + 1..])
  {
    var a, ia, b, ib := slots[..k], ids[..k], slots[k + 1..], ids[k + 1..];
    assert slots == a + ([slots[k]] + b) && slots[k := None] == a + ([None] + b) && ids == ia + ([ids[k]] + ib);
    FilledConcat(a, ia, [slots[k]] + b, [ids[k]] + ib);
    FilledConcat([slots[k]], [ids[k]], b, ib);
    FilledConcat(a, ia, [None] + b, [ids[k]] + ib);
    FilledConcat<O>([None], [ids[k]], b, ib);
    FilledConcat(a, ia, b, ib);
    FilledOne<O>(None, ids[k]);
    assert [] + Filled(b, ib) == Filled(b, ib);
  }

  lemma FilledSnoc<O>(slots: seq<Option<O>>, ids: seq<nat>, observer: O, id: nat)
    requires |slots| == |ids|
    ensures Filled(slots + [Some(observer)], ids + [id]) == Filled(slots, ids) + [Registration(id, observer)]
  {
    FilledConcat(slots, ids, [Some(observer)], [id]);
    FilledOne(Some(observer), id);
  }

  lemma {:induction false} HasSlot<O>(slots: seq<Option<O>>, ids: seq<nat>, observer: O)
    requires |slots| == |ids|
    ensures Has(Filled(slots, ids), observer) <==> Some(observer) in slots
  {
    if slots != [] {
      HasSlot(slots[1..], ids[1..], observer);
      var rest := Filled(slots[1..], ids[1..]);
      if slots[0].Some? {
        HasHead(Registration(ids[0], slots[0].value), rest, observer);
      } else {
        assert Filled(slots, ids) == rest;
      }
    }
  }

  lemma HasHead<O>(head: Registration<O>, rest: seq<Registration<O>>, observer: O)
    ensures Has([head] + rest, observer) <==> head.observer == observer || Has(rest, observer)
  {
    if head.observer == observer { assert ([head] + rest)[0].observer == observer; }
    if Has(rest, observer) {
      var i :| 0 <= i < |rest| && rest[i].observer == observer;
      assert ([head] + rest)[i + 1].observer == observer;
    }
  }

  lemma {:induction false} WithoutPast<O>(a: seq<Registration<O>>, b: seq<Registration<O>>, observer: O)
    requires !Has(a, observer)
    ensures Without(a + b, observer) == a + Without(b, observer)
  {
    if a == [] {
      assert a + b == b;
    } else {
      assert a == [a[0]] + a[1..] && (a + b)[1..] == a[1..] + b && (a + b)[0] == a[0];
      HasHead(a[0], a[1..], observer);
      WithoutHead(a + b, observer);
      hide Has, Without;
      WithoutPast(a[1..], b, observer);
      Assoc([a[0]], a[1..], Without(b, observer));
    }
  }

  lemma WithoutHead<O>(live: seq<Registration<O>>, observer: O)
    requires live != []
    ensures Without(live, observer)
         == if live[0].observer == observer then live[1..] else [live[0]] + Without(live[1..], observer)
  {
  }

  /** Clearing or erasing the slot that Find returns removes the observer. */
  lemma FilledWithout<O>(slots: seq<Option<O>>, ids: seq<nat>, observer: O, k: nat)
    requires |slots| == |ids| && k <= |slots| && (forall j :: 0 <= j < k ==> slots[j] != Some(observer))
    requires k < |slots| ==> slots[k] == Some(observer)
    ensures k == |slots| ==> Filled(slots, ids) == Without(Filled(slots, ids), observer)
    ensures k < |slots| ==> Filled(slots[k := None], ids) == Without(Filled(slots, ids), observer)
    ensures k < |slots| ==>
      Filled(slots[..k] + slots[k + 1..], ids[..k] + ids[k + 1..]) == Without(Filled(slots, ids), observer)
  {
    HasSlot(slots[..k], ids[..k], observer);
    var before := Filled(slots[..k], ids[..k]);
    if k == |slots| {
      assert slots[..k] == slots && ids[..k] == ids;
      WithoutPast(before, [], observer);
      assert before + [] == before;
    } else {
      FilledAround(slots, ids, k);
      FilledOne(slots[k], ids[k]);
      var after := Filled(slots[k + 1..], ids[k + 1..]);
      WithoutPast(before, [Registration(ids[k], observer)] + after, observer);
    }
  }

  lemma {:induction false} NothingFilled<O>(slots: seq<Option<O>>, ids: seq<nat>)
    requires |slots| == |ids| && forall k :: 0 <= k < |slots| ==> slots[k].None?
    ensures Filled(slots, ids) == []
  {
    if slots != [] { NothingFilled(slots[1..], ids[1..]); }
  }

  /** Taking a slot out keeps the order and the distinctness. */
  lemma Erased<O>(slots: seq<Option<O>>, ids: seq<nat>, nextId: nat, k: nat)
    requires |slots| == |ids| && k < |slots| && Numbered(ids, nextId) && Distinct(slots)
    ensures Numbered(ids[..k] + ids[k + 1..], nextId) && Distinct(slots[..k] + slots[k + 1..])
  {
  }

  lemma Added<O>(slots: seq<Option<O>>, ids: seq<nat>, nextId: nat, observer: O)
    requires |slots| == |ids| && Numbered(ids, nextId) && Distinct(slots) && Some(observer) !in slots
    ensures Numbered(ids + [nextId], nextId + 1) && Distinct(slots + [Some(observer)])
  {
  }

  /** Slots a pass has behind it do not matter to what it reaches next. */
  lemma {:induction false} NextSkips<O>(slots: seq<Option<O>>, ids: seq<nat>, i: nat, pass: Pass)
    requires |slots| == |ids| && i <= |slots|
    requires forall k :: 0 <= k < i && slots[k].Some? ==> ids[k] < pass.cursor
    ensures Next(Filled(slots, ids), pass) == Next(Filled(slots[i..], ids[i..]), pass)
  {
    if i > 0 {
      var rest := Filled(slots[1..], ids[1..]);
      NextSkips(slots[1..], ids[1..], i - 1, pass);
      assert slots[1..][i - 1..] == slots[i..] && ids[1..][i - 1..] == ids[i..];
      if slots[0].Some? {
        assert ([Registration(ids[0], slots[0].value)] + rest)[1..] == rest;
      }
    }
  }

  lemma {:induction false} NoNext<O>(slots: seq<Option<O>>, ids: seq<nat>, pass: Pass)
    requires |slots| == |ids|
    requires forall k :: 0 <= k < |slots| ==> !pass.Includes(ids[k])
    ensures Next(Filled(slots, ids), pass) == None
  {
    if slots != [] {
      var rest := Filled(slots[1..], ids[1..]);
      NoNext(slots[1..], ids[1..], pass);
      if slots[0].Some? {
        assert ([Registration(ids[0], slots[0].value)] + rest)[1..] == rest;
      }
    }
  }

  /** Where an iterator stands: its indices, and the pass they stand for. */
  datatype Place = Place(index: nat, maxIndex: Option<nat>, pass: Pass)

  /** The indices mean what the cursor and the limit of the pass say. */
  ghost predicate Placed<O>(at: Place, slots: seq<Option<O>>, ids: seq<nat>, nextId: nat)
    requires |ids| == |slots|
  {
    && at.index <= |slots| && at.pass.cursor <= nextId
    && (forall k :: 0 <= k < |ids| && slots[k].Some? ==> (k < at.index <==> ids[k] < at.pass.cursor))
    && (at.maxIndex.Some? <==> at.pass.limit.Some?)
    && (at.maxIndex.Some? ==>
          && at.maxIndex.value <= |slots| && at.pass.limit.value <= nextId
          && forall k :: 0 <= k < |ids| ==> (k < at.maxIndex.value <==> ids[k] < at.pass.limit.value))
  }

  ghost predicate Numbered(ids: seq<nat>, nextId: nat) {
    Increasing(ids) && forall k :: 0 <= k < |ids| ==> ids[k] < nextId
  }

  lemma PlacedAfterAdd<O>(at: Place, slots: seq<Option<O>>, ids: seq<nat>, nextId: nat, observer: O)
    requires |slots| == |ids| && Placed(at, slots, ids, nextId)
    ensures Placed(at, slots + [Some(observer)], ids + [nextId], nextId + 1)
  {
  }

  lemma PlacedAfterRemove<O>(at: Place, slots: seq<Option<O>>, ids: seq<nat>, nextId: nat, slots': seq<Option<O>>)
    requires |slots| == |ids| == |slots'| && Placed(at, slots, ids, nextId)
    requires forall k :: 0 <= k < |slots| && slots'[k].Some? ==> slots[k].Some?
    ensures Placed(at, slots', ids, nextId)
  {
  }

  lemma PlacedAtStart<O>(slots: seq<Option<O>>, ids: seq<nat>, nextId: nat, all: bool)
    requires |slots| == |ids| && Numbered(ids, nextId)
    ensures var pass := Pass(0, if all then None else Some(nextId), []);
            Placed(Place(0, if all then None else Some(|slots|), pass), slots, ids, nextId)
  {
  }

  /** Past an empty slot nothing changes; past a filled one the cursor moves behind its registration. */
  lemma PlacedAfterNext<O>(at: Place, slots: seq<Option<O>>, ids: seq<nat>, nextId: nat)
    requires |slots| == |ids| && Numbered(ids, nextId) && Placed(at, slots, ids, nextId)
    requires at.index < |slots|
    ensures slots[at.index].None? ==> Placed(at.(index := at.index + 1), slots, ids, nextId)
    ensures slots[at.index].Some? ==>
      Placed(Place(at.index + 1, at.maxIndex,
                   at.pass.(cursor := ids[at.index] + 1, called := at.pass.called + [ids[at.index]])),
             slots, ids, nextId)
  {
    assert forall k :: 0 <= k < at.index ==> ids[k] < ids[at.index];
    assert forall k :: at.index < k < |ids| ==> ids[at.index] < ids[k];
  }

  /** Where the index says the pass goes on. */
  function End(at: Place, size: nat): nat {
    if at.maxIndex.Some? && at.maxIndex.value < size then at.maxIndex.value else size
  }

  lemma NextAt<O>(at: Place, slots: seq<Option<O>>, ids: seq<nat>, nextId: nat)
    requires |slots| == |ids| && Placed(at, slots, ids, nextId)
    requires at.index < End(at, |slots|) ==> slots[at.index].Some?
    ensures Next(Filled(slots, ids), at.pass)
         == if at.index < End(at, |slots|) then Some(Registration(ids[at.index], slots[at.index].value)) else None
  {
    var i := at.index;
    NextSkips(slots, ids, i, at.pass);
    if i < End(at, |slots|) {
      assert slots[i..][0] == slots[i] && ids[i..][0] == ids[i];
    } else {
      forall k | 0 <= k < |slots| - i ensures !at.pass.Includes(ids[i..][k]) {
        assert ids[i..][k] == ids[i + k];
      }
      NoNext(slots[i..], ids[i..], at.pass);
    }
  }

  class ObserverListBase<O(==)> {
    const notifyAll: bool
    var observers: seq<Option<O>>
    var notifyDepth: nat
    var alive: bool
    ghost var ids: seq<nat>
    ghost var nextId: nat
    ghost var iterators: set<Iterator<O>>

    ghost predicate Slots()
      reads this
    {
      |ids| == |observers| && Numbered(ids, nextId) && Distinct(observers)
    }

    /** Slots are empty only while something iterates, and every iterator stands where its pass says. */
    ghost predicate Valid()
      reads this, iterators
    {
      && |ids| == |observers|
      && (alive ==>
            && Slots()
            && notifyDepth == |iterators|
            && (notifyDepth == 0 ==> forall k :: 0 <= k < |observers| ==> observers[k].Some?)
            && forall it <- iterators :: it.list == this && Placed(it.ThisPlace(), observers, ids, nextId))
    }

    /** The registrations in force. */
    ghost function Live(): seq<Registration<O>>
      requires |ids| == |observers|
      reads this
    {
      Filled(observers, ids)
    }

    constructor (notifyAll: bool)
      ensures Valid() && alive && Live() == [] && iterators == {} && nextId == 0 && this.notifyAll == notifyAll
    {
      this.notifyAll := notifyAll;
      observers, notifyDepth, alive := [], 0, true;
      ids, nextId, iterators := [], 0, {};
    }

    /** The first slot with that observer, or the length. */
    method Find(slot: Option<O>) returns (k: nat)
      ensures k <= |observers|
      ensures k < |observers| ==> observers[k] == slot
      ensures forall j :: 0 <= j < k ==> observers[j] != slot
    {
      k := 0;
      while k < |observers| && observers[k] != slot
        invariant k <= |observers| && forall j :: 0 <= j < k ==> observers[j] != slot
      {
        k := k + 1;
      }
    }

    method AddObserver(observer: O)
      requires Valid() && alive
      modifies `observers, `ids, `nextId
      ensures Valid() && iterators == old(iterators) && alive
      ensures if old(Has(Live(), observer)) then Live() == old(Live()) && nextId == old(nextId)
              else Live() == old(Live()) + [Registration(old(nextId), observer)] && nextId == old(nextId) + 1
    {
      var k := Find(Some(observer));
      HasSlot(observers, ids, observer);
      if k < |observers| {
        return;
      }
      FilledSnoc(observers, ids, observer, nextId);
      Added(observers, ids, nextId, observer);
      forall it <- iterators ensures Placed(it.ThisPlace(), observers + [Some(observer)], ids + [nextId], nextId + 1) {
        PlacedAfterAdd(it.ThisPlace(), observers, ids, nextId, observer);
      }
      hide Placed, Numbered, Distinct, Filled, Has;
      observers := observers + [Some(observer)];
      ids, nextId := ids + [nextId], nextId + 1;
    }

    method RemoveObserver(observer: O)
      requires Valid() && alive
      modifies `observers, `ids
      ensures Valid() && iterators == old(iterators) && alive && nextId == old(nextId)
      ensures Live() == Without(old(Live()), observer)
    {
      var k := Find(Some(observer));
      FilledWithout(observers, ids, observer, k);
      if k < |observers| {
        if notifyDepth > 0 {
          forall it <- iterators ensures Placed(it.ThisPlace(), observers[k := None], ids, nextId) {
            PlacedAfterRemove(it.ThisPlace(), observers, ids, nextId, observers[k := None]);
          }
          hide Placed, Numbered, Filled, Without;
          observers := observers[k := None];
        } else {
          Erased(observers, ids, nextId, k);
          hide Placed, Numbered, Distinct, Filled, Without;
          observers := observers[..k] + observers[k + 1..];
          ids := ids[..k] + ids[k + 1..];
        }
      }
    }

    method HasObserver(observer: O) returns (found: bool)
      requires Valid() && alive
      ensures found <==> Has(Live(), observer)
    {
      HasSlot(observers, ids, observer);
      var i := 0;
      while i < |observers|
        invariant i <= |observers| && forall j :: 0 <= j < i ==> observers[j] != Some(observer)
      {
        if observers[i] == Some(observer) {
          return true;
        }
        i := i + 1;
      }
      return false;
    }

    method Clear()
      requires Valid() && alive
      modifies `observers, `ids
      ensures Valid() && iterators == old(iterators) && alive && nextId == old(nextId)
      ensures Live() == []
    {
      if notifyDepth > 0 {
        var i := 0;
        while i < |observers|
          invariant i <= |observers| == |old(observers)|
          invariant forall k :: 0 <= k < |observers| ==> observers[k] == if k < i then None else old(observers)[k]
          invariant ids == old(ids) && nextId == old(nextId) && iterators == old(iterators)
          invariant alive == old(alive) && notifyDepth == old(notifyDepth)
        {
          observers := observers[i := None];
          i := i + 1;
        }
        NothingFilled(observers, ids);
        forall it <- iterators ensures Placed(it.ThisPlace(), observers, ids, nextId) {
          PlacedAfterRemove(it.ThisPlace(), old(observers), ids, nextId, observers);
        }
      } else {
        observers := [];
        ids := [];
      }
    }

    /** Moves the taken slots to the front in place, then drops what is behind them. */
    method Compact()
      requires Slots()
      modifies `observers, `ids
      ensures Slots() && (forall k :: 0 <= k < |observers| ==> observers[k].Some?)
      ensures Live() == old(Live())
    {
      ghost var slots, was := observers, ids;
      hide Numbered, Distinct, Filled;
      var i, w := 0, 0;
      assert slots[..0] + slots[0..] == slots && was[..0] + was[0..] == was;
      while i < |observers|
        invariant w <= i <= |observers| == |slots| && |ids| == |was| == |slots|
        invariant observers[i..] == slots[i..] && ids[i..] == was[i..]
        invariant forall k :: 0 <= k < w ==> observers[k].Some?
        invariant Numbered(ids[..w] + was[i..], nextId) && Distinct(observers[..w] + slots[i..])
        invariant Filled(observers[..w] + slots[i..], ids[..w] + was[i..]) == old(Live())
      {
        if observers[i] != None {
          Shift(observers, slots, i, w);
          Shift(ids, was, i, w);
          observers, ids := observers[w := observers[i]], ids[w := ids[i]];
          w := w + 1;
        } else {
          DropEmpty(observers[..w], ids[..w], slots[i..], was[i..], nextId);
          assert slots[i..][1..] == slots[i + 1..] && was[i..][1..] == was[i + 1..];
        }
        i := i + 1;
      }
      observers, ids := observers[..w], ids[..w];
      assert slots[i..] == [] && was[i..] == [];
      assert observers + [] == observers && ids + [] == ids;
    }

    /** The list goes away; iterators that outlive it find their weak pointer cleared. */
    method Destroy()
      requires Valid() && alive
      modifies `alive
      ensures Valid() && !alive && iterators == old(iterators) && nextId == old(nextId)
    {
      alive := false;
    }
  }

  lemma Shift<T>(a: seq<T>, b: seq<T>, i: nat, w: nat)
    requires w <= i < |a| == |b| && a[i..] == b[i..]
    ensures var a' := a[w := a[i]]; a'[..w + 1] + b[i + 1..] == a[..w] + b[i..] && a'[i + 1..] == b[i + 1..]
  {
  }

  lemma DropEmpty<O>(a: seq<Option<O>>, ia: seq<nat>, b: seq<Option<O>>, ib: seq<nat>, nextId: nat)
    requires |a| == |ia| && |b| == |ib| && b != [] && b[0] == None
    requires Numbered(ia + ib, nextId) && Distinct(a + b)
    ensures Numbered(ia + ib[1..], nextId) && Distinct(a + b[1..])
    ensures Filled(a + b[1..], ia + ib[1..]) == Filled(a + b, ia + ib)
  {
    Erased(a + b, ia + ib, nextId, |a|);
    assert (a + b)[..|a|] == a && (ia + ib)[..|a|] == ia;
    assert (a + b)[|a| + 1..] == b[1..] && (ia + ib)[|a| + 1..] == ib[1..];
    FilledConcat(a, ia, b, ib);
    FilledConcat(a, ia, b[1..], ib[1..]);
  }

  class Iterator<O(==)> {
    const list: ObserverListBase<O>
    const maxIndex: Option<nat>
    var index: nat
    ghost const limit: Option<nat>
    ghost var cursor: nat
    ghost var called: seq<nat>

    ghost function ThisPass(): Pass
      reads this
    {
      Pass(cursor, limit, called)
    }

    ghost function ThisPlace(): Place
      reads this
    {
      Place(index, maxIndex, ThisPass())
    }

    constructor (list: ObserverListBase<O>)
      requires list.Valid() && list.alive
      modifies list`notifyDepth, list`iterators
      ensures list.Valid() && list.alive && this.list == list && list.iterators == old(list.iterators) + {this}
      ensures list.Live() == old(list.Live()) && list.nextId == old(list.nextId)
      ensures ThisPass() == Pass(0, if list.notifyAll then None else Some(list.nextId), [])
    {
      this.list := list;
      index := 0;
      maxIndex := if list.notifyAll then None else Some(|list.observers|);
      cursor, called := 0, [];
      limit := if list.notifyAll then None else Some(list.nextId);
      new;
      PlacedAtStart(list.observers, list.ids, list.nextId, list.notifyAll);
      hide Placed, Filled, Numbered, Distinct;
      list.notifyDepth := list.notifyDepth + 1;
      list.iterators := list.iterators + {this};
    }

    method Destroy()
      requires list.Valid() && this in list.iterators
      modifies list`notifyDepth, list`iterators, list`observers, list`ids
      ensures list.Valid() && list.alive == old(list.alive)
      ensures list.alive ==> list.iterators == old(list.iterators) - {this}
      ensures list.Live() == old(list.Live()) && list.nextId == old(list.nextId)
    {
      if list.alive {
        list.notifyDepth := list.notifyDepth - 1;
        list.iterators := list.iterators - {this};
        if list.notifyDepth == 0 {
          list.Compact();
        }
      }
    }

    /** The loop of GetNext. */
    method SkipEmpty(max: nat)
      requires list.Slots() && max <= |list.observers|
      requires Placed(ThisPlace(), list.observers, list.ids, list.nextId)
      modifies `index
      ensures Placed(ThisPlace(), list.observers, list.ids, list.nextId)
      ensures index < max ==> list.observers[index].Some?
    {
      hide Placed, Numbered, Distinct;
      while index < max && list.observers[index] == None
        invariant Placed(ThisPlace(), list.observers, list.ids, list.nextId)
      {
        PlacedAfterNext(ThisPlace(), list.observers, list.ids, list.nextId);
        index := index + 1;
      }
    }

    method GetNext() returns (observer: Option<O>)
      requires list.Valid() && this in list.iterators
      modifies `index, `cursor, `called
      ensures list.Valid()
      ensures !list.alive ==> observer == None && ThisPass() == old(ThisPass())
      ensures list.alive ==> var next := Next(list.Live(), old(ThisPass()));
                observer == (if next.Some? then Some(next.value.observer) else None)
                && ThisPass() == Advance(list.Live(), old(ThisPass()))
    {
      if !list.alive {
        return None;
      }
      var max := if maxIndex.Some? && maxIndex.value < |list.observers| then maxIndex.value else |list.observers|;
      ghost var pass := ThisPass();
      hide Placed, Numbered, Distinct, Filled, Next;
      SkipEmpty(max);
      ghost var next := if index < max then Some(Registration(list.ids[index], list.observers[index].value)) else None;
      assert Next(list.Live(), pass) == next by {
        NextAt(ThisPlace(), list.observers, list.ids, list.nextId);
      }
      if index < max {
        PlacedAfterNext(ThisPlace(), list.observers, list.ids, list.nextId);
        observer := list.observers[index];
        cursor, called := list.ids[index] + 1, called + [list.ids[index]];
        index := index + 1;
      } else {
        observer := None;
      }
      OthersStand();
    }

    /** Moving one iterator leaves the others where they were. */
    twostate lemma OthersStand()
      requires old(list.Valid()) && list.alive && this in list.iterators && unchanged(list)
      requires forall it <- list.iterators :: it != this ==> unchanged(it)
      requires Placed(ThisPlace(), list.observers, list.ids, list.nextId)
      ensures list.Valid()
    {
      hide Placed, Numbered, Distinct;
      forall it <- list.iterators ensures Placed(it.ThisPlace(), list.observers, list.ids, list.nextId) {
        assert it == this || it.ThisPlace() == old(it.ThisPlace());
      }
    }
  }

  // Every run of the reference: any nesting of passes, any changes between and inside them

  datatype Op<O> =
    Add(observer: O) | Remove(observer: O) | Clear | Begin(pass: nat) | GetNext(pass: nat) | End(pass: nat)

  /** `start[p]` is the number the next registration would have had when pass p began. */
  datatype World<O> = World(
    all: bool, live: seq<Registration<O>>, nextId: nat, passes: map<nat, Pass>, start: map<nat, nat>)

  function Step<O(==)>(w: World<O>, op: Op<O>): World<O> {
    match op
    case Add(o) =>
      if Has(w.live, o) then w else w.(live := w.live + [Registration(w.nextId, o)], nextId := w.nextId + 1)
    case Remove(o) => w.(live := Without(w.live, o))
    case Clear => w.(live := [])
    case Begin(p) =>
      if p in w.passes then w
      else w.(passes := w.passes[p := Pass(0, if w.all then None else Some(w.nextId), [])],
              start := w.start[p := w.nextId])
    case GetNext(p) =>
      if p in w.passes then w.(passes := w.passes[p := Advance(w.live, w.passes[p])]) else w
    case End(p) => w.(passes := w.passes - {p}, start := w.start - {p})
  }

  function Run<O(==)>(w: World<O>, ops: seq<Op<O>>): World<O>
    decreases |ops|
  {
    if ops == [] then w else Run(Step(w, ops[0]), ops[1..])
  }

  function Empty<O>(all: bool): World<O> { World(all, [], 0, map[], map[]) }

  ghost predicate Registered<O>(live: seq<Registration<O>>, nextId: nat) {
    && (forall j, k :: 0 <= j < k < |live| ==> live[j].id < live[k].id)
    && (forall k :: 0 <= k < |live| ==> live[k].id < nextId)
  }

  /** The pass has called what it reached, in order, and missed nothing that is in force. */
  ghost predicate InStep<O>(pass: Pass, live: seq<Registration<O>>, nextId: nat) {
    && pass.cursor <= nextId && Increasing(pass.called)
    && (forall k :: 0 <= k < |pass.called| ==> pass.called[k] < pass.cursor && pass.Includes(pass.called[k]))
    && (forall k :: 0 <= k < |live| && live[k].id < pass.cursor && pass.Includes(live[k].id) ==>
          live[k].id in pass.called)
  }

  ghost predicate Inv<O>(w: World<O>) {
    && Registered(w.live, w.nextId) && w.passes.Keys == w.start.Keys
    && (forall p <- w.passes :: Follows(w, p))
  }

  ghost predicate Follows<O>(w: World<O>, p: nat)
    requires p in w.passes && p in w.start
  {
    && InStep(w.passes[p], w.live, w.nextId) && w.start[p] <= w.nextId
    && w.passes[p].limit == if w.all then None else Some(w.start[p])
  }

  lemma {:induction false} NextIs<O>(live: seq<Registration<O>>, pass: Pass)
    ensures match Next(live, pass)
            case None => forall k :: 0 <= k < |live| ==> live[k].id < pass.cursor || !pass.Includes(live[k].id)
            case Some(r) =>
              && r in live && pass.cursor <= r.id && pass.Includes(r.id)
              && exists i :: 0 <= i < |live| && live[i] == r
                   && forall k :: 0 <= k < i ==> live[k].id < pass.cursor || !pass.Includes(live[k].id)
  {
    if live != [] && !(pass.cursor <= live[0].id && pass.Includes(live[0].id)) {
      NextIs(live[1..], pass);
      if Next(live[1..], pass).Some? {
        var i :| 0 <= i < |live[1..]| && live[1..][i] == Next(live[1..], pass).value
                 && forall k :: 0 <= k < i ==> live[1..][k].id < pass.cursor || !pass.Includes(live[1..][k].id);
        forall k | 0 <= k < i + 1 ensures live[k].id < pass.cursor || !pass.Includes(live[k].id) {
          if k > 0 { assert live[k] == live[1..][k - 1]; }
        }
        assert live[i + 1] == Next(live, pass).value;
      }
    }
  }

  lemma {:induction false} WithoutIs<O>(live: seq<Registration<O>>, nextId: nat, observer: O)
    requires Registered(live, nextId)
    ensures Registered(Without(live, observer), nextId)
    ensures forall r <- Without(live, observer) :: r in live
  {
    if live != [] && live[0].observer != observer {
      WithoutIs(live[1..], nextId, observer);
      var rest := Without(live[1..], observer);
      assert forall k :: 0 <= k < |rest| ==> rest[k] in live[1..];
    }
  }

  lemma AdvanceKeeps<O>(pass: Pass, live: seq<Registration<O>>, nextId: nat)
    requires Registered(live, nextId) && InStep(pass, live, nextId)
    ensures InStep(Advance(live, pass), live, nextId)
  {
    NextIs(live, pass);
    var next := Next(live, pass);
    if next.Some? {
      var after := Advance(live, pass);
      assert after.called == pass.called + [next.value.id];
      var i :| 0 <= i < |live| && live[i] == next.value
               && forall k :: 0 <= k < i ==> live[k].id < pass.cursor || !pass.Includes(live[k].id);
      forall k | 0 <= k < |live| && live[k].id < after.cursor && after.Includes(live[k].id)
        ensures live[k].id in after.called
      {
        if k < i {
          assert live[k].id in pass.called;
        } else if k == i {
          assert after.called[|pass.called|] == live[k].id;
        }
      }
    }
  }

  lemma FewerLive<O>(pass: Pass, live: seq<Registration<O>>, fewer: seq<Registration<O>>, nextId: nat)
    requires InStep(pass, live, nextId) && forall r <- fewer :: r in live
    ensures InStep(pass, fewer, nextId)
  {
    forall k | 0 <= k < |fewer| && fewer[k].id < pass.cursor && pass.Includes(fewer[k].id)
      ensures fewer[k].id in pass.called
    {
      assert fewer[k] in live;
    }
  }

  lemma OneMoreLive<O>(pass: Pass, live: seq<Registration<O>>, nextId: nat, observer: O)
    requires InStep(pass, live, nextId)
    ensures InStep(pass, live + [Registration(nextId, observer)], nextId + 1)
  {
  }

  lemma StepKeeps<O>(w: World<O>, op: Op<O>)
    requires Inv(w)
    ensures Inv(Step(w, op))
  {
    if op.Add? || op.Remove? || op.Clear? {
      ListStepKeeps(w, op);
    } else {
      PassStepKeeps(w, op);
    }
  }

  lemma ListStepKeeps<O>(w: World<O>, op: Op<O>)
    requires Inv(w) && (op.Add? || op.Remove? || op.Clear?)
    ensures Inv(Step(w, op))
  {
    var w' := Step(w, op);
    if op.Remove? {
      WithoutIs(w.live, w.nextId, op.observer);
    }
    assert Registered(w'.live, w'.nextId);
    forall p <- w.passes ensures InStep(w.passes[p], w'.live, w'.nextId) {
      assert Follows(w, p);
      if op.Add? {
        OneMoreLive(w.passes[p], w.live, w.nextId, op.observer);
      } else {
        FewerLive(w.passes[p], w.live, w'.live, w.nextId);
      }
    }
  }

  lemma PassStepKeeps<O>(w: World<O>, op: Op<O>)
    requires Inv(w) && (op.Begin? || op.GetNext? || op.End?)
    ensures Inv(Step(w, op))
  {
    var w' := Step(w, op);
    assert w'.live == w.live && w'.nextId == w.nextId && w'.all == w.all;
    assert w'.passes.Keys == w'.start.Keys;
    forall p <- w'.passes ensures Follows(w', p) {
      assert p in w.passes ==> Follows(w, p);
      if op.GetNext? && p == op.pass {
        AdvanceKeeps(w.passes[p], w.live, w.nextId);
      }
    }
  }

  lemma {:induction false} RunKeeps<O>(world: World<O>, ops: seq<Op<O>>)
    requires Inv(world)
    ensures Inv(Run(world, ops))
    decreases |ops|
  {
    if ops != [] {
      StepKeeps(world, ops[0]);
      RunKeeps(Step(world, ops[0]), ops[1..]);
    }
  }

  /** The pass has called each registration in force once, in order of addition; those made since it
      began are among them exactly for NOTIFY_ALL. */
  ghost predicate CalledAll<O>(w: World<O>, p: nat) {
    && p in w.passes && p in w.start && Increasing(w.passes[p].called)
    && forall r <- w.live :: r.id in w.passes[p].called <==> (w.all || r.id < w.start[p])
  }

  lemma NothingLeft<O>(w: World<O>, p: nat)
    requires Inv(w) && p in w.passes && Next(w.live, w.passes[p]) == None
    ensures CalledAll(w, p)
  {
    assert Follows(w, p);
    NextIs(w.live, w.passes[p]);
  }

  /** When a pass has nothing more to call it has called all it should. */
  lemma FinishedPass<O>(all: bool, ops: seq<Op<O>>, p: nat)
    ensures var w := Run(Empty<O>(all), ops);
            && w.all == all
            && (p in w.passes && Next(w.live, w.passes[p]) == None ==> CalledAll(w, p))
  {
    var w := Run(Empty<O>(all), ops);
    RunKeeps(Empty<O>(all), ops);
    SameType(Empty<O>(all), ops);
    if p in w.passes && Next(w.live, w.passes[p]) == None {
      NothingLeft(w, p);
    }
  }

  lemma {:induction false} SameType<O>(w: World<O>, ops: seq<Op<O>>)
    ensures Run(w, ops).all == w.all && Run(w, ops).nextId >= w.nextId
    decreases |ops|
  {
    if ops != [] { SameType(Step(w, ops[0]), ops[1..]); }
  }

  predicate Gone<O>(w: World<O>, id: nat) {
    id < w.nextId && forall k :: 0 <= k < |w.live| ==> w.live[k].id != id
  }

  /** Once removed, a registration is called by no pass, nested or later. */
  lemma {:induction false} NeverAfterRemoval<O>(world: World<O>, ops: seq<Op<O>>, id: nat, p: nat)
    requires Inv(world) && Gone(world, id)
    ensures var after := Run(world, ops);
            && Gone(after, id)
            && (p in after.passes && id in after.passes[p].called ==> p in world.passes && id in world.passes[p].called)
    decreases |ops|
  {
    if ops != [] {
      StepKeeps(world, ops[0]);
      StaysGone(world, ops[0], id);
      NeverCalls(world, ops[0], id, p);
      NeverAfterRemoval(Step(world, ops[0]), ops[1..], id, p);
    }
  }

  lemma StaysGone<O>(w: World<O>, op: Op<O>, id: nat)
    requires Inv(w) && Gone(w, id)
    ensures Gone(Step(w, op), id)
  {
    if op.Remove? {
      WithoutIs(w.live, w.nextId, op.observer);
      var fewer := Without(w.live, op.observer);
      forall k | 0 <= k < |fewer| ensures fewer[k].id != id { assert fewer[k] in w.live; }
    }
  }

  lemma NeverCalls<O>(w: World<O>, op: Op<O>, id: nat, p: nat)
    requires Gone(w, id)
    ensures var w' := Step(w, op);
            p in w'.passes && id in w'.passes[p].called ==> p in w.passes && id in w.passes[p].called
  {
    hide Has, Without;
    if op.GetNext? && op.pass in w.passes {
      NextIs(w.live, w.passes[op.pass]);
    }
  }
}

/** Who is registered after any run of additions, removals and passes: it is decided by the last
    operation that speaks of the observer. */
module ObserverMembership {
  import opened ObserverLists

  predicate Present<O(==)>(ops: seq<Op<O>>, observer: O)
    decreases |ops|
  {
    if ops == [] then false
    else
      match ops[|ops| - 1]
      case Add(o) => o == observer || Present(ops[..|ops| - 1], observer)
      case Remove(o) => o != observer && Present(ops[..|ops| - 1], observer)
      case Clear => false
      case _ => Present(ops[..|ops| - 1], observer)
  }

  predicate OneEach<O(==)>(live: seq<Registration<O>>) {
    forall j, k :: 0 <= j < k < |live| ==> live[j].observer != live[k].observer
  }

  lemma {:induction false} RunSnoc<O>(w: World<O>, ops: seq<Op<O>>, op: Op<O>)
    ensures Run(w, ops + [op]) == Step(Run(w, ops), op)
    decreases |ops|
  {
    hide Step;
    if ops == [] {
      assert ops + [op] == [op] && [op][1..] == [];
    } else {
      assert (ops + [op])[0] == ops[0] && (ops + [op])[1..] == ops[1..] + [op];
      RunSnoc(Step(w, ops[0]), ops[1..], op);
    }
  }

  /** Of the others, Without keeps each, and of the observer's registrations it takes one. */
  lemma {:induction false} WithoutHas<O>(live: seq<Registration<O>>, observer: O, other: O)
    requires OneEach(live)
    ensures OneEach(Without(live, observer))
    ensures Has(Without(live, observer), other) <==> other != observer && Has(live, other)
  {
    if live != [] {
      var rest := live[1..];
      assert live == [live[0]] + rest;
      HasHead(live[0], rest, other);
      HasHead(live[0], rest, live[0].observer);
      assert !Has(rest, live[0].observer) by {
        forall k | 0 <= k < |rest| ensures rest[k].observer != live[0].observer { assert rest[k] == live[k + 1]; }
      }
      assert OneEach(rest) by {
        forall j, k | 0 <= j < k < |rest| ensures rest[j].observer != rest[k].observer {
          assert rest[j] == live[j + 1] && rest[k] == live[k + 1];
        }
      }
      if live[0].observer != observer {
        WithoutHas(rest, observer, other);
        WithoutHas(rest, observer, live[0].observer);
        HasHead(live[0], Without(rest, observer), other);
        OneMoreEach(live[0], Without(rest, observer));
      }
    }
  }

  lemma OneMoreEach<O>(head: Registration<O>, rest: seq<Registration<O>>)
    requires OneEach(rest) && !Has(rest, head.observer)
    ensures OneEach([head] + rest)
  {
  }

  lemma StepHas<O>(w: World<O>, op: Op<O>, observer: O)
    requires OneEach(w.live)
    ensures OneEach(Step(w, op).live)
    ensures Has(Step(w, op).live, observer)
            <==> (op == Add(observer)
                  || (Has(w.live, observer) && op != Remove(observer) && op != Op<O>.Clear))
  {
    match op
    case Add(o) =>
      if !Has(w.live, o) {
        var more := w.live + [Registration(w.nextId, o)];
        assert more[|w.live|].observer == o;
        if Has(w.live, observer) {
          var i :| 0 <= i < |w.live| && w.live[i].observer == observer;
          assert more[i].observer == observer;
        }
      }
    case Remove(o) => WithoutHas(w.live, o, observer);
    case _ =>
  }

  lemma {:induction false} RegisteredIff<O>(all: bool, ops: seq<Op<O>>, observer: O)
    ensures OneEach(Run(Empty<O>(all), ops).live)
    ensures Has(Run(Empty<O>(all), ops).live, observer) <==> Present(ops, observer)
    decreases |ops|
  {
    if ops != [] {
      var n := |ops| - 1;
      assert ops == ops[..n] + [ops[n]];
      RegisteredIff(all, ops[..n], observer);
      RunSnoc(Empty<O>(all), ops[..n], ops[n]);
      hide Run, Step, Has, OneEach;
      StepHas(Run(Empty<O>(all), ops[..n]), ops[n], observer);
    }
  }
}
