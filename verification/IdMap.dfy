/**
 * IDMap, its Iterator and its Releaser (base/id_map.h).  The table is a sequence of entries in the
 * order the hash table has them; removal while something iterates only notes the id.
 */
module IdMaps {
  import opened Options

  datatype Entry<T> = Entry(key: int, data: T)

  predicate HasKey<T>(entries: seq<Entry<T>>, key: int) {
    exists k :: 0 <= k < |entries| && entries[k].key == key
  }

  predicate Distinct<T>(entries: seq<Entry<T>>) {
    forall j, k :: 0 <= j < k < |entries| ==> entries[j].key != entries[k].key
  }

  /** The position of the entry with that key, or the length. */
  function Find<T>(entries: seq<Entry<T>>, key: int): (k: nat)
    ensures k <= |entries| && (k < |entries| <==> HasKey(entries, key))
    ensures k < |entries| ==> entries[k].key == key
  {
    if entries == [] then 0
    else if entries[0].key == key then 0
    else
      assert entries == [entries[0]] + entries[1..];
      1 + Find(entries[1..], key)
  }

  /** The entries that have not been removed. */
  function Surviving<T>(entries: seq<Entry<T>>, removed: set<int>): seq<Entry<T>> {
    if entries == [] then []
    else if entries[0].key in removed then Surviving(entries[1..], removed)
    else [entries[0]] + Surviving(entries[1..], removed)
  }

  /** Exactly the entries whose key was not removed, each as often as before. */
  lemma {:induction false} SurvivingIs<T>(entries: seq<Entry<T>>, removed: set<int>, entry: Entry<T>)
    ensures multiset(Surviving(entries, removed))[entry]
         == if entry.key in removed then 0 else multiset(entries)[entry]
  {
    if entries != [] {
      SurvivingIs(entries[1..], removed, entry);
      assert entries == [entries[0]] + entries[1..];
    }
  }

  predicate Pending<T>(entries: seq<Entry<T>>, removed: set<int>) {
    forall key <- removed :: HasKey(entries, key)
  }

  ghost function Held<T>(entries: seq<Entry<T>>): multiset<T> {
    if entries == [] then multiset{} else multiset{entries[0].data} + Held(entries[1..])
  }

  /** The table is larger than the set of noted ids by the number of survivors. */
  lemma {:induction false} SizeCounts<T>(entries: seq<Entry<T>>, removed: set<int>)
    requires Distinct(entries) && Pending(entries, removed)
    ensures |entries| - |removed| == |Surviving(entries, removed)|
  {
    if entries == [] {
      assert forall key <- removed :: false;
      assert removed == {};
    } else {
      var rest := entries[1..];
      forall key <- removed - {entries[0].key} ensures HasKey(rest, key) {
        var k :| 0 <= k < |entries| && entries[k].key == key;
        assert rest[k - 1].key == key;
      }
      SizeCounts(rest, removed - {entries[0].key});
      OnlyOwnKeys(rest, removed, entries[0].key);
      if entries[0].key in removed {
        assert removed == removed - {entries[0].key} + {entries[0].key};
      } else {
        assert removed == removed - {entries[0].key};
      }
    }
  }

  /** A key no entry has makes no difference. */
  lemma {:induction false} OnlyOwnKeys<T>(entries: seq<Entry<T>>, removed: set<int>, key: int)
    requires !HasKey(entries, key)
    ensures Surviving(entries, removed) == Surviving(entries, removed - {key})
  {
    if entries != [] {
      assert entries[0].key != key;
      assert forall k :: 0 <= k < |entries[1..]| ==> entries[1..][k] == entries[k + 1];
      OnlyOwnKeys(entries[1..], removed, key);
    }
  }

  lemma {:induction false} SurvivingConcat<T>(a: seq<Entry<T>>, b: seq<Entry<T>>, removed: set<int>)
    ensures Surviving(a + b, removed) == Surviving(a, removed) + Surviving(b, removed)
  {
    if a == [] {
      assert a + b == b;
    } else {
      assert (a + b)[1..] == a[1..] + b;
      SurvivingConcat(a[1..], b, removed);
    }
  }

  lemma {:induction false} HeldConcat<T>(a: seq<Entry<T>>, b: seq<Entry<T>>)
    ensures Held(a + b) == Held(a) + Held(b)
  {
    if a == [] {
      assert a + b == b;
    } else {
      assert (a + b)[1..] == a[1..] + b;
      HeldConcat(a[1..], b);
    }
  }

  lemma Around<T>(entries: seq<Entry<T>>, k: nat)
    requires k < |entries|
    ensures entries == entries[..k] + ([entries[k]] + entries[k + 1..])
  {
  }

  lemma ErasedHeld<T>(entries: seq<Entry<T>>, k: nat)
    requires k < |entries|
    ensures Held(entries) == Held(entries[..k] + entries[k + 1..]) + multiset{entries[k].data}
  {
    var a, one, b := entries[..k], [entries[k]], entries[k + 1..];
    Around(entries, k);
    HeldConcat(a, one + b);
    HeldConcat(one, b);
    HeldConcat(a, b);
    assert Held(one) == multiset{entries[k].data} + Held(one[1..]) == multiset{entries[k].data};
  }

  lemma ErasedKeys<T>(entries: seq<Entry<T>>, removed: set<int>, k: nat)
    requires Distinct(entries) && Pending(entries, removed) && k < |entries|
    ensures var rest := entries[..k] + entries[k + 1..]; var key := entries[k].key;
            Distinct(rest) && !HasKey(rest, key) && Pending(rest, removed - {key})
  {
    var rest, key := entries[..k] + entries[k + 1..], entries[k].key;
    assert forall j :: 0 <= j < |rest| ==> rest[j] == entries[if j < k then j else j + 1];
    forall other <- removed - {key} ensures HasKey(rest, other) {
      var j :| 0 <= j < |entries| && entries[j].key == other;
      assert rest[if j < k then j else j - 1].key == other;
    }
  }

  /** Erasing an entry leaves the survivors of noting it as removed. */
  lemma ErasedSurvivors<T>(entries: seq<Entry<T>>, removed: set<int>, k: nat)
    requires k < |entries| && !HasKey(entries[..k] + entries[k + 1..], entries[k].key)
    ensures var key := entries[k].key;
            Surviving(entries[..k] + entries[k + 1..], removed - {key}) == Surviving(entries, removed + {key})
  {
    var a, one, b, key := entries[..k], [entries[k]], entries[k + 1..], entries[k].key;
    Around(entries, k);
    SurvivingConcat(a, one + b, removed + {key});
    SurvivingConcat(one, b, removed + {key});
    SurvivingConcat(a, b, removed + {key});
    assert one[1..] == [] && Surviving(one, removed + {key}) == [];
    assert [] + Surviving(b, removed + {key}) == Surviving(b, removed + {key});
    OnlyOwnKeys(a + b, removed + {key}, key);
    assert removed + {key} - {key} == removed - {key};
  }

  lemma {:induction false} NoneRemoved<T>(entries: seq<Entry<T>>)
    ensures Surviving(entries, {}) == entries
  {
    if entries != [] {
      NoneRemoved(entries[1..]);
    }
  }

  lemma {:induction false} AllRemoved<T>(entries: seq<Entry<T>>, removed: set<int>)
    requires forall k :: 0 <= k < |entries| ==> entries[k].key in removed
    ensures Surviving(entries, removed) == []
  {
    if entries != [] {
      AllRemoved(entries[1..], removed);
    }
  }

  /** SkipRemovedEntries: the first entry from the k-th on that has not been removed. */
  function FirstKept<T>(entries: seq<Entry<T>>, removed: set<int>, k: nat): (f: nat)
    requires k <= |entries|
    ensures k <= f <= |entries| && (f < |entries| ==> entries[f].key !in removed)
    ensures forall j :: k <= j < f ==> entries[j].key in removed
    decreases |entries| - k
  {
    if k < |entries| && entries[k].key in removed then FirstKept(entries, removed, k + 1) else k
  }

  /** An iterator has visited what survives up to where it stands, once and in order. */
  predicate Visits<T>(entries: seq<Entry<T>>, removed: set<int>, iter: nat, visited: seq<nat>) {
    && iter <= |entries|
    && (forall j, k :: 0 <= j < k < |visited| ==> visited[j] < visited[k])
    && (forall k :: 0 <= k < |visited| ==> visited[k] <= iter && visited[k] < |entries|)
    && (forall k :: 0 <= k < |entries| && k <= iter && entries[k].key !in removed ==> k in visited)
    && (iter < |entries| ==> iter in visited)
  }

  lemma MoreRemoved<T>(entries: seq<Entry<T>>, removed: set<int>, more: set<int>, iter: nat, visited: seq<nat>)
    requires Visits(entries, removed, iter, visited) && removed <= more
    ensures Visits(entries, more, iter, visited)
  {
  }

  lemma Moved<T>(entries: seq<Entry<T>>, removed: set<int>, iter: nat, visited: seq<nat>)
    requires Visits(entries, removed, iter, visited) && iter < |entries|
    ensures var next := FirstKept(entries, removed, iter + 1);
            Visits(entries, removed, next, visited + if next < |entries| then [next] else [])
  {
    var next := FirstKept(entries, removed, iter + 1);
    if next < |entries| {
      assert (visited + [next])[|visited|] == next;
    }
  }

  lemma FirstVisited<T>(entries: seq<Entry<T>>, removed: set<int>)
    ensures var first := FirstKept(entries, removed, 0);
            Visits(entries, removed, first, if first < |entries| then [first] else [])
  {
  }

  /** An iterator made from another moves off an entry that has been removed since. */
  lemma MovedOff<T>(entries: seq<Entry<T>>, removed: set<int>, iter: nat, visited: seq<nat>)
    requires Visits(entries, removed, iter, visited)
    ensures var next := FirstKept(entries, removed, iter);
            Visits(entries, removed, next, visited + if iter < next < |entries| then [next] else [])
  {
    var next := FirstKept(entries, removed, iter);
    if iter < next < |entries| {
      assert (visited + [next])[|visited|] == next;
    }
  }

  predicate SameIds<T>(a: seq<Entry<T>>, b: seq<Entry<T>>) {
    |a| == |b| && forall k :: 0 <= k < |a| ==> a[k].key == b[k].key
  }

  lemma SameKeys<T>(a: seq<Entry<T>>, b: seq<Entry<T>>, removed: set<int>, iter: nat, visited: seq<nat>)
    requires SameIds(a, b) && Visits(a, removed, iter, visited)
    ensures Visits(b, removed, iter, visited)
  {
  }

  lemma SamePending<T>(a: seq<Entry<T>>, b: seq<Entry<T>>, removed: set<int>)
    requires SameIds(a, b) && Distinct(a) && Pending(a, removed)
    ensures Distinct(b) && Pending(b, removed)
  {
    forall key <- removed ensures HasKey(b, key) {
      var k :| 0 <= k < |a| && a[k].key == key;
      assert b[k].key == key;
    }
  }

  lemma ReplacedHeld<T>(entries: seq<Entry<T>>, k: nat, data: T)
    requires k < |entries|
    ensures Held(entries[k := Entry(entries[k].key, data)]) + multiset{entries[k].data}
         == Held(entries) + multiset{data}
  {
    var other := entries[k := Entry(entries[k].key, data)];
    ErasedHeld(entries, k);
    ErasedHeld(other, k);
    assert other[..k] == entries[..k] && other[k + 1..] == entries[k + 1..];
  }

  lemma Inserted<T>(entries: seq<Entry<T>>, entry: Entry<T>, at: nat)
    requires at <= |entries| && Distinct(entries) && !HasKey(entries, entry.key)
    ensures var more := entries[..at] + [entry] + entries[at..];
            Distinct(more) && Held(more) == Held(entries) + multiset{entry.data}
  {
    var more := entries[..at] + [entry] + entries[at..];
    InsertedAt(entries, entry, at);
    assert Distinct(more);
    hide Distinct, HasKey, Held;
    ErasedHeld(more, at);
  }

  lemma InsertedAt<T>(entries: seq<Entry<T>>, entry: Entry<T>, at: nat)
    requires at <= |entries|
    ensures var more := entries[..at] + [entry] + entries[at..];
            && |more| == |entries| + 1 && more[at] == entry && more[..at] + more[at + 1..] == entries
            && forall j :: 0 <= j < |more| && j != at ==> more[j] == entries[if j < at then j else j - 1]
  {
  }

  /** Noting one more id. */
  lemma Noted<T>(entries: seq<Entry<T>>, removed: set<int>, key: int)
    requires Pending(entries, removed) && HasKey(entries, key)
    ensures Pending(entries, removed + {key})
  {
  }

  lemma PendingHas<T>(entries: seq<Entry<T>>, removed: set<int>, key: int)
    requires Pending(entries, removed) && key in removed
    ensures HasKey(entries, key)
  {
  }

  lemma NonePending<T>(entries: seq<Entry<T>>, removed: set<int>)
    requires Pending(entries, removed) && forall k :: 0 <= k < |entries| ==> entries[k].key !in removed
    ensures removed == {}
  {
    assert forall key <- removed :: false;
  }

  lemma SomePending<T>(entries: seq<Entry<T>>, removed: set<int>)
    requires Pending(entries, removed) && removed != {}
    ensures exists k :: 0 <= k < |entries| && entries[k].key in removed
  {
    if forall k :: 0 <= k < |entries| ==> entries[k].key !in removed {
      NonePending(entries, removed);
    }
  }

  lemma Exchanged<T>(held: multiset<T>, after: multiset<T>, handed: multiset<T>, released: multiset<T>, was: T, now: T)
    requires after + multiset{was} == held + multiset{now}
    ensures held + handed + released + multiset{now} == after + (handed + multiset{was}) + released
  {
    var left, right := held + handed + released + multiset{now}, after + (handed + multiset{was}) + released;
    forall x ensures left[x] == right[x] {
      assert (after + multiset{was})[x] == (held + multiset{now})[x];
    }
    assert left == right;
  }

  class IdMap<T(==)> {
    const own: bool
    var data: seq<Entry<T>>
    var removedIds: set<int>
    var iterationDepth: nat
    var nextId: int
    ghost var iterators: set<Iterator<T>>
    /** Pointers deleted so far, taken in, and handed back by Replace. */
    ghost var released: multiset<T>
    ghost var adopted: multiset<T>
    ghost var handedBack: multiset<T>

    /** Ids noted for removal are keys, and there are none when nothing iterates. */
    ghost predicate Valid()
      reads this, iterators
    {
      && Distinct(data) && Pending(data, removedIds)
      && iterationDepth == |iterators|
      && (iterationDepth == 0 ==> removedIds == {})
      && (forall it <- iterators :: it.map_ == this && Visits(data, removedIds, it.iter, it.visited))
      && Accounted()
    }

    /** Every pointer taken in and owned is held, or was handed back, or was deleted: each once. */
    ghost predicate Accounted()
      reads this
    {
      if own then adopted == Held(data) + handedBack + released else released == multiset{}
    }

    constructor (own: bool)
      ensures Valid() && this.own == own && data == [] && iterators == {}
      ensures released == multiset{} && adopted == multiset{} && handedBack == multiset{}
    {
      this.own := own;
      data, removedIds, iterationDepth, nextId := [], {}, 0, 1;
      iterators, released, adopted, handedBack := {}, multiset{}, multiset{}, multiset{};
    }

    /** `at` is where the hash table puts the entry among the others.  Nothing may iterate meanwhile. */
    method AddWithID(pointer: T, id: int, at: nat)
      requires Valid() && !HasKey(data, id) && at <= |data| && iterators == {}
      modifies `data, `adopted
      ensures Valid() && data == old(data)[..at] + [Entry(id, pointer)] + old(data)[at..]
      ensures adopted == old(adopted) + multiset{pointer}
    {
      Inserted(data, Entry(id, pointer), at);
      adopted := adopted + multiset{pointer};
      data := data[..at] + [Entry(id, pointer)] + data[at..];
    }

    method Add(pointer: T, at: nat) returns (id: int)
      requires Valid() && !HasKey(data, nextId) && at <= |data| && iterators == {}
      modifies `data, `adopted, `nextId
      ensures Valid() && id == old(nextId) && nextId == id + 1
      ensures data == old(data)[..at] + [Entry(id, pointer)] + old(data)[at..]
      ensures adopted == old(adopted) + multiset{pointer}
    {
      id := nextId;
      AddWithID(pointer, id, at);
      nextId := nextId + 1;
    }

    method Remove(id: int)
      requires Valid()
      modifies `data, `removedIds, `released
      ensures Valid()
      ensures !HasKey(old(data), id) ==> data == old(data) && removedIds == old(removedIds) && released == old(released)
      ensures Surviving(data, removedIds) == Surviving(old(data), old(removedIds) + {id})
      ensures iterators != {} ==> data == old(data) && released == old(released)
    {
      if !HasKey(data, id) {
        OnlyOwnKeys(data, removedIds + {id}, id);
        OnlyOwnKeys(data, removedIds, id);
        assert removedIds + {id} - {id} == removedIds - {id};
        return;
      }
      if iterationDepth == 0 {
        Erase(id);
        assert removedIds - {id} == removedIds;
      } else {
        Noted(data, removedIds, id);
        removedIds := removedIds + {id};
      }
    }

    /** Remove outside iteration: the entry goes, and with it what it owns. */
    method Erase(id: int)
      requires Distinct(data) && Pending(data, removedIds) && HasKey(data, id) && Accounted()
      modifies `data, `released
      ensures Distinct(data) && Pending(data, removedIds - {id}) && Accounted()
      ensures Surviving(data, removedIds - {id}) == Surviving(old(data), removedIds + {id})
      ensures |data| == |old(data)| - 1
    {
      var k := Find(data, id);
      ErasedHeld(data, k);
      ErasedKeys(data, removedIds, k);
      ErasedSurvivors(data, removedIds, k);
      hide Held, Surviving, Pending, Distinct;
      if own {
        released := released + multiset{data[k].data};
      }
      data := data[..k] + data[k + 1..];
    }

    method Replace(id: int, pointer: T) returns (was: Option<T>)
      requires Valid()
      modifies `data, `adopted, `handedBack
      ensures Valid()
      ensures was.None? <==> !HasKey(old(data), id)
      ensures was.None? ==> data == old(data) && adopted == old(adopted) && handedBack == old(handedBack)
      ensures was.Some? ==>
        var k := Find(old(data), id);
        && was.value == old(data)[k].data && data == old(data)[k := Entry(id, pointer)]
        && adopted == old(adopted) + multiset{pointer} && handedBack == old(handedBack) + multiset{was.value}
    {
      var k := Find(data, id);
      if k == |data| {
        return None;
      }
      was := Some(data[k].data);
      hide Find;
      Put(k, pointer);
    }

    /** Puts another pointer into the k-th entry. */
    method Put(k: nat, pointer: T)
      requires Valid() && k < |data|
      modifies `data, `adopted, `handedBack
      ensures Valid() && data == old(data)[k := Entry(old(data)[k].key, pointer)]
      ensures adopted == old(adopted) + multiset{pointer}
      ensures handedBack == old(handedBack) + multiset{old(data)[k].data}
    {
      Replaced(k, pointer);
      hide Held, Pending, Visits, Distinct;
      adopted, handedBack := adopted + multiset{pointer}, handedBack + multiset{data[k].data};
      data := data[k := Entry(data[k].key, pointer)];
    }

    lemma Replaced(k: nat, pointer: T)
      requires Valid() && k < |data|
      ensures var more := data[k := Entry(data[k].key, pointer)];
              && Distinct(more) && Pending(more, removedIds)
              && (own ==> adopted + multiset{pointer} == Held(more) + (handedBack + multiset{data[k].data}) + released)
              && forall it <- iterators :: Visits(more, removedIds, it.iter, it.visited)
    {
      var more := data[k := Entry(data[k].key, pointer)];
      SamePending(data, more, removedIds);
      ReplacedHeld(data, k, pointer);
      Exchanged(Held(data), Held(more), handedBack, released, data[k].data, pointer);
      assert SameIds(data, more);
      hide Held, Pending, Visits, Distinct, HasKey;
      forall it <- iterators ensures Visits(more, removedIds, it.iter, it.visited) {
        SameKeys(data, more, removedIds, it.iter, it.visited);
      }
    }

    /** Outside iteration this empties a map that owns its pointers, and does nothing to one that does not. */
    method Clear()
      requires Valid()
      modifies `data, `removedIds, `released
      ensures Valid()
      ensures Surviving(data, removedIds) == if own || iterators != {} then [] else old(data)
      ensures iterators != {} ==> data == old(data) && released == old(released)
    {
      if iterationDepth == 0 {
        NoneRemoved(data);
        if own {
          released := released + Held(data);
          data := [];
        }
      } else {
        var i := 0;
        ghost var was := removedIds;
        while i < |data|
          invariant i <= |data| && was <= removedIds && Pending(data, removedIds)
          invariant data == old(data) && released == old(released)
          invariant forall k :: 0 <= k < i ==> data[k].key in removedIds
        {
          Noted(data, removedIds, data[i].key);
          removedIds := removedIds + {data[i].key};
          i := i + 1;
        }
        AllRemoved(data, removedIds);
        forall it <- iterators ensures Visits(data, removedIds, it.iter, it.visited) {
          MoreRemoved(data, was, removedIds, it.iter, it.visited);
        }
      }
    }

    method Size() returns (n: nat)
      requires Valid()
      ensures n == |Surviving(data, removedIds)|
    {
      SizeCounts(data, removedIds);
      n := |data| - |removedIds|;
    }

    method IsEmpty() returns (empty: bool)
      requires Valid()
      ensures empty <==> Surviving(data, removedIds) == []
    {
      var n := Size();
      empty := n == 0;
    }

    /** Entries noted for removal are still found. */
    method Lookup(id: int) returns (pointer: Option<T>)
      requires Valid()
      ensures pointer.Some? <==> HasKey(data, id)
      ensures pointer.Some? ==> Entry(id, pointer.value) in data
    {
      var k := Find(data, id);
      pointer := if k == |data| then None else Some(data[k].data);
    }

    /** One more iterator. */
    method Enter(ghost it: Iterator<T>)
      requires Valid() && it.map_ == this && it !in iterators && Visits(data, removedIds, it.iter, it.visited)
      modifies `iterationDepth, `iterators
      ensures Valid() && iterators == old(iterators) + {it}
    {
      hide Held, Distinct, Pending, Visits;
      iterationDepth := iterationDepth + 1;
      iterators := iterators + {it};
    }

    /** Takes out what was noted, and deletes what it owned. */
    method Compact()
      requires Distinct(data) && Pending(data, removedIds) && Accounted()
      modifies `data, `removedIds, `released
      ensures data == Surviving(old(data), old(removedIds)) && removedIds == {}
      ensures Distinct(data) && Accounted()
    {
      ghost var was := removedIds;
      hide Held, Surviving, Pending, Distinct;
      while removedIds != {}
        invariant Distinct(data) && Pending(data, removedIds) && Accounted()
        invariant Surviving(data, removedIds) == Surviving(old(data), was)
        decreases |removedIds|
      {
        SomePending(data, removedIds);
        var id :| id in removedIds;
        PendingHas(data, removedIds, id);
        Erase(id);
        assert removedIds + {id} == removedIds;
        removedIds := removedIds - {id};
      }
      NoneRemoved(data);
    }

    /** The destructor, when nothing iterates: what is owned and not yet deleted is deleted. */
    method Destroy()
      requires Valid() && iterators == {}
      modifies `data, `released
      ensures own ==> data == [] && adopted == handedBack + released
      ensures !own ==> released == multiset{}
    {
      if own {
        released := released + Held(data);
        data := [];
      }
    }
  }

  class Iterator<T(==)> {
    const map_: IdMap<T>
    var iter: nat
    /** The positions it has stood at. */
    ghost var visited: seq<nat>

    constructor (map_: IdMap<T>)
      requires map_.Valid()
      modifies map_`iterationDepth, map_`iterators
      ensures map_.Valid() && this.map_ == map_ && map_.iterators == old(map_.iterators) + {this}
      ensures iter == FirstKept(map_.data, map_.removedIds, 0)
      ensures visited == if iter < |map_.data| then [iter] else []
    {
      var first := FirstKept(map_.data, map_.removedIds, 0);
      FirstVisited(map_.data, map_.removedIds);
      hide Visits, Held, Distinct, Pending, FirstKept, HasKey;
      this.map_ := map_;
      iter := first;
      visited := if first < |map_.data| then [first] else [];
      new;
      map_.Enter(this);
    }

    constructor Copy(other: Iterator<T>)
      requires other.map_.Valid() && other in other.map_.iterators
      modifies other.map_`iterationDepth, other.map_`iterators
      ensures map_ == other.map_ && map_.Valid() && map_.iterators == old(other.map_.iterators) + {this}
      ensures map_.data == old(other.map_.data) && map_.removedIds == old(other.map_.removedIds)
      ensures iter == FirstKept(map_.data, map_.removedIds, other.iter)
      ensures visited == other.visited + if other.iter < iter < |map_.data| then [iter] else []
    {
      var next := FirstKept(other.map_.data, other.map_.removedIds, other.iter);
      MovedOff(other.map_.data, other.map_.removedIds, other.iter, other.visited);
      hide Visits, Held, Distinct, Pending, FirstKept, HasKey;
      map_ := other.map_;
      iter := next;
      visited := other.visited + if other.iter < next < |other.map_.data| then [next] else [];
      new;
      map_.Enter(this);
    }

    method Destroy()
      requires map_.Valid() && this in map_.iterators
      modifies map_`iterationDepth, map_`iterators, map_`data, map_`removedIds, map_`released
      ensures map_.Valid() && map_.iterators == old(map_.iterators) - {this}
      ensures map_.data
           == if map_.iterators == {} then Surviving(old(map_.data), old(map_.removedIds)) else old(map_.data)
      ensures map_.removedIds == if map_.iterators == {} then {} else old(map_.removedIds)
    {
      map_.iterationDepth := map_.iterationDepth - 1;
      map_.iterators := map_.iterators - {this};
      if map_.iterationDepth == 0 {
        map_.Compact();
      }
    }

    predicate IsAtEnd()
      reads this, map_
    {
      iter == |map_.data|
    }

    method GetCurrentKey() returns (key: int)
      requires map_.Valid() && this in map_.iterators && !IsAtEnd()
      ensures key == map_.data[iter].key && iter in visited
    {
      key := map_.data[iter].key;
    }

    method Advance()
      requires map_.Valid() && this in map_.iterators && !IsAtEnd()
      modifies `iter, `visited
      ensures map_.Valid()
      ensures iter == FirstKept(map_.data, map_.removedIds, old(iter) + 1)
      ensures visited == old(visited) + if iter < |map_.data| then [iter] else []
    {
      ghost var was := iter;
      iter := iter + 1;
      while iter != |map_.data| && map_.data[iter].key in map_.removedIds
        invariant iter <= |map_.data| && visited == old(visited)
        invariant FirstKept(map_.data, map_.removedIds, iter) == FirstKept(map_.data, map_.removedIds, was + 1)
        decreases |map_.data| - iter
      {
        iter := iter + 1;
      }
      visited := visited + if iter < |map_.data| then [iter] else [];
      Moved(map_.data, map_.removedIds, was, old(visited));
      forall it <- map_.iterators ensures Visits(map_.data, map_.removedIds, it.iter, it.visited) {
        assert it == this || (it.iter == old(it.iter) && it.visited == old(it.visited));
      }
    }
  }

  /** The entries at those positions that have not been removed. */
  function Standing<T>(entries: seq<Entry<T>>, removed: set<int>, positions: seq<nat>): seq<Entry<T>>
    requires forall k :: 0 <= k < |positions| ==> positions[k] < |entries|
  {
    if positions == [] then []
    else if entries[positions[0]].key in removed then Standing(entries, removed, positions[1..])
    else [entries[positions[0]]] + Standing(entries, removed, positions[1..])
  }

  lemma {:induction false} StandingFrom<T>(entries: seq<Entry<T>>, removed: set<int>, lo: nat, positions: seq<nat>)
    requires lo <= |entries|
    requires forall j, k :: 0 <= j < k < |positions| ==> positions[j] < positions[k]
    requires forall k :: 0 <= k < |positions| ==> lo <= positions[k] < |entries|
    requires forall k :: lo <= k < |entries| && entries[k].key !in removed ==> k in positions
    ensures Standing(entries, removed, positions) == Surviving(entries[lo..], removed)
    decreases |entries| - lo
  {
    if lo < |entries| {
      assert entries[lo..][0] == entries[lo] && entries[lo..][1..] == entries[lo + 1..];
      if positions != [] && positions[0] == lo {
        forall k | lo + 1 <= k < |entries| && entries[k].key !in removed ensures k in positions[1..] {
          var j :| 0 <= j < |positions| && positions[j] == k;
          assert positions[1..][j - 1] == k;
        }
        StandingFrom(entries, removed, lo + 1, positions[1..]);
      } else {
        StandingFrom(entries, removed, lo + 1, positions);
      }
    }
  }

  /** Whatever was removed on the way, an iterator at its end has stood at the entries that are left,
      each once and in table order, and at no key twice. */
  lemma EveryoneVisited<T>(map_: IdMap<T>, it: Iterator<T>)
    requires map_.Valid() && it in map_.iterators && it.IsAtEnd()
    ensures forall k :: 0 <= k < |it.visited| ==> it.visited[k] < |map_.data|
    ensures Standing(map_.data, map_.removedIds, it.visited) == Surviving(map_.data, map_.removedIds)
    ensures forall j, k :: 0 <= j < k < |it.visited| ==> map_.data[it.visited[j]].key != map_.data[it.visited[k]].key
  {
    assert Visits(map_.data, map_.removedIds, it.iter, it.visited) && Distinct(map_.data);
    StandingFrom(map_.data, map_.removedIds, 0, it.visited);
    assert map_.data[0..] == map_.data;
  }
}
