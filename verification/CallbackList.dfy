/**
 * CallbackListBase, its Subscription and its Iterator (base/callback_list.h): a linked list whose
 * nodes subscriptions and iterators point into.  Nodes are named by numbers in order of insertion;
 * insertion is always at the end, so the numbers increase along the list.
 */
module CallbackLists {
  import opened Options

  /** A list node; a reset callback is None. */
  datatype Node<C> = Node(id: nat, callback: Option<C>)

  /** Where an iterator points: a node, or end(). */
  type Position = Option<nat>

  ghost predicate Ordered<C>(nodes: seq<Node<C>>, nextId: nat) {
    && (forall j, k :: 0 <= j < k < |nodes| ==> nodes[j].id < nodes[k].id)
    && (forall k :: 0 <= k < |nodes| ==> nodes[k].id < nextId)
  }

  predicate Names<C>(nodes: seq<Node<C>>, at: Position) {
    at.Some? ==> exists k :: 0 <= k < |nodes| && nodes[k].id == at.value
  }

  predicate InForce<C>(nodes: seq<Node<C>>, id: nat) {
    exists k :: 0 <= k < |nodes| && nodes[k].id == id && nodes[k].callback.Some?
  }

  /** The distance from begin(). */
  function Index<C>(nodes: seq<Node<C>>, at: Position): (k: nat)
    requires Names(nodes, at)
    ensures if at.None? then k == |nodes| else k < |nodes| && nodes[k].id == at.value
    ensures at.Some? ==> forall j :: 0 <= j < k ==> nodes[j].id != at.value
  {
    if at.None? then |nodes| else if nodes[0].id == at.value then 0
    else
      assert nodes == [nodes[0]] + nodes[1..];
      1 + Index(nodes[1..], at)
  }

  /** The position k nodes from begin(). */
  function PositionAt<C>(nodes: seq<Node<C>>, k: nat): Position
    requires k <= |nodes|
  {
    if k == |nodes| then None else Some(nodes[k].id)
  }

  /** The callbacks in force from a position on. */
  function Pending<C>(nodes: seq<Node<C>>, at: Position): seq<nat>
    requires Names(nodes, at)
  {
    IdsInForce(nodes[Index(nodes, at)..])
  }

  function IdsInForce<C>(nodes: seq<Node<C>>): seq<nat> {
    if nodes == [] then []
    else if nodes[0].callback.None? then IdsInForce(nodes[1..])
    else [nodes[0].id] + IdsInForce(nodes[1..])
  }

  /** The list with that node's callback reset. */
  function Reset<C>(nodes: seq<Node<C>>, id: nat): (r: seq<Node<C>>)
    ensures |r| == |nodes|
    ensures forall k :: 0 <= k < |nodes| ==> r[k] == if nodes[k].id == id then Node(id, None) else nodes[k]
  {
    seq(|nodes|, k requires 0 <= k < |nodes| => if nodes[k].id == id then Node(id, None) else nodes[k])
  }

  /** Compacted<C>: the nodes that have not been reset. */
  function Kept<C>(nodes: seq<Node<C>>): seq<Node<C>> {
    if nodes == [] then []
    else if nodes[|nodes| - 1].callback.None? then Kept(nodes[..|nodes| - 1])
    else Kept(nodes[..|nodes| - 1]) + [nodes[|nodes| - 1]]
  }

  /** Where GetNext leaves an iterator, and the node whose callback it returns. */
  datatype Got = Got(at: Position, id: Option<nat>)

  function Next<C>(nodes: seq<Node<C>>, at: Position): Got
    requires Names(nodes, at)
  {
    var k := FirstInForce(nodes, Index(nodes, at));
    if k == |nodes| then Got(None, None) else Got(PositionAt(nodes, k + 1), Some(nodes[k].id))
  }

  function FirstInForce<C>(nodes: seq<Node<C>>, k: nat): (f: nat)
    requires k <= |nodes|
    ensures k <= f <= |nodes| && (f < |nodes| ==> nodes[f].callback.Some?)
    ensures forall j :: k <= j < f ==> nodes[j].callback.None?
    decreases |nodes| - k
  {
    if k < |nodes| && nodes[k].callback.None? then FirstInForce(nodes, k + 1) else k
  }

  /** How often a compaction runs the removal callback: at every node from the first reset one on. */
  function Updates<C>(nodes: seq<Node<C>>): nat {
    if nodes == [] then 0 else if nodes[0].callback.None? then |nodes| else Updates(nodes[1..])
  }

  predicate AllInForce<C>(nodes: seq<Node<C>>) {
    forall k :: 0 <= k < |nodes| ==> nodes[k].callback.Some?
  }

  lemma KeptNext<C>(nodes: seq<Node<C>>, i: nat)
    requires i < |nodes|
    ensures Kept(nodes[..i + 1]) == Kept(nodes[..i]) + if nodes[i].callback.Some? then [nodes[i]] else []
  {
    assert nodes[..i + 1][..i] == nodes[..i];
  }

  lemma {:induction false} UpdatesAt<C>(nodes: seq<Node<C>>, i: nat)
    requires i <= |nodes|
    decreases |nodes|
    ensures (forall j :: 0 <= j < i ==> nodes[j].callback.Some?) ==>
      && Updates(nodes) <= |nodes| - i
      && (i < |nodes| && nodes[i].callback.None? ==> Updates(nodes) == |nodes| - i)
      && (i == |nodes| ==> Updates(nodes) == 0)
  {
    if i > 0 && nodes[0].callback.Some? {
      assert nodes == [nodes[0]] + nodes[1..];
      UpdatesAt(nodes[1..], i - 1);
    } else if nodes != [] {
      UpdatesAt(nodes[1..], 0);
    }
  }

  lemma {:induction false} KeptIs<C>(nodes: seq<Node<C>>, nextId: nat)
    requires Ordered(nodes, nextId)
    ensures Ordered(Kept(nodes), nextId) && AllInForce(Kept(nodes))
    ensures forall k :: 0 <= k < |Kept(nodes)| ==> Kept(nodes)[k].id < UpperId(nodes)
  {
    if nodes != [] {
      var n := |nodes| - 1;
      OrderedPrefix(nodes, nextId);
      KeptIs(nodes[..n], nextId);
      hide Kept;
      if nodes[n].callback.Some? { OrderedSnoc(Kept(nodes[..n]), nodes[n], nextId); }
    }
  }

  /** Above the ids of the nodes. */
  function UpperId<C>(nodes: seq<Node<C>>): nat {
    if nodes == [] then 0 else nodes[|nodes| - 1].id + 1
  }

  lemma OrderedPrefix<C>(nodes: seq<Node<C>>, nextId: nat)
    requires Ordered(nodes, nextId) && nodes != []
    ensures Ordered(nodes[..|nodes| - 1], nextId) && UpperId(nodes[..|nodes| - 1]) <= nodes[|nodes| - 1].id < nextId
  {
  }

  lemma OrderedSnoc<C>(nodes: seq<Node<C>>, node: Node<C>, nextId: nat)
    requires Ordered(nodes, nextId) && node.id < nextId && forall k :: 0 <= k < |nodes| ==> nodes[k].id < node.id
    ensures Ordered(nodes + [node], nextId)
  {
  }

  lemma {:induction false} KeptInForce<C>(nodes: seq<Node<C>>, id: nat)
    ensures InForce(Kept(nodes), id) <==> InForce(nodes, id)
  {
    if nodes != [] {
      var n := |nodes| - 1;
      KeptInForce(nodes[..n], id);
      assert nodes == nodes[..n] + [nodes[n]];
      InForceSnoc(nodes[..n], nodes[n], id);
      InForceSnoc(Kept(nodes[..n]), nodes[n], id);
    }
  }

  lemma InForceSnoc<C>(nodes: seq<Node<C>>, node: Node<C>, id: nat)
    ensures InForce(nodes + [node], id) <==> InForce(nodes, id) || (node.id == id && node.callback.Some?)
  {
    if InForce(nodes, id) {
      var k :| 0 <= k < |nodes| && nodes[k].id == id && nodes[k].callback.Some?;
      assert (nodes + [node])[k] == nodes[k];
    }
    if node.id == id && node.callback.Some? { assert (nodes + [node])[|nodes|] == node; }
  }

  /** Insertion at the end moves no position. */
  lemma AddedLast<C>(nodes: seq<Node<C>>, nextId: nat, cb: C)
    requires Ordered(nodes, nextId)
    ensures Ordered(nodes + [Node(nextId, Some(cb))], nextId + 1)
    ensures forall id :: InForce(nodes + [Node(nextId, Some(cb))], id) <==> InForce(nodes, id) || id == nextId
    ensures forall at :: Names(nodes, at) ==> Names(nodes + [Node(nextId, Some(cb))], at)
  {
    var more := nodes + [Node(nextId, Some(cb))];
    forall id ensures InForce(more, id) <==> InForce(nodes, id) || id == nextId {
      InForceSnoc(nodes, Node(nextId, Some(cb)), id);
    }
    forall at | Names(nodes, at) ensures Names(more, at) {
      if at.Some? {
        var k :| 0 <= k < |nodes| && nodes[k].id == at.value;
        assert more[k].id == at.value;
      }
    }
  }

  lemma PositionIndex<C>(nodes: seq<Node<C>>, nextId: nat, k: nat)
    requires Ordered(nodes, nextId) && k <= |nodes|
    ensures Names(nodes, PositionAt(nodes, k)) && Index(nodes, PositionAt(nodes, k)) == k
  {
    if k < |nodes| { assert nodes[k].id == PositionAt(nodes, k).value; }
  }

  /** A reset takes one callback out of force and moves no position. */
  lemma ResetKeeps<C>(nodes: seq<Node<C>>, nextId: nat, id: nat)
    requires Ordered(nodes, nextId)
    ensures Ordered(Reset(nodes, id), nextId)
    ensures forall other :: InForce(Reset(nodes, id), other) <==> InForce(nodes, other) && other != id
    ensures forall at :: Names(nodes, at) ==> Names(Reset(nodes, id), at)
  {
    var reset := Reset(nodes, id);
    forall other ensures InForce(reset, other) <==> InForce(nodes, other) && other != id {
      if InForce(nodes, other) && other != id {
        var k :| 0 <= k < |nodes| && nodes[k].id == other && nodes[k].callback.Some?;
        assert reset[k] == nodes[k];
      }
    }
    forall at | Names(nodes, at) ensures Names(reset, at) {
      if at.Some? {
        var k :| 0 <= k < |nodes| && nodes[k].id == at.value;
        assert reset[k].id == at.value;
      }
    }
  }

  lemma KeptSame<C>(nodes: seq<Node<C>>, nextId: nat)
    requires Ordered(nodes, nextId)
    ensures Ordered(Kept(nodes), nextId) && AllInForce(Kept(nodes))
    ensures forall id :: InForce(Kept(nodes), id) <==> InForce(nodes, id)
  {
    KeptIs(nodes, nextId);
    forall id ensures InForce(Kept(nodes), id) <==> InForce(nodes, id) { KeptInForce(nodes, id); }
  }

  lemma {:induction false} KeptConcat<C>(a: seq<Node<C>>, b: seq<Node<C>>)
    ensures Kept(a + b) == Kept(a) + Kept(b)
    decreases |b|
  {
    if b == [] {
      assert a + b == a;
    } else {
      var n := |b| - 1;
      assert (a + b)[..|a + b| - 1] == a + b[..n];
      KeptConcat(a, b[..n]);
    }
  }

  lemma {:induction false} KeptAll<C>(nodes: seq<Node<C>>)
    requires AllInForce(nodes)
    ensures Kept(nodes) == nodes
  {
    if nodes != [] {
      KeptAll(nodes[..|nodes| - 1]);
      assert nodes == nodes[..|nodes| - 1] + [nodes[|nodes| - 1]];
    }
  }

  /** Erasing a node is resetting it and compacting, where the others are in force. */
  lemma EraseIs<C>(nodes: seq<Node<C>>, nextId: nat, k: nat)
    requires Ordered(nodes, nextId) && AllInForce(nodes) && k < |nodes|
    ensures Kept(Reset(nodes, nodes[k].id)) == nodes[..k] + nodes[k + 1..]
  {
    ResetAround(nodes, nextId, k);
    hide Reset, Kept;
    KeptAround(nodes[..k], Node(nodes[k].id, None), nodes[k + 1..]);
  }

  lemma ResetAround<C>(nodes: seq<Node<C>>, nextId: nat, k: nat)
    requires Ordered(nodes, nextId) && k < |nodes|
    ensures Reset(nodes, nodes[k].id) == nodes[..k] + ([Node(nodes[k].id, None)] + nodes[k + 1..])
  {
    var around := nodes[..k] + ([Node(nodes[k].id, None)] + nodes[k + 1..]);
    forall j | 0 <= j < |nodes| ensures Reset(nodes, nodes[k].id)[j] == around[j] {
      assert j != k ==> nodes[j].id != nodes[k].id;
    }
  }

  lemma KeptAround<C>(a: seq<Node<C>>, node: Node<C>, b: seq<Node<C>>)
    requires AllInForce(a) && node.callback.None? && AllInForce(b)
    ensures Kept(a + ([node] + b)) == a + b
  {
    KeptConcat(a, [node] + b);
    KeptConcat([node], b);
    KeptAll(a);
    KeptAll(b);
    assert [node][..0] == [];
    assert Kept([node]) == [];
    assert [] + b == b;
  }

  /** One of the first i nodes has been reset. */
  predicate AnyReset<C>(nodes: seq<Node<C>>, i: nat) {
    exists j :: 0 <= j < i && j < |nodes| && nodes[j].callback.None?
  }

  /** How often the removal callback runs over the first i nodes. */
  function Runs<C>(nodes: seq<Node<C>>, i: nat): nat {
    if i == 0 then 0 else Runs(nodes, i - 1) + if AnyReset(nodes, i) then 1 else 0
  }

  /** The list when Compact has seen the first i nodes. */
  function Partly<C>(nodes: seq<Node<C>>, i: nat): seq<Node<C>>
    requires i <= |nodes|
  {
    Kept(nodes[..i]) + nodes[i..]
  }

  function KeptCount<C>(nodes: seq<Node<C>>, i: nat): nat
    requires i <= |nodes|
  {
    |Kept(nodes[..i])|
  }

  lemma CompactStart<C>(nodes: seq<Node<C>>)
    ensures KeptCount(nodes, 0) == 0 && Partly(nodes, 0) == nodes && Runs(nodes, 0) == 0 && !AnyReset(nodes, 0)
  {
    assert nodes[0..] == nodes && Kept(nodes[..0]) == [];
  }

  lemma CompactEnd<C>(nodes: seq<Node<C>>, i: nat)
    requires i <= |nodes| && KeptCount(nodes, i) >= |Partly(nodes, i)|
    ensures i == |nodes| && Partly(nodes, i) == Kept(nodes)
  {
    assert nodes[..|nodes|] == nodes;
    assert nodes[|nodes|..] == [];
  }

  lemma PartlyMore<C>(nodes: seq<Node<C>>, i: nat)
    requires i <= |nodes| && KeptCount(nodes, i) < |Partly(nodes, i)|
    ensures i < |nodes|
  {
  }

  lemma CompactStep<C>(nodes: seq<Node<C>>, i: nat)
    requires i < |nodes|
    ensures AnyReset(nodes, i + 1) == (AnyReset(nodes, i) || nodes[i].callback.None?)
    ensures Runs(nodes, i + 1) == Runs(nodes, i) + if AnyReset(nodes, i + 1) then 1 else 0
    ensures var all, k := Partly(nodes, i), KeptCount(nodes, i);
            && k < |all| && all[k] == nodes[i]
            && KeptCount(nodes, i + 1) == (if nodes[i].callback.Some? then k + 1 else k)
            && Partly(nodes, i + 1) == if nodes[i].callback.None? then all[..k] + all[k + 1..] else all
  {
    KeptNext(nodes, i);
    hide Kept;
    assert nodes[i..] == [nodes[i]] + nodes[i + 1..];
    Around(Kept(nodes[..i]), nodes[i], nodes[i + 1..]);
  }

  lemma Around<T>(a: seq<T>, x: T, b: seq<T>)
    ensures var all := a + ([x] + b);
            all[..|a|] + all[|a| + 1..] == a + b && all[|a|] == x && a + [x] + b == all
  {
  }

  lemma {:induction false} RunsAreUpdates<C>(nodes: seq<Node<C>>, i: nat)
    requires i <= |nodes|
    ensures Runs(nodes, i) == if AnyReset(nodes, i) then Updates(nodes) - |nodes| + i else 0
    ensures i == |nodes| ==> Runs(nodes, i) == Updates(nodes)
  {
    if i > 0 {
      RunsAreUpdates(nodes, i - 1);
      UpdatesAt(nodes, i - 1);
    }
    UpdatesAt(nodes, i);
  }

  /** Of the first i nodes, reset from the f-th on or later, at least those before the f-th are kept. */
  lemma {:induction false} KeptFrom<C>(nodes: seq<Node<C>>, f: nat, i: nat)
    requires f <= |nodes| && i <= |nodes|
    requires forall k :: 0 <= k < f ==> nodes[k].callback.Some?
    ensures i <= f ==> |Kept(nodes[..i])| == i
    ensures i > f ==> |Kept(nodes[..i])| >= f
    ensures i > f ==> (|Kept(nodes[..i])| == f <==> forall k :: f <= k < i ==> nodes[k].callback.None?)
  {
    if i > 0 {
      KeptFrom(nodes, f, i - 1);
      KeptNext(nodes, i - 1);
    }
  }

  predicate ForceAfterReset<C>(nodes: seq<Node<C>>) {
    exists j, k :: 0 <= j < k < |nodes| && nodes[j].callback.None? && nodes[k].callback.Some?
  }

  /** A compaction runs the removal callback once for each node it takes out exactly if no node in
      force follows a reset one; otherwise it runs it for some that stay as well. */
  lemma UpdatesIff<C>(nodes: seq<Node<C>>)
    ensures Updates(nodes) >= |nodes| - |Kept(nodes)|
    ensures Updates(nodes) == |nodes| - |Kept(nodes)| <==> !ForceAfterReset(nodes)
  {
    var f := 0;
    while f < |nodes| && nodes[f].callback.Some?
      invariant f <= |nodes| && forall k :: 0 <= k < f ==> nodes[k].callback.Some?
    {
      f := f + 1;
    }
    UpdatesAt(nodes, f);
    KeptFrom(nodes, f, |nodes|);
    assert nodes[..|nodes|] == nodes;
  }

  /** Of a reset node and one in force behind it, one goes and the removal callback runs twice. */
  lemma ForceBehindReset<C>(callback: C)
    ensures var nodes := [Node(0, None), Node(1, Some(callback))];
            Updates(nodes) == 2 && |Kept(nodes)| == 1
  {
    var nodes := [Node(0, None), Node(1, Some(callback))];
    assert nodes[..1] == [nodes[0]] && [nodes[0]][..0] == [];
    assert Kept(nodes[..1]) == Kept<C>([]) == [];
  }

  class CallbackListBase<C> {
    var callbacks: seq<Node<C>>
    var activeIteratorCount: nat
    var hasRemovalCallback: bool
    var removalRuns: nat
    var nextId: nat
    ghost var iterators: set<Iterator<C>>
    /** The live subscription of each node in force. */
    ghost var subscriptions: map<nat, Subscription<C>>

    /** Every position held by a live subscription or iterator names a node in the list; nodes are
        reset only while something iterates. */
    ghost predicate Valid()
      reads this, iterators
    {
      && Ordered(callbacks, nextId)
      && activeIteratorCount == |iterators|
      && (forall it <- iterators :: it.list == this && Names(callbacks, it.at))
      && Subscribed(callbacks, subscriptions)
      && (activeIteratorCount == 0 ==> AllInForce(callbacks))
    }

    ghost predicate Subscribed(nodes: seq<Node<C>>, subs: map<nat, Subscription<C>>) {
      && (forall id :: id in subs <==> InForce(nodes, id))
      && (forall id <- subs :: subs[id].list == this && subs[id].node == id)
    }

    constructor ()
      ensures Valid() && callbacks == [] && iterators == {} && subscriptions == map[] && removalRuns == 0
    {
      callbacks, activeIteratorCount, hasRemovalCallback, removalRuns, nextId := [], 0, false, 0, 0;
      iterators, subscriptions := {}, map[];
    }

    method SetRemovalCallback(present: bool)
      modifies `hasRemovalCallback
      ensures hasRemovalCallback == present
    {
      hasRemovalCallback := present;
    }

    method Add(cb: C) returns (subscription: Subscription<C>)
      requires Valid()
      modifies `callbacks, `subscriptions, `nextId
      ensures Valid() && fresh(subscription) && subscription.list == this && subscription.node == old(nextId)
      ensures callbacks == old(callbacks) + [Node(old(nextId), Some(cb))] && nextId == old(nextId) + 1
      ensures iterators == old(iterators) && subscriptions == old(subscriptions)[old(nextId) := subscription]
    {
      subscription := new Subscription(this, nextId);
      AddedLast(callbacks, nextId, cb);
      callbacks := callbacks + [Node(nextId, Some(cb))];
      subscriptions := subscriptions[nextId := subscription];
      nextId := nextId + 1;
    }

    method GetIterator() returns (it: Iterator<C>)
      requires Valid()
      modifies `activeIteratorCount, `iterators
      ensures Valid() && fresh(it) && it.at == PositionAt(callbacks, 0) && it.called == []
      ensures iterators == old(iterators) + {it} && subscriptions == old(subscriptions)
      ensures callbacks == old(callbacks) && nextId == old(nextId)
    {
      it := new Iterator(this);
    }

    /** Takes the reset nodes out. */
    method Compact()
      requires Ordered(callbacks, nextId) && Subscribed(callbacks, subscriptions)
      modifies `callbacks, `removalRuns
      ensures callbacks == Kept(old(callbacks))
      ensures Ordered(callbacks, nextId) && Subscribed(callbacks, subscriptions) && AllInForce(callbacks)
      ensures removalRuns == old(removalRuns) + if hasRemovalCallback then Updates(old(callbacks)) else 0
    {
      ghost var was := callbacks;
      CompactStart(was);
      hide Subscribed, Ordered, AnyReset, Runs, Partly, KeptCount;
      var it := 0;
      var updated := false;
      ghost var i := 0;
      while it < |callbacks|
        invariant i <= |was| && it == KeptCount(was, i) && callbacks == Partly(was, i)
        invariant updated == AnyReset(was, i)
        invariant removalRuns == old(removalRuns) + if hasRemovalCallback then Runs(was, i) else 0
        decreases |was| - i
      {
        PartlyMore(was, i);
        CompactStep(was, i);
        if callbacks[it].callback.None? {
          updated := true;
          callbacks := callbacks[..it] + callbacks[it + 1..];
        } else {
          it := it + 1;
        }
        if updated && hasRemovalCallback {
          removalRuns := removalRuns + 1;
        }
        i := i + 1;
      }
      CompactEnd(was, i);
      RunsAreUpdates(was, i);
      KeptIs(was, nextId);
      KeptSubscribed(was);
    }

    lemma WithoutSubscription(id: nat)
      requires Subscribed(callbacks, subscriptions) && Ordered(callbacks, nextId)
      ensures Subscribed(Reset(callbacks, id), subscriptions - {id})
      ensures Subscribed(Kept(Reset(callbacks, id)), subscriptions - {id})
    {
      hide Reset, Kept, Ordered, InForce, Names, AllInForce;
      ResetKeeps(callbacks, nextId, id);
      KeptSame(Reset(callbacks, id), nextId);
    }

    method RunRemovalCallback()
      requires Valid()
      modifies `removalRuns
      ensures Valid() && removalRuns == old(removalRuns) + if hasRemovalCallback then 1 else 0
    {
      hide Ordered, Names, Subscribed, AllInForce;
      if hasRemovalCallback {
        removalRuns := removalRuns + 1;
      }
    }

    /** With these nodes and without this subscription the list would be as it should. */
    ghost predicate CanHave(nodes: seq<Node<C>>, id: nat)
      reads this, iterators
    {
      && activeIteratorCount == |iterators| && Ordered(nodes, nextId)
      && (forall it <- iterators :: it.list == this && Names(nodes, it.at))
      && Subscribed(nodes, subscriptions - {id})
      && (activeIteratorCount == 0 ==> AllInForce(nodes))
    }

    /** The list after a change to one node, whose subscription is gone. */
    method SetNodes(nodes: seq<Node<C>>, ghost id: nat)
      requires CanHave(nodes, id)
      modifies `callbacks, `subscriptions
      ensures Valid() && callbacks == nodes && subscriptions == old(subscriptions) - {id}
    {
      hide Ordered, Names, Subscribed, AllInForce;
      callbacks := nodes;
      subscriptions := subscriptions - {id};
    }

    lemma KeptSubscribed(nodes: seq<Node<C>>)
      requires Subscribed(nodes, subscriptions)
      ensures Subscribed(Kept(nodes), subscriptions)
    {
      forall id ensures InForce(Kept(nodes), id) <==> InForce(nodes, id) { KeptInForce(nodes, id); }
    }
  }

  class Subscription<C> {
    const list: CallbackListBase<C>
    const node: nat

    constructor (list: CallbackListBase<C>, node: nat)
      ensures this.list == list && this.node == node
    {
      this.list, this.node := list, node;
    }

    /** The destructor: it runs once, while the list exists. */
    method Destroy()
      requires list.Valid() && node in list.subscriptions && list.subscriptions[node] == this
      modifies list`callbacks, list`subscriptions, list`removalRuns
      ensures list.Valid() && list.iterators == old(list.iterators) && list.nextId == old(list.nextId)
      ensures list.subscriptions == old(list.subscriptions) - {node}
      ensures list.callbacks == if list.iterators == {} then Kept(Reset(old(list.callbacks), node))
                                else Reset(old(list.callbacks), node)
      ensures list.removalRuns
           == old(list.removalRuns) + if list.iterators == {} && list.hasRemovalCallback then 1 else 0
    {
      hide Reset, Kept, Ordered, InForce, Names, AllInForce, Index;
      hide CallbackListBase.CanHave, CallbackListBase.Valid, CallbackListBase.Subscribed;
      IsNode();
      WithoutNode();
      ghost var before := list.callbacks;
      if list.activeIteratorCount > 0 {
        list.SetNodes(Reset(list.callbacks, node), node);
        assert list.callbacks == Reset(before, node);
      } else {
        var k := Index(list.callbacks, Some(node));
        list.SetNodes(list.callbacks[..k] + list.callbacks[k + 1..], node);
        assert list.callbacks == Kept(Reset(before, node));
        list.RunRemovalCallback();
      }
    }

    lemma IsNode()
      requires list.Valid() && node in list.subscriptions
      ensures Names(list.callbacks, Some(node))
    {
      assert InForce(list.callbacks, node);
    }

    /** While something iterates the list can have the node reset, and otherwise it can be without it. */
    lemma WithoutNode()
      requires list.Valid() && node in list.subscriptions && Names(list.callbacks, Some(node))
      ensures list.iterators == {} <==> list.activeIteratorCount == 0
      ensures var reset, k := Reset(list.callbacks, node), Index(list.callbacks, Some(node));
              if list.iterators != {} then list.CanHave(reset, node)
              else
                var nodes := list.callbacks[..k] + list.callbacks[k + 1..];
                nodes == Kept(reset) && list.CanHave(nodes, node)
    {
      hide Reset, Kept, Ordered, InForce, Names, AllInForce, Index, CallbackListBase.Subscribed;
      var reset := Reset(list.callbacks, node);
      list.WithoutSubscription(node);
      ResetKeeps(list.callbacks, list.nextId, node);
      KeptSame(reset, list.nextId);
      if list.iterators == {} {
        EraseIs(list.callbacks, list.nextId, Index(list.callbacks, Some(node)));
      }
    }
  }

  class Iterator<C> {
    const list: CallbackListBase<C>
    var at: Position
    ghost var called: seq<nat>

    constructor (list: CallbackListBase<C>)
      requires list.Valid()
      modifies list`activeIteratorCount, list`iterators
      ensures list.Valid() && this.list == list && at == PositionAt(list.callbacks, 0) && called == []
      ensures list.iterators == old(list.iterators) + {this} && list.subscriptions == old(list.subscriptions)
      ensures list.callbacks == old(list.callbacks) && list.nextId == old(list.nextId)
    {
      this.list := list;
      at := if list.callbacks == [] then None else Some(list.callbacks[0].id);
      called := [];
      new;
      list.activeIteratorCount := list.activeIteratorCount + 1;
      list.iterators := list.iterators + {this};
    }

    constructor Copy(other: Iterator<C>)
      requires other.list.Valid() && other in other.list.iterators
      modifies other.list`activeIteratorCount, other.list`iterators
      ensures list == other.list && list.Valid() && at == other.at && called == other.called
      ensures list.iterators == old(other.list.iterators) + {this}
      ensures list.subscriptions == old(other.list.subscriptions)
      ensures list.callbacks == old(other.list.callbacks) && list.nextId == old(other.list.nextId)
    {
      list := other.list;
      at := other.at;
      called := other.called;
      new;
      list.activeIteratorCount := list.activeIteratorCount + 1;
      list.iterators := list.iterators + {this};
    }

    method Destroy()
      requires list.Valid() && this in list.iterators
      modifies list`activeIteratorCount, list`iterators, list`callbacks, list`removalRuns
      ensures list.Valid() && list.iterators == old(list.iterators) - {this}
      ensures list.subscriptions == old(list.subscriptions) && list.nextId == old(list.nextId)
      ensures list.callbacks == if list.iterators == {} then Kept(old(list.callbacks)) else old(list.callbacks)
      ensures list.removalRuns == old(list.removalRuns)
        + if list.iterators == {} && list.hasRemovalCallback then Updates(old(list.callbacks)) else 0
    {
      list.activeIteratorCount := list.activeIteratorCount - 1;
      list.iterators := list.iterators - {this};
      if list.activeIteratorCount == 0 {
        list.Compact();
      }
    }

    method GetNext() returns (id: Option<nat>)
      requires list.Valid() && this in list.iterators
      modifies `at, `called
      ensures list.Valid()
      ensures Got(at, id) == Next(list.callbacks, old(at))
      ensures called == old(called) + if id.Some? then [id.value] else []
    {
      hide Ordered, Names, Index, FirstInForce, Next, PositionAt;
      while at.Some? && list.callbacks[Index(list.callbacks, at)].callback.None?
        invariant Names(list.callbacks, at) && called == old(called)
        invariant Next(list.callbacks, at) == Next(list.callbacks, old(at))
        decreases |list.callbacks| - Index(list.callbacks, at)
      {
        var k := Index(list.callbacks, at) + 1;
        PositionIndex(list.callbacks, list.nextId, k);
        NextSkips(list.callbacks, at, k);
        at := PositionAt(list.callbacks, k);
      }
      NextHere(list.callbacks, at);
      id := None;
      if at.Some? {
        id := at;
        called := called + [id.value];
        var k := Index(list.callbacks, at) + 1;
        PositionIndex(list.callbacks, list.nextId, k);
        at := PositionAt(list.callbacks, k);
      }
    }
  }

  lemma NextSkips<C>(nodes: seq<Node<C>>, at: Position, k: nat)
    requires at.Some? && Names(nodes, at) && k == Index(nodes, at) + 1 && nodes[k - 1].callback.None?
    requires Names(nodes, PositionAt(nodes, k)) && Index(nodes, PositionAt(nodes, k)) == k
    ensures Next(nodes, PositionAt(nodes, k)) == Next(nodes, at)
  {
    hide Index, PositionAt, Names;
  }

  lemma NextHere<C>(nodes: seq<Node<C>>, at: Position)
    requires Names(nodes, at) && (at.Some? ==> nodes[Index(nodes, at)].callback.Some?)
    ensures Next(nodes, at) == if at.None? then Got(None, None) else Got(PositionAt(nodes, Index(nodes, at) + 1), at)
  {
    hide Index, PositionAt, Names;
  }

  // Every run: passes nested at will, callbacks added and removed between and inside them

  datatype Op<C> = Add(cb: C) | Remove(id: nat) | Begin(pass: nat) | GetNext(pass: nat) | End(pass: nat)

  /** A pass; once it stands at end(), `cut` is the number the next node would have had just then. */
  datatype Pass = Pass(at: Position, called: seq<nat>, cut: Option<nat>)

  datatype World<C> = World(nodes: seq<Node<C>>, nextId: nat, passes: map<nat, Pass>)

  function Moved(pass: Pass, at: Position, nextId: nat): Pass {
    pass.(at := at, cut := if at.None? && pass.cut.None? then Some(nextId) else pass.cut)
  }

  /** Reset nodes are taken out when nothing iterates. */
  function Settled<C>(w: World<C>): World<C> {
    if w.passes == map[] then w.(nodes := Kept(w.nodes)) else w
  }

  ghost function Step<C>(w: World<C>, op: Op<C>): World<C>
    requires Inv(w)
  {
    match op
    case Add(cb) => w.(nodes := w.nodes + [Node(w.nextId, Some(cb))], nextId := w.nextId + 1)
    case Remove(id) => if InForce(w.nodes, id) then Settled(w.(nodes := Reset(w.nodes, id))) else w
    case Begin(p) =>
      if p in w.passes then w
      else w.(passes := w.passes[p := Moved(Pass(None, [], None), PositionAt(w.nodes, 0), w.nextId)])
    case GetNext(p) =>
      if p !in w.passes then w
      else
        assert Follows(w, p);
        w.(passes := w.passes[p := Advance(w, w.passes[p])])
    case End(p) => if p in w.passes then Settled(w.(passes := w.passes - {p})) else w
  }

  function Advance<C>(w: World<C>, pass: Pass): Pass
    requires Names(w.nodes, pass.at)
  {
    var got := Next(w.nodes, pass.at);
    Moved(pass.(called := pass.called + if got.id.Some? then [got.id.value] else []), got.at, w.nextId)
  }

  /** Numbers below this one are behind the pass. */
  function Behind(pass: Pass): nat {
    if pass.at.Some? then pass.at.value else if pass.cut.Some? then pass.cut.value else 0
  }

  ghost predicate Follows<C>(w: World<C>, p: nat)
    requires p in w.passes
  {
    InStep(w.passes[p], w.nodes, w.nextId)
  }

  /** The position names a node of the list, and of what is behind it the pass has called, once and in
      order, all that is in force. */
  ghost predicate InStep<C>(pass: Pass, nodes: seq<Node<C>>, nextId: nat) {
    && Names(nodes, pass.at)
    && (pass.cut.Some? <==> pass.at.None?) && Behind(pass) <= nextId
    && (forall j, k :: 0 <= j < k < |pass.called| ==> pass.called[j] < pass.called[k])
    && (forall k :: 0 <= k < |pass.called| ==> pass.called[k] < Behind(pass))
    && (forall k :: 0 <= k < |nodes| && nodes[k].callback.Some? && nodes[k].id < Behind(pass) ==>
          nodes[k].id in pass.called)
  }

  ghost predicate Inv<C>(w: World<C>) {
    && Ordered(w.nodes, w.nextId)
    && (forall p <- w.passes :: Follows(w, p))
    && (w.passes == map[] ==> AllInForce(w.nodes))
  }

  lemma InStepAfterAdd<C>(pass: Pass, nodes: seq<Node<C>>, nextId: nat, cb: C)
    requires InStep(pass, nodes, nextId)
    ensures InStep(pass, nodes + [Node(nextId, Some(cb))], nextId + 1)
  {
    var more := nodes + [Node(nextId, Some(cb))];
    if pass.at.Some? {
      var k :| 0 <= k < |nodes| && nodes[k].id == pass.at.value;
      assert more[k].id == pass.at.value;
    }
  }

  lemma InStepAfterReset<C>(pass: Pass, nodes: seq<Node<C>>, nextId: nat, id: nat)
    requires InStep(pass, nodes, nextId)
    ensures InStep(pass, Reset(nodes, id), nextId)
  {
    if pass.at.Some? {
      var k :| 0 <= k < |nodes| && nodes[k].id == pass.at.value;
      assert Reset(nodes, id)[k].id == pass.at.value;
    }
  }

  lemma InStepAtStart<C>(nodes: seq<Node<C>>, nextId: nat)
    requires Ordered(nodes, nextId)
    ensures InStep(Moved(Pass(None, [], None), PositionAt(nodes, 0), nextId), nodes, nextId)
  {
    PositionIndex(nodes, nextId, 0);
  }

  lemma InStepAfterNext<C>(pass: Pass, nodes: seq<Node<C>>, nextId: nat)
    requires Ordered(nodes, nextId) && InStep(pass, nodes, nextId)
    ensures var got := Next(nodes, pass.at);
            InStep(Moved(pass.(called := pass.called + if got.id.Some? then [got.id.value] else []), got.at, nextId),
                   nodes, nextId)
  {
    var i := Index(nodes, pass.at);
    var f := FirstInForce(nodes, i);
    var got := Next(nodes, pass.at);
    var called := pass.called + if got.id.Some? then [got.id.value] else [];
    var after := Moved(pass.(called := called), got.at, nextId);
    if f < |nodes| {
      PositionIndex(nodes, nextId, f + 1);
      assert called[|pass.called|] == nodes[f].id;
    }
    forall k | 0 <= k < |nodes| && nodes[k].callback.Some? && nodes[k].id < Behind(after)
      ensures nodes[k].id in called
    {
      if k < i && pass.at.Some? {
        assert nodes[k].id < nodes[i].id;
        assert nodes[k].id in pass.called;
      }
    }
  }

  lemma StepKeeps<C>(w: World<C>, op: Op<C>)
    requires Inv(w)
    ensures Inv(Step(w, op))
  {
    match op
    case Add(cb) => AddKeeps(w, cb);
    case Remove(id) => if InForce(w.nodes, id) { RemoveKeeps(w, id); }
    case Begin(p) => if p !in w.passes { BeginKeeps(w, p); }
    case GetNext(p) => if p in w.passes { GetNextKeeps(w, p); }
    case End(p) => if p in w.passes { EndKeeps(w, p); }
  }

  lemma AddKeeps<C>(w: World<C>, cb: C)
    requires Inv(w)
    ensures Inv(Step(w, Add(cb)))
  {
    var w' := Step(w, Add(cb));
    AddedLast(w.nodes, w.nextId, cb);
    forall p <- w'.passes ensures Follows(w', p) {
      assert Follows(w, p);
      InStepAfterAdd(w.passes[p], w.nodes, w.nextId, cb);
    }
  }

  lemma RemoveKeeps<C>(w: World<C>, id: nat)
    requires Inv(w) && InForce(w.nodes, id)
    ensures Inv(Step(w, Remove(id)))
  {
    var w' := Step(w, Remove(id));
    ResetKeeps(w.nodes, w.nextId, id);
    if w.passes == map[] {
      KeptIs(Reset(w.nodes, id), w.nextId);
    } else {
      forall p <- w'.passes ensures Follows(w', p) {
        assert Follows(w, p);
        InStepAfterReset(w.passes[p], w.nodes, w.nextId, id);
      }
    }
  }

  lemma BeginKeeps<C>(w: World<C>, p: nat)
    requires Inv(w) && p !in w.passes
    ensures Inv(Step(w, Begin(p)))
  {
    var w' := Step(w, Begin(p));
    InStepAtStart(w.nodes, w.nextId);
    hide InStep;
    assert p in w'.passes;
    forall q <- w'.passes ensures Follows(w', q) {
      assert q != p ==> Follows(w, q);
    }
  }

  lemma GetNextKeeps<C>(w: World<C>, p: nat)
    requires Inv(w) && p in w.passes
    ensures Inv(Step(w, GetNext(p)))
  {
    var w' := Step(w, GetNext(p));
    assert Follows(w, p);
    InStepAfterNext(w.passes[p], w.nodes, w.nextId);
    assert p in w'.passes;
    hide InStep, Next;
    forall q <- w'.passes ensures Follows(w', q) {
      assert q != p ==> Follows(w, q);
    }
  }

  lemma EndKeeps<C>(w: World<C>, p: nat)
    requires Inv(w) && p in w.passes
    ensures Inv(Step(w, End(p)))
  {
    var w' := Step(w, End(p));
    var rest := w.passes - {p};
    if rest == map[] {
      KeptIs(w.nodes, w.nextId);
    } else {
      hide InStep;
      forall q <- w'.passes ensures Follows(w', q) {
        assert Follows(w, q);
      }
    }
  }

  ghost function Run<C>(w: World<C>, ops: seq<Op<C>>): World<C>
    requires Inv(w)
    decreases |ops|
  {
    if ops == [] then w
    else
      StepKeeps(w, ops[0]);
      Run(Step(w, ops[0]), ops[1..])
  }

  function Empty<C>(): World<C> { World([], 0, map[]) }

  /** Positions always name nodes of the list, in every run. */
  lemma {:induction false} RunKeeps<C>(w: World<C>, ops: seq<Op<C>>)
    requires Inv(w)
    ensures Inv(Run(w, ops))
    decreases |ops|
  {
    if ops != [] {
      StepKeeps(w, ops[0]);
      RunKeeps(Step(w, ops[0]), ops[1..]);
    }
  }

  /** Nothing is left for the pass to call. */
  predicate Finished<C>(w: World<C>, p: nat)
    requires p in w.passes && Names(w.nodes, w.passes[p].at)
  {
    Next(w.nodes, w.passes[p].at).id == None
  }

  /** A finished pass has called, once and in order, the callbacks in force that were added before it
      stood at end(), and no others. */
  lemma FinishedPass<C>(ops: seq<Op<C>>, p: nat)
    ensures var w := Run(Empty<C>(), ops);
            p in w.passes ==>
              && Names(w.nodes, w.passes[p].at)
              && (Finished(w, p) ==>
                    && (forall j, k :: 0 <= j < k < |w.passes[p].called| ==>
                          w.passes[p].called[j] < w.passes[p].called[k])
                    && forall id: nat :: InForce(w.nodes, id) ==>
                         (id in w.passes[p].called <==> w.passes[p].cut.None? || id < w.passes[p].cut.value))
  {
    var w := Run(Empty<C>(), ops);
    RunKeeps(Empty<C>(), ops);
    if p in w.passes {
      assert Follows(w, p);
      if Finished(w, p) {
        forall id: nat | InForce(w.nodes, id)
          ensures id in w.passes[p].called <==> w.passes[p].cut.None? || id < w.passes[p].cut.value
        {
          CalledIffBehind(w, p, id);
        }
      }
    }
  }

  lemma CalledIffBehind<C>(w: World<C>, p: nat, id: nat)
    requires Inv(w) && p in w.passes && Follows(w, p) && Finished(w, p) && InForce(w.nodes, id)
    ensures id in w.passes[p].called <==> w.passes[p].cut.None? || id < w.passes[p].cut.value
  {
    var pass := w.passes[p];
    var k :| 0 <= k < |w.nodes| && w.nodes[k].id == id && w.nodes[k].callback.Some?;
    var i := Index(w.nodes, pass.at);
    if pass.at.Some? {
      assert k < i;
      assert w.nodes[k].id < w.nodes[i].id;
    }
  }

  /** Pass p is not ended by these. */
  predicate Lasts<C>(ops: seq<Op<C>>, p: nat) {
    forall i :: 0 <= i < |ops| ==> ops[i] != End(p)
  }

  /** Standing at end() is for good: nothing further is called. */
  lemma {:induction false} AtEndForGood<C>(w: World<C>, ops: seq<Op<C>>, p: nat)
    requires Inv(w) && p in w.passes && w.passes[p].at.None? && Lasts(ops, p)
    ensures var w' := Run(w, ops); p in w'.passes && w'.passes[p] == w.passes[p]
    decreases |ops|
  {
    if ops != [] {
      assert ops[0] != End(p) && Follows(w, p);
      StepKeeps(w, ops[0]);
      StaysAtEnd(w, ops[0], p);
      AtEndForGood(Step(w, ops[0]), ops[1..], p);
    }
  }

  lemma StaysAtEnd<C>(w: World<C>, op: Op<C>, p: nat)
    requires Inv(w) && p in w.passes && w.passes[p].at.None? && op != End(p)
    ensures p in Step(w, op).passes && Step(w, op).passes[p] == w.passes[p]
  {
    assert Follows(w, p);
    if op == GetNext(p) {
      assert w.passes[p].called + [] == w.passes[p].called;
    }
  }

  /** A pass that is not at end() will not be cut below a node that already exists. */
  lemma {:induction false} CutLater<C>(w: World<C>, ops: seq<Op<C>>, p: nat)
    requires Inv(w) && p in w.passes && w.passes[p].at.Some? && Lasts(ops, p)
    ensures var w' := Run(w, ops); p in w'.passes && (w'.passes[p].cut.Some? ==> w.nextId <= w'.passes[p].cut.value)
    decreases |ops|
  {
    assert Follows(w, p);
    if ops != [] {
      assert ops[0] != End(p);
      var w1 := Step(w, ops[0]);
      StepKeeps(w, ops[0]);
      CutHere(w, ops[0], p);
      if w1.passes[p].at.Some? {
        CutLater(w1, ops[1..], p);
      } else {
        AtEndForGood(w1, ops[1..], p);
      }
    }
  }

  lemma CutHere<C>(w: World<C>, op: Op<C>, p: nat)
    requires Inv(w) && p in w.passes && w.passes[p].at.Some? && op != End(p)
    ensures var w' := Step(w, op);
            && p in w'.passes && w.nextId <= w'.nextId
            && (w'.passes[p].at.None? ==> w'.passes[p].cut == Some(w.nextId))
  {
    assert Follows(w, p);
  }

  /** A callback added during a pass is run by it exactly when some node followed the running one just
      then, that is, when the pass did not stand at end(). */
  lemma AddedMeanwhile<C>(w: World<C>, cb: C, ops: seq<Op<C>>, p: nat)
    requires Inv(w) && p in w.passes && Lasts(ops, p)
    ensures Inv(Step(w, Add(cb)))
    ensures var w' := Run(Step(w, Add(cb)), ops);
            && p in w'.passes && Names(w'.nodes, w'.passes[p].at)
            && (Finished(w', p) && InForce(w'.nodes, w.nextId) ==>
                  (w.nextId in w'.passes[p].called <==> w.passes[p].at.Some?))
  {
    var w1 := Step(w, Add(cb));
    StepKeeps(w, Add(cb));
    var w' := Run(w1, ops);
    RunKeeps(w1, ops);
    assert Follows(w, p);
    if w.passes[p].at.Some? { CutLater(w1, ops, p); } else { AtEndForGood(w1, ops, p); }
    assert Follows(w', p);
    if Finished(w', p) && InForce(w'.nodes, w.nextId) {
      CalledIffBehind(w', p, w.nextId);
    }
  }

  predicate Gone<C>(w: World<C>, id: nat) {
    id < w.nextId && !InForce(w.nodes, id)
  }

  /** A callback removed before its turn is called by no pass, running or later. */
  lemma {:induction false} NeverAfterRemoval<C>(w: World<C>, ops: seq<Op<C>>, id: nat, p: nat)
    requires Inv(w) && Gone(w, id)
    ensures var w' := Run(w, ops);
            && Gone(w', id)
            && (p in w'.passes && id in w'.passes[p].called ==> p in w.passes && id in w.passes[p].called)
    decreases |ops|
  {
    if ops != [] {
      StepKeeps(w, ops[0]);
      StaysGone(w, ops[0], id);
      NeverCalls(w, ops[0], id, p);
      NeverAfterRemoval(Step(w, ops[0]), ops[1..], id, p);
    }
  }

  lemma StaysGone<C>(w: World<C>, op: Op<C>, id: nat)
    requires Inv(w) && Gone(w, id)
    ensures Gone(Step(w, op), id)
  {
    match op
    case Add(cb) => AddedLast(w.nodes, w.nextId, cb);
    case Remove(other) =>
      ResetKeeps(w.nodes, w.nextId, other);
      KeptInForce(Reset(w.nodes, other), id);
    case End(p) => KeptInForce(w.nodes, id);
    case _ =>
  }

  lemma NeverCalls<C>(w: World<C>, op: Op<C>, id: nat, p: nat)
    requires Inv(w) && Gone(w, id)
    ensures var w' := Step(w, op);
            p in w'.passes && id in w'.passes[p].called ==> p in w.passes && id in w.passes[p].called
  {
    if op == GetNext(p) && p in w.passes {
      assert Follows(w, p);
      var f := FirstInForce(w.nodes, Index(w.nodes, w.passes[p].at));
      assert f < |w.nodes| ==> InForce(w.nodes, w.nodes[f].id);
    }
  }
}

/** Which callbacks are in force after any run: those added and not removed since. */
module CallbackMembership {
  import opened CallbackLists

  function Adds<C>(ops: seq<Op<C>>): nat {
    if ops == [] then 0 else Adds(ops[..|ops| - 1]) + if ops[|ops| - 1].Add? then 1 else 0
  }

  /** The callback with number id, the id-th to be added, was added and not removed after that. */
  predicate Present<C>(ops: seq<Op<C>>, id: nat) {
    ops != [] &&
    var before, last := ops[..|ops| - 1], ops[|ops| - 1];
    (last.Add? && Adds(before) == id) || (Present(before, id) && !(last.Remove? && last.id == id))
  }

  lemma {:induction false} RunSnoc<C>(w: World<C>, ops: seq<Op<C>>, op: Op<C>)
    requires Inv(w)
    ensures Inv(Run(w, ops)) && Run(w, ops + [op]) == Step(Run(w, ops), op)
    decreases |ops|
  {
    RunKeeps(w, ops);
    hide Step, Inv;
    if ops == [] {
      assert ops + [op] == [op] && [op][1..] == [];
    } else {
      StepKeeps(w, ops[0]);
      assert (ops + [op])[0] == ops[0] && (ops + [op])[1..] == ops[1..] + [op];
      RunSnoc(Step(w, ops[0]), ops[1..], op);
    }
  }

  lemma StepInForce<C>(w: World<C>, op: Op<C>, id: nat)
    requires Inv(w)
    ensures var w' := Step(w, op);
            && w'.nextId == w.nextId + (if op.Add? then 1 else 0)
            && (InForce(w'.nodes, id)
                <==> (op.Add? && id == w.nextId) || (InForce(w.nodes, id) && !(op.Remove? && op.id == id)))
  {
    match op
    case Add(cb) => AddedLast(w.nodes, w.nextId, cb);
    case Remove(r) =>
      ResetKeeps(w.nodes, w.nextId, r);
      hide Reset, Kept, Follows;
      if InForce(w.nodes, r) { KeptInForce(Reset(w.nodes, r), id); }
    case End(p) =>
      hide Kept, Follows;
      KeptInForce(w.nodes, id);
    case _ =>
  }

  lemma {:induction false} InForceIff<C>(ops: seq<Op<C>>, id: nat)
    ensures Inv(Empty<C>()) && Run(Empty<C>(), ops).nextId == Adds(ops)
    ensures InForce(Run(Empty<C>(), ops).nodes, id) <==> Present(ops, id)
    decreases |ops|
  {
    if ops != [] {
      var n := |ops| - 1;
      assert ops == ops[..n] + [ops[n]];
      InForceIff(ops[..n], id);
      RunSnoc(Empty<C>(), ops[..n], ops[n]);
      hide Run, Step, InForce, Inv;
      StepInForce(Run(Empty<C>(), ops[..n]), ops[n], id);
    }
  }
}
