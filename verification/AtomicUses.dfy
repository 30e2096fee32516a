/** What callers of base/atomicops_internals_gcc.h rely on, in every run of its loops. */
module AtomicUses {
  import opened Atomics

  // Alone

  /** The word and the call after n accesses that no other comes between. */
  function Alone(r: Running, value: Atomic32, n: nat): Accessed
    decreases n
  {
    if n == 0 then Accessed(value, r.progress)
    else
      var a := AccessWord(r, value);
      Alone(r.(progress := a.progress), a.value, n - 1)
  }

  /** Wherever a call is, three accesses of its own are enough if nothing interferes, and do what the
      call does at once. */
  lemma FinishesAlone(r: Running, value: Atomic32)
    requires Fits(r.call, r.progress) && !r.progress.Done? && !r.progress.Over?
    ensures var a, o := Alone(r, value, 3), Act(r.call, value);
            a.progress == Done(o.result) && a.value == o.value
  {
    ThreeAccesses(r, value);
    hide Alone, Wrap;
    ThreeSettle(r, value);
  }

  /** The call after one more access. */
  function Further(r: Running, value: Atomic32): Running {
    r.(progress := AccessWord(r, value).progress)
  }

  lemma ThreeAccesses(r: Running, value: Atomic32)
    ensures var a := AccessWord(r, value);
            var b := AccessWord(Further(r, value), a.value);
            Alone(r, value, 3) == AccessWord(Further(Further(r, value), a.value), b.value)
  {
    hide AccessWord;
    var r1, v1 := Further(r, value), AccessWord(r, value).value;
    var r2, v2 := Further(r1, v1), AccessWord(r1, v1).value;
    assert Alone(r2, v2, 1) == Alone(Further(r2, v2), AccessWord(r2, v2).value, 0);
    assert Alone(r1, v1, 2) == Alone(r2, v2, 1);
  }

  lemma ThreeSettle(r: Running, value: Atomic32)
    requires Fits(r.call, r.progress) && !r.progress.Done? && !r.progress.Over?
    ensures var a, o := AccessWord(r, value), Act(r.call, value);
            var b := AccessWord(Further(r, value), a.value);
            AccessWord(Further(Further(r, value), a.value), b.value) == Accessed(o.value, Done(o.result))
  {
    hide Wrap;
  }

  // Reading and writing

  /** The call put v into the word. */
  predicate Writes(e: Effect, v: Atomic32) {
    match e.call
    case Store(value) => value == v
    case Exchange(new_value) => new_value == v
    case CompareAndSwap(old_value, new_value) => e.result == old_value && new_value == v
    case _ => false
  }

  /** The call left the word alone: a load, or a swap whose result is not what it expected. */
  predicate Leaves(e: Effect) {
    e.call.Load? || (e.call.CompareAndSwap? && e.result != e.call.old_value)
  }

  lemma {:induction false} LastWrite(before: Atomic32, effects: seq<Effect>, j: nat, v: Atomic32)
    requires Legal(before, effects) && j < |effects| && Writes(effects[j], v)
    requires forall i :: j < i < |effects| ==> Leaves(effects[i])
    ensures ValueAfter(before, effects) == v
    decreases |effects|
  {
    var n := |effects| - 1;
    ValueAfterLast(before, effects);
    if j < n {
      LegalPrefix(before, effects, n);
      LastWrite(before, effects[..n], j, v);
    }
    hide Legal, ValueAfter;
  }

  lemma ValueAfterLast(before: Atomic32, effects: seq<Effect>)
    requires Legal(before, effects) && effects != []
    ensures var last, value := effects[|effects| - 1], ValueAfter(before, effects[..|effects| - 1]);
            Act(last.call, value) == Outcome(ValueAfter(before, effects), last.result)
  {
    assert effects[|effects| - 1].result
        == Act(effects[|effects| - 1].call, ValueAfter(before, effects[..|effects| - 1])).result;
  }

  lemma LegalPrefix(before: Atomic32, effects: seq<Effect>, n: nat)
    requires Legal(before, effects) && n <= |effects|
    ensures Legal(before, effects[..n])
  {
    forall k | 0 <= k < n
      ensures effects[..n][k].result == Act(effects[..n][k].call, ValueAfter(before, effects[..n][..k])).result
    {
      assert effects[..n][..k] == effects[..k];
    }
  }

  /** Every call finds the word as the last write before it left it. */
  lemma LastWriteIsSeen(before: Atomic32, effects: seq<Effect>, j: nat, k: nat, v: Atomic32)
    requires Legal(before, effects) && j < k < |effects| && Writes(effects[j], v)
    requires forall i :: j < i < k ==> Leaves(effects[i])
    ensures var e := effects[k];
            && (e.call.Load? || e.call.Exchange? || e.call.CompareAndSwap? ==> e.result == v)
            && (e.call.Increment? ==> e.result == Wrap(v + e.call.increment))
            && (e.call.CompareAndSwap? && e.call.old_value == v ==> Writes(e, e.call.new_value))
  {
    hide Legal, ValueAfter;
    LegalPrefix(before, effects, k);
    LastWrite(before, effects[..k], j, v);
    LegalPrefix(before, effects, k + 1);
    ValueAfterLast(before, effects[..k + 1]);
    assert effects[..k + 1][..k] == effects[..k];
    hide Leaves;
  }

  // Compare-and-swap elects one caller

  predicate Claims(call: Call, free: Atomic32, taken: Atomic32) {
    call == CompareAndSwap(free, taken) || call.Load?
  }

  predicate Claimed(effects: seq<Effect>) {
    exists k :: 0 <= k < |effects| && effects[k].call.CompareAndSwap?
  }

  lemma {:induction false} WordWhenClaimed(free: Atomic32, taken: Atomic32, effects: seq<Effect>)
    requires forall k :: 0 <= k < |effects| ==> Claims(effects[k].call, free, taken)
    ensures ValueAfter(free, effects) == if Claimed(effects) then taken else free
    decreases |effects|
  {
    if effects != [] {
      var n := |effects| - 1;
      WordWhenClaimed(free, taken, effects[..n]);
      assert Claimed(effects) <==> Claimed(effects[..n]) || effects[n].call.CompareAndSwap? by {
        if Claimed(effects[..n]) {
          var k :| 0 <= k < n && effects[..n][k].call.CompareAndSwap?;
          assert effects[k].call.CompareAndSwap?;
        }
      }
    }
  }

  lemma FirstClaimWins(free: Atomic32, taken: Atomic32, effects: seq<Effect>, k: nat)
    requires free != taken && Legal(free, effects)
    requires forall i :: 0 <= i < |effects| ==> Claims(effects[i].call, free, taken)
    requires k < |effects| && effects[k].call.CompareAndSwap?
    ensures effects[k].result == free <==> !Claimed(effects[..k])
  {
    WordWhenClaimed(free, taken, effects[..k]);
  }

  /** The call has its result, and it is this one. */
  predicate Got(s: State, id: nat, result: Atomic32) {
    && id in s.calls
    && (s.calls[id].progress.Done? || s.calls[id].progress.Over?)
    && s.calls[id].progress.result == result
  }

  predicate Won(s: State, id: nat, free: Atomic32) {
    Got(s, id, free) && s.calls[id].call.CompareAndSwap?
  }

  /** The effect of a call that has its result. */
  lemma EffectOfCall(s: State, before: Atomic32, effects: seq<Effect>, id: nat, result: Atomic32) returns (k: nat)
    requires Inv(s, before, effects) && OfCalls(effects, s.calls) && Got(s, id, result)
    ensures k < |effects| && effects[k].id == id && effects[k].result == result
    ensures effects[k].call == s.calls[id].call
  {
    assert Tracked(s, effects, id);
    k :| 0 <= k < |effects| && effects[k].id == id && effects[k].result == result;
  }

  /** A call with an effect has that result. */
  lemma ResultOfEffect(s: State, before: Atomic32, effects: seq<Effect>, k: nat)
    requires Inv(s, before, effects) && OfCalls(effects, s.calls) && k < |effects|
    ensures Got(s, effects[k].id, effects[k].result)
  {
    var id := effects[k].id;
    assert Tracked(s, effects, id) && Acted(effects, id);
    var j := EffectOfCall(s, before, effects, id, s.calls[id].progress.result);
    assert j == k;
  }

  lemma Explained(value: Atomic32, steps: seq<Step>)
    ensures var s := Run(Start(value), steps);
            var effects := Effects(Start(value), steps);
            Inv(s, value, effects) && OfCalls(effects, s.calls)
  {
    hide *;
    assert [] + Effects(Start(value), steps) == Effects(Start(value), steps);
    StartHolds(value);
    RunKeeps(Start(value), value, [], steps);
    NoEffects(Start(value).calls);
    EffectsOfCalls(Start(value), [], steps);
  }

  lemma NoEffects(calls: map<nat, Running>)
    ensures OfCalls([], calls)
  {
  }

  /** Of calls that swap `free` for `taken`, and nothing else writing, exactly one gets `free`: never
      two, and one as soon as any of them has its result. */
  lemma OneWinner(free: Atomic32, taken: Atomic32, steps: seq<Step>)
    requires free != taken
    requires var s := Run(Start(free), steps); forall id <- s.calls :: Claims(s.calls[id].call, free, taken)
    ensures var s := Run(Start(free), steps);
            && (forall a, b :: Won(s, a, free) && Won(s, b, free) ==> a == b)
            && ((exists id, result :: Got(s, id, result) && s.calls[id].call.CompareAndSwap?)
                ==> exists id :: Won(s, id, free))
  {
    var s, effects := Run(Start(free), steps), Effects(Start(free), steps);
    hide Run, Effects;
    Explained(free, steps);
    AtMostOneWinner(s, free, taken, effects);
    if id, result :| Got(s, id, result) && s.calls[id].call.CompareAndSwap? {
      SomeWinner(s, free, taken, effects, id, result);
    }
  }

  lemma AtMostOneWinner(s: State, free: Atomic32, taken: Atomic32, effects: seq<Effect>)
    requires free != taken && Inv(s, free, effects) && OfCalls(effects, s.calls)
    requires forall id <- s.calls :: Claims(s.calls[id].call, free, taken)
    ensures forall a, b :: Won(s, a, free) && Won(s, b, free) ==> a == b
  {
    forall a, b | Won(s, a, free) && Won(s, b, free) ensures a == b {
      var j := EffectOfCall(s, free, effects, a, free);
      var k := EffectOfCall(s, free, effects, b, free);
      FirstClaimWins(free, taken, effects, j);
      FirstClaimWins(free, taken, effects, k);
      NoneBefore(effects, j, k);
      NoneBefore(effects, k, j);
    }
  }

  lemma NoneBefore(effects: seq<Effect>, first: nat, k: nat)
    requires first < |effects| && k < |effects| && !Claimed(effects[..first]) && effects[k].call.CompareAndSwap?
    ensures first <= k
  {
    forall i | 0 <= i < first ensures !effects[i].call.CompareAndSwap? {
      assert effects[..first][i] == effects[i];
    }
  }

  lemma SomeWinner(s: State, free: Atomic32, taken: Atomic32, effects: seq<Effect>, id: nat, result: Atomic32)
    requires free != taken && Inv(s, free, effects) && OfCalls(effects, s.calls)
    requires forall id <- s.calls :: Claims(s.calls[id].call, free, taken)
    requires Got(s, id, result) && s.calls[id].call.CompareAndSwap?
    ensures exists winner :: Won(s, winner, free)
  {
    var k := EffectOfCall(s, free, effects, id, result);
    var first := FirstClaim(effects, k);
    FirstClaimWins(free, taken, effects, first);
    ResultOfEffect(s, free, effects, first);
    assert Won(s, effects[first].id, free);
  }

  lemma {:induction false} FirstClaim(effects: seq<Effect>, k: nat) returns (first: nat)
    requires k < |effects| && effects[k].call.CompareAndSwap?
    ensures first <= k && effects[first].call.CompareAndSwap? && !Claimed(effects[..first])
    decreases k
  {
    if Claimed(effects[..k]) {
      var j :| 0 <= j < k && effects[..k][j].call.CompareAndSwap?;
      first := FirstClaim(effects, j);
    } else {
      first := k;
    }
  }

  // Exchanges hand each value on

  function News(effects: seq<Effect>): seq<Atomic32>
    requires forall k :: 0 <= k < |effects| ==> effects[k].call.Exchange?
  {
    seq(|effects|, k requires 0 <= k < |effects| => effects[k].call.new_value)
  }

  function Results(effects: seq<Effect>): seq<Atomic32> {
    seq(|effects|, k requires 0 <= k < |effects| => effects[k].result)
  }

  /** What one exchange puts into the word the next one takes out: the first value and those put in are
      those taken out and the last, in this order. */
  lemma ExchangesHandOn(value: Atomic32, steps: seq<Step>)
    requires var s := Run(Start(value), steps); forall id <- s.calls :: s.calls[id].call.Exchange?
    ensures var s := Run(Start(value), steps);
            var effects := Effects(Start(value), steps);
            && (forall k :: 0 <= k < |effects| ==> effects[k].call.Exchange?)
            && [value] + News(effects) == Results(effects) + [s.value]
            && (forall k :: 0 <= k < |effects| ==> Got(s, effects[k].id, effects[k].result))
  {
    var s, effects := Run(Start(value), steps), Effects(Start(value), steps);
    hide Run, Effects;
    Explained(value, steps);
    HandOn(value, effects);
    forall k | 0 <= k < |effects| ensures Got(s, effects[k].id, effects[k].result) {
      ResultOfEffect(s, value, effects, k);
    }
  }

  lemma {:induction false} HandOn(value: Atomic32, effects: seq<Effect>)
    requires Legal(value, effects) && forall k :: 0 <= k < |effects| ==> effects[k].call.Exchange?
    ensures [value] + News(effects) == Results(effects) + [ValueAfter(value, effects)]
    decreases |effects|
  {
    if effects != [] {
      var n := |effects| - 1;
      ValueAfterLast(value, effects);
      LegalPrefix(value, effects, n);
      HandOn(value, effects[..n]);
      hide *;
      HandedOnOnce(value, effects, ValueAfter(value, effects[..n]), ValueAfter(value, effects));
    }
  }

  lemma HandedOnOnce(value: Atomic32, effects: seq<Effect>, before: Atomic32, after: Atomic32)
    requires effects != [] && forall k :: 0 <= k < |effects| ==> effects[k].call.Exchange?
    requires [value] + News(effects[..|effects| - 1]) == Results(effects[..|effects| - 1]) + [before]
    requires Act(effects[|effects| - 1].call, before) == Outcome(after, effects[|effects| - 1].result)
    ensures [value] + News(effects) == Results(effects) + [after]
  {
    var rest, last := effects[..|effects| - 1], effects[|effects| - 1];
    assert News(effects) == News(rest) + [last.call.new_value];
    assert Results(effects) == Results(rest) + [last.result];
  }
}
