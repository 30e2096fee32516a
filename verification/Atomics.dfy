/**
 * The compare-and-swap, exchange and increment loops of base/atomicops_internals_gcc.h, run by any
 * number of threads over one word.  A step is one access to the word; threads interleave at will.
 *
 * The reference is a word on which each call acts at once.  Every run is shown to be a run of the
 * reference in which each call acts at one point between its invocation and its return.
 */
module Atomics {
  const MODULUS: int := 0x1_0000_0000

  type Atomic32 = x: int | -0x8000_0000 <= x < 0x8000_0000

  /** Two's complement wrap-around. */
  function Wrap(x: int): (w: Atomic32) {
    (x + 0x8000_0000) % MODULUS - 0x8000_0000
  }

  lemma WrapIs(x: int)
    ensures (x - Wrap(x)) % MODULUS == 0
    ensures -0x8000_0000 <= x < 0x8000_0000 ==> Wrap(x) == x
  {
  }

  datatype Call =
    | CompareAndSwap(old_value: Atomic32, new_value: Atomic32)
    | Exchange(new_value: Atomic32)
    | Increment(increment: Atomic32)
    | Load
    | Store(value: Atomic32)

  // The reference

  datatype Outcome = Outcome(value: Atomic32, result: Atomic32)

  /** The call as one action; a store has its own value for result. */
  function Act(call: Call, value: Atomic32): Outcome {
    match call
    case CompareAndSwap(old_value, new_value) => Outcome(if value == old_value then new_value else value, value)
    case Exchange(new_value) => Outcome(new_value, value)
    case Increment(increment) => Outcome(Wrap(value + increment), Wrap(value + increment))
    case Load => Outcome(value, value)
    case Store(v) => Outcome(v, v)
  }

  /** A call taking effect when `at` invocations and returns had been seen. */
  datatype Effect = Effect(id: nat, call: Call, result: Atomic32, at: nat)

  /** The word after the effects, one by one. */
  function ValueAfter(before: Atomic32, effects: seq<Effect>): Atomic32 {
    if effects == [] then before
    else Act(effects[|effects| - 1].call, ValueAfter(before, effects[..|effects| - 1])).value
  }

  /** Each effect has the result its call gives on the word the earlier ones left. */
  predicate Legal(before: Atomic32, effects: seq<Effect>) {
    forall k :: 0 <= k < |effects| ==>
      effects[k].result == Act(effects[k].call, ValueAfter(before, effects[..k])).result
  }

  // The loops

  /** Where a call is: between accesses, with what it has read. */
  datatype Progress =
    | Begun
    | Read(old_value: Atomic32)
    | Refused
    | Done(result: Atomic32)
    | Over(result: Atomic32)

  datatype Running = Running(call: Call, progress: Progress)

  datatype Event = Invoked(id: nat, call: Call) | Returned(id: nat, result: Atomic32)

  datatype State = State(value: Atomic32, calls: map<nat, Running>, history: seq<Event>)

  datatype Step = Invoke(id: nat, call: Call) | Access(id: nat) | Return(id: nat)

  /** One access: the new word and where the call goes. */
  datatype Accessed = Accessed(value: Atomic32, progress: Progress)

  function AccessWord(r: Running, value: Atomic32): Accessed {
    match (r.call, r.progress)
    // swapped, or refused because the word was another
    case (CompareAndSwap(old_value, new_value), Begun) =>
      if value == old_value then Accessed(new_value, Done(old_value)) else Accessed(value, Refused)
    // the word that refused is read, and tried again should it be the expected one by now
    case (CompareAndSwap(old_value, _), Refused) =>
      if value == old_value then Accessed(value, Begun) else Accessed(value, Done(value))
    // read first, then swapped if the word is still what was read
    case (Exchange(_), Begun) => Accessed(value, Read(value))
    case (Exchange(new_value), Read(old_value)) =>
      if value == old_value then Accessed(new_value, Done(old_value)) else Accessed(value, Begun)
    case (Increment(_), Begun) => Accessed(value, Read(value))
    case (Increment(increment), Read(old_value)) =>
      if value == old_value then Accessed(Wrap(old_value + increment), Done(Wrap(old_value + increment)))
      else Accessed(value, Begun)
    case (Load, Begun) => Accessed(value, Done(value))
    case (Store(v), Begun) => Accessed(v, Done(v))
    case _ => Accessed(value, r.progress)
  }

  /** Call numbers are used once; steps that cannot be taken change nothing. */
  function Take(s: State, step: Step): State {
    match step
    case Invoke(id, call) =>
      if id in s.calls then s
      else s.(calls := s.calls[id := Running(call, Begun)], history := s.history + [Invoked(id, call)])
    case Access(id) =>
      if id !in s.calls then s
      else
        var a := AccessWord(s.calls[id], s.value);
        s.(value := a.value, calls := s.calls[id := s.calls[id].(progress := a.progress)])
    case Return(id) =>
      if id !in s.calls || !s.calls[id].progress.Done? then s
      else
        var result := s.calls[id].progress.result;
        s.(calls := s.calls[id := s.calls[id].(progress := Over(result))],
           history := s.history + [Returned(id, result)])
  }

  function Run(s: State, steps: seq<Step>): State
    decreases |steps|
  {
    if steps == [] then s else Run(Take(s, steps[0]), steps[1..])
  }

  /** A call takes effect with the access that settles its result. */
  function EffectOf(s: State, step: Step): seq<Effect> {
    if step.Access? && step.id in s.calls && !s.calls[step.id].progress.Done? && !s.calls[step.id].progress.Over? then
      var r := s.calls[step.id];
      var a := AccessWord(r, s.value);
      if a.progress.Done? then [Effect(step.id, r.call, a.progress.result, |s.history|)] else []
    else []
  }

  function Effects(s: State, steps: seq<Step>): seq<Effect>
    decreases |steps|
  {
    if steps == [] then [] else EffectOf(s, steps[0]) + Effects(Take(s, steps[0]), steps[1..])
  }

  function Start(value: Atomic32): State { State(value, map[], []) }

  // Each call acts once, between its invocation and its return

  ghost predicate InvokedBefore(history: seq<Event>, id: nat, call: Call, n: nat) {
    exists i :: 0 <= i < n && i < |history| && history[i] == Invoked(id, call)
  }

  ghost predicate ActedBefore(effects: seq<Effect>, id: nat, result: Atomic32, n: nat) {
    exists k :: 0 <= k < |effects| && effects[k].id == id && effects[k].result == result && effects[k].at <= n
  }

  /** The effects explain the history: in some order of single actions, one for each call that
      returned and at most one for any, each inside its call. */
  ghost predicate Explains(effects: seq<Effect>, history: seq<Event>) {
    && (forall j, k :: 0 <= j < k < |effects| ==> effects[j].id != effects[k].id && effects[j].at <= effects[k].at)
    && (forall k :: 0 <= k < |effects| ==> InvokedBefore(history, effects[k].id, effects[k].call, effects[k].at))
    && (forall i :: 0 <= i < |history| && history[i].Returned? ==>
          ActedBefore(effects, history[i].id, history[i].result, i))
    && (forall i, j :: 0 <= i < j < |history| && history[i].Returned? && history[j].Returned? ==>
          history[i].id != history[j].id)
  }

  predicate ReturnedIn(history: seq<Event>, id: nat) {
    exists i :: 0 <= i < |history| && history[i].Returned? && history[i].id == id
  }

  ghost predicate Acted(effects: seq<Effect>, id: nat) {
    exists k :: 0 <= k < |effects| && effects[k].id == id
  }

  ghost predicate Fits(call: Call, progress: Progress) {
    && (progress.Read? ==> call.Exchange? || call.Increment?)
    && (progress.Refused? ==> call.CompareAndSwap?)
  }

  /** What is known of one call. */
  ghost predicate Tracked(s: State, effects: seq<Effect>, id: nat)
    requires id in s.calls
  {
    var r := s.calls[id];
    && Fits(r.call, r.progress)
    && InvokedBefore(s.history, id, r.call, |s.history|)
    && (r.progress.Done? || r.progress.Over? ==> ActedBefore(effects, id, r.progress.result, |s.history|))
    && (!r.progress.Done? && !r.progress.Over? ==> !Acted(effects, id))
    && (r.progress.Over? <==> ReturnedIn(s.history, id))
  }

  ghost predicate Inv(s: State, before: Atomic32, effects: seq<Effect>) {
    && Yields(before, effects, s.value)
    && Explains(effects, s.history)
    && Known(s, effects)
  }

  ghost predicate Yields(before: Atomic32, effects: seq<Effect>, value: Atomic32) {
    Legal(before, effects) && value == ValueAfter(before, effects)
  }

  ghost predicate Known(s: State, effects: seq<Effect>) {
    && (forall k :: 0 <= k < |effects| ==> effects[k].at <= |s.history| && effects[k].id in s.calls)
    && (forall id <- s.calls :: Tracked(s, effects, id))
  }

  lemma LegalSnoc(before: Atomic32, effects: seq<Effect>, value: Atomic32, e: Effect)
    requires Yields(before, effects, value) && e.result == Act(e.call, value).result
    ensures Yields(before, effects + [e], Act(e.call, value).value)
  {
    var all := effects + [e];
    assert all[..|effects|] == effects;
    forall k | 0 <= k < |all| ensures all[k].result == Act(all[k].call, ValueAfter(before, all[..k])).result {
      assert all[..k] == effects[..k];
    }
  }

  /** The access that settles a result is the call acting at once; any other leaves the word alone. */
  lemma AccessActs(r: Running, value: Atomic32)
    requires Fits(r.call, r.progress) && !r.progress.Done? && !r.progress.Over?
    ensures var a := AccessWord(r, value);
            && Fits(r.call, a.progress) && !a.progress.Over?
            && (if a.progress.Done? then Act(r.call, value) == Outcome(a.value, a.progress.result)
                else a.value == value)
  {
  }

  lemma ExplainsMore(effects: seq<Effect>, history: seq<Event>, event: Event)
    requires Explains(effects, history)
    requires event.Returned? ==>
      ActedBefore(effects, event.id, event.result, |history|) && !ReturnedIn(history, event.id)
    ensures Explains(effects, history + [event])
  {
    var h := history + [event];
    forall k | 0 <= k < |effects| ensures InvokedBefore(h, effects[k].id, effects[k].call, effects[k].at) {
      var i :| 0 <= i < effects[k].at && i < |history| && history[i] == Invoked(effects[k].id, effects[k].call);
      assert h[i] == history[i];
    }
    forall i | 0 <= i < |h| && h[i].Returned? ensures ActedBefore(effects, h[i].id, h[i].result, i) {
      if i < |history| { assert h[i] == history[i]; }
    }
  }

  lemma ActedMore(effects: seq<Effect>, e: Effect, id: nat, result: Atomic32, n: nat)
    requires ActedBefore(effects, id, result, n)
    ensures ActedBefore(effects + [e], id, result, n)
  {
    var k :| 0 <= k < |effects| && effects[k].id == id && effects[k].result == result && effects[k].at <= n;
    assert (effects + [e])[k] == effects[k];
  }

  lemma ExplainsEffect(effects: seq<Effect>, history: seq<Event>, e: Effect)
    requires Explains(effects, history)
    requires forall k :: 0 <= k < |effects| ==> effects[k].at <= e.at
    requires !Acted(effects, e.id) && InvokedBefore(history, e.id, e.call, e.at)
    ensures Explains(effects + [e], history)
  {
    forall i | 0 <= i < |history| && history[i].Returned?
      ensures ActedBefore(effects + [e], history[i].id, history[i].result, i)
    {
      ActedMore(effects, e, history[i].id, history[i].result, i);
    }
  }

  /** What is known of a call outlives a step that is not its own. */
  lemma TrackedMore(s: State, effects: seq<Effect>, s': State, more: seq<Effect>, id: nat)
    requires id in s.calls && id in s'.calls && s'.calls[id] == s.calls[id] && Tracked(s, effects, id)
    requires s.history == s'.history || (exists event: Event :: s'.history == s.history + [event] && event.id != id)
    requires more == effects || (exists e: Effect :: more == effects + [e] && e.id != id)
    ensures Tracked(s', more, id)
  {
    var r := s.calls[id];
    var i :| 0 <= i < |s.history| && s.history[i] == Invoked(id, r.call);
    assert s'.history[i] == Invoked(id, r.call);
    assert ReturnedIn(s'.history, id) <==> ReturnedIn(s.history, id) by { SameReturns(s.history, s'.history, id); }
    if more != effects {
      var e: Effect :| more == effects + [e] && e.id != id;
      if r.progress.Done? || r.progress.Over? {
        ActedMore(effects, e, id, r.progress.result, |s.history|);
      }
      forall k | 0 <= k < |more| && !Acted(effects, id) ensures more[k].id != id {
        if k < |effects| { assert more[k] == effects[k]; }
      }
    }
  }

  lemma SameReturns(history: seq<Event>, more: seq<Event>, id: nat)
    requires more == history || (exists event: Event :: more == history + [event] && (event.id != id || event.Invoked?))
    ensures ReturnedIn(more, id) <==> ReturnedIn(history, id)
  {
    if ReturnedIn(history, id) {
      var i :| 0 <= i < |history| && history[i].Returned? && history[i].id == id;
      assert more[i] == history[i];
    }
  }

  lemma NeverReturned(s: State, before: Atomic32, effects: seq<Effect>, id: nat)
    requires Inv(s, before, effects) && id !in s.calls
    ensures !ReturnedIn(s.history, id)
  {
    forall i | 0 <= i < |s.history| && s.history[i].Returned? ensures s.history[i].id in s.calls {
      assert ActedBefore(effects, s.history[i].id, s.history[i].result, i);
    }
  }

  lemma InvokeKeeps(s: State, before: Atomic32, effects: seq<Effect>, id: nat, call: Call)
    requires Inv(s, before, effects) && id !in s.calls
    ensures Inv(Take(s, Invoke(id, call)), before, effects)
  {
    var s' := Take(s, Invoke(id, call));
    assert !ReturnedIn(s.history, id) by { NeverReturned(s, before, effects, id); }
    SameReturns(s.history, s'.history, id);
    assert Tracked(s', effects, id) by { assert s'.history[|s.history|] == Invoked(id, call); }
    ExplainsMore(effects, s.history, Invoked(id, call));
    KnownMore(s, effects, s', effects, id);
    hide Explains, Yields, Known;
  }

  lemma ReturnKeeps(s: State, before: Atomic32, effects: seq<Effect>, id: nat)
    requires Inv(s, before, effects) && id in s.calls && s.calls[id].progress.Done?
    ensures Inv(Take(s, Return(id)), before, effects)
  {
    var s' := Take(s, Return(id));
    var event := Returned(id, s.calls[id].progress.result);
    assert Tracked(s, effects, id);
    assert s'.history == s.history + [event];
    ExplainsMore(effects, s.history, event);
    TrackedOver(s, effects, id);
    KnownMore(s, effects, s', effects, id);
    hide Explains, Yields, Known;
  }

  lemma TrackedOver(s: State, effects: seq<Effect>, id: nat)
    requires id in s.calls && s.calls[id].progress.Done? && Tracked(s, effects, id)
    ensures Tracked(Take(s, Return(id)), effects, id)
  {
    var s' := Take(s, Return(id));
    var i :| 0 <= i < |s.history| && s.history[i] == Invoked(id, s.calls[id].call);
    assert s'.history[i] == s.history[i];
    assert s'.history[|s.history|] == Returned(id, s.calls[id].progress.result);
    assert ReturnedIn(s'.history, id);
  }

  /** A step of call `id` keeps what is known of the others. */
  lemma KnownMore(s: State, effects: seq<Effect>, s': State, more: seq<Effect>, id: nat)
    requires Known(s, effects) && s'.calls.Keys == s.calls.Keys + {id} && Tracked(s', more, id)
    requires forall other <- s.calls :: other != id ==> s'.calls[other] == s.calls[other]
    requires s.history == s'.history || (exists event: Event :: s'.history == s.history + [event] && event.id == id)
    requires more == effects || (exists e: Effect :: more == effects + [e] && e.id == id && e.at <= |s.history|)
    ensures Known(s', more)
  {
    forall other <- s'.calls ensures Tracked(s', more, other) {
      if other != id { TrackedMore(s, effects, s', more, other); }
    }
  }

  predicate Pending(s: State, id: nat) {
    id in s.calls && !s.calls[id].progress.Done? && !s.calls[id].progress.Over?
  }

  lemma AccessKeeps(s: State, before: Atomic32, effects: seq<Effect>, id: nat)
    requires Inv(s, before, effects) && Pending(s, id)
    ensures Inv(Take(s, Access(id)), before, effects + EffectOf(s, Access(id)))
  {
    var a := AccessWord(s.calls[id], s.value);
    if a.progress.Done? {
      var e := Effect(id, s.calls[id].call, a.progress.result, |s.history|);
      assert effects + EffectOf(s, Access(id)) == effects + [e];
      assert Settles(s, e);
      hide *;
      SettlingAccess(s, before, effects, e);
    } else {
      assert effects + EffectOf(s, Access(id)) == effects;
      hide *;
      OtherAccess(s, before, effects, id);
    }
  }

  predicate Settles(s: State, e: Effect) {
    && Pending(s, e.id)
    && AccessWord(s.calls[e.id], s.value).progress.Done?
    && e == Effect(e.id, s.calls[e.id].call, AccessWord(s.calls[e.id], s.value).progress.result, |s.history|)
  }

  lemma SettlingAccess(s: State, before: Atomic32, effects: seq<Effect>, e: Effect)
    requires Inv(s, before, effects) && Settles(s, e)
    ensures Inv(Take(s, Access(e.id)), before, effects + [e])
  {
    hide Known, Explains, Yields, Settles;
    SettlingKnown(s, effects, e);
    SettlingExplains(s, effects, e);
    SettlingYields(s, before, effects, e);
  }

  lemma SettlingKnown(s: State, effects: seq<Effect>, e: Effect)
    requires Known(s, effects) && Settles(s, e)
    ensures Known(Take(s, Access(e.id)), effects + [e])
  {
    assert Tracked(s, effects, e.id);
    TrackedSettled(s, effects, e.id, e);
    KnownMore(s, effects, Take(s, Access(e.id)), effects + [e], e.id);
  }

  lemma SettlingExplains(s: State, effects: seq<Effect>, e: Effect)
    requires Known(s, effects) && Explains(effects, s.history) && Settles(s, e)
    ensures Explains(effects + [e], s.history)
    ensures Take(s, Access(e.id)).history == s.history
  {
    assert Tracked(s, effects, e.id);
    hide Explains;
    ExplainsEffect(effects, s.history, e);
  }

  lemma SettlingYields(s: State, before: Atomic32, effects: seq<Effect>, e: Effect)
    requires Known(s, effects) && Yields(before, effects, s.value) && Settles(s, e)
    ensures Yields(before, effects + [e], Take(s, Access(e.id)).value)
  {
    assert Tracked(s, effects, e.id);
    hide Yields, AccessWord;
    AccessActs(s.calls[e.id], s.value);
    LegalSnoc(before, effects, s.value, e);
  }

  lemma OtherAccess(s: State, before: Atomic32, effects: seq<Effect>, id: nat)
    requires Inv(s, before, effects) && Pending(s, id)
    requires !AccessWord(s.calls[id], s.value).progress.Done?
    ensures Inv(Take(s, Access(id)), before, effects)
  {
    assert Tracked(s, effects, id);
    hide AccessWord, ValueAfter, Legal, Explains;
    AccessActs(s.calls[id], s.value);
    KnownMore(s, effects, Take(s, Access(id)), effects, id);
  }

  lemma TrackedSettled(s: State, effects: seq<Effect>, id: nat, e: Effect)
    requires id in s.calls && Tracked(s, effects, id) && !s.calls[id].progress.Done? && !s.calls[id].progress.Over?
    requires AccessWord(s.calls[id], s.value).progress.Done?
    requires e == Effect(id, s.calls[id].call, AccessWord(s.calls[id], s.value).progress.result, |s.history|)
    ensures Tracked(Take(s, Access(id)), effects + [e], id)
  {
    assert (effects + [e])[|effects|] == e;
    hide AccessWord, Acted;
  }

  lemma StepKeeps(s: State, before: Atomic32, effects: seq<Effect>, step: Step)
    requires Inv(s, before, effects)
    ensures Inv(Take(s, step), before, effects + EffectOf(s, step))
  {
    assert effects + [] == effects;
    match step
    case Invoke(id, call) => if id !in s.calls { InvokeKeeps(s, before, effects, id, call); }
    case Access(id) =>
      if id in s.calls {
        if s.calls[id].progress.Done? || s.calls[id].progress.Over? {
          assert Tracked(s, effects, id);
          Settled(s, id);
        } else {
          AccessKeeps(s, before, effects, id);
        }
      }
    case Return(id) => if id in s.calls && s.calls[id].progress.Done? { ReturnKeeps(s, before, effects, id); }
  }

  /** A call whose result is settled touches the word no more. */
  lemma Settled(s: State, id: nat)
    requires id in s.calls && (s.calls[id].progress.Done? || s.calls[id].progress.Over?)
    ensures Take(s, Access(id)) == s && EffectOf(s, Access(id)) == []
  {
    assert s.calls[id := s.calls[id]] == s.calls;
  }

  lemma FirstStep(s: State, steps: seq<Step>)
    ensures steps == [] ==> Run(s, steps) == s && Effects(s, steps) == []
    ensures steps != [] ==> Run(s, steps) == Run(Take(s, steps[0]), steps[1..])
    ensures steps != [] ==> Effects(s, steps) == EffectOf(s, steps[0]) + Effects(Take(s, steps[0]), steps[1..])
  {
  }

  lemma {:induction false} RunKeeps(s: State, before: Atomic32, effects: seq<Effect>, steps: seq<Step>)
    requires Inv(s, before, effects)
    ensures Inv(Run(s, steps), before, effects + Effects(s, steps))
    decreases |steps|
  {
    hide *;
    FirstStep(s, steps);
    if steps == [] {
      assert effects + [] == effects;
    } else {
      var s', one := Take(s, steps[0]), EffectOf(s, steps[0]);
      var rest := Effects(s', steps[1..]);
      assert effects + one + rest == effects + (one + rest);
      StepKeeps(s, before, effects, steps[0]);
      RunKeeps(s', before, effects + one, steps[1..]);
    }
  }

  /** Any interleaving of the loops is a run of single actions, one inside each call. */
  lemma Linearizable(value: Atomic32, steps: seq<Step>)
    ensures var s := Run(Start(value), steps);
            var effects := Effects(Start(value), steps);
            && Yields(value, effects, s.value)
            && Explains(effects, s.history)
  {
    assert [] + Effects(Start(value), steps) == Effects(Start(value), steps);
    hide Effects, Run, Yields, Explains, Known;
    StartHolds(value);
    RunKeeps(Start(value), value, [], steps);
  }

  lemma StartHolds(value: Atomic32)
    ensures Inv(Start(value), value, [])
  {
  }

  // What this means for increments

  function Sum(effects: seq<Effect>): int {
    if effects == [] then 0
    else Sum(effects[..|effects| - 1]) + Amount(effects[|effects| - 1].call)
  }

  function Amount(call: Call): int {
    if call.Increment? then call.increment else 0
  }

  /** Calls that add to the word, or leave it. */
  predicate OnlyAdds(call: Call) {
    call.Increment? || call.Load?
  }

  lemma WrapAdds(a: int, b: int)
    ensures Wrap(Wrap(a) + b) == Wrap(a + b)
  {
    WrapIs(a);
    hide Wrap;
    SameWrap(Wrap(a) + b, a + b);
  }

  lemma SameWrap(x: int, y: int)
    requires (y - x) % MODULUS == 0
    ensures Wrap(x) == Wrap(y)
  {
    var q := (y - x) / MODULUS;
    assert y + 0x8000_0000 == x + 0x8000_0000 + q * MODULUS;
  }

  lemma {:induction false} SumOfEffects(value: Atomic32, effects: seq<Effect>)
    requires forall k :: 0 <= k < |effects| ==> OnlyAdds(effects[k].call)
    ensures ValueAfter(value, effects) == Wrap(value + Sum(effects))
  {
    if effects != [] {
      var n := |effects| - 1;
      SumOfEffects(value, effects[..n]);
      WrapAdds(value + Sum(effects[..n]), Amount(effects[n].call));
    }
  }

  /** The sum of the increments of those calls, by number below n. */
  function SumOver(calls: map<nat, Running>, ids: set<nat>, n: nat): int
    requires ids <= calls.Keys
  {
    if n == 0 then 0
    else SumOver(calls, ids, n - 1) + (if n - 1 in ids then Amount(calls[n - 1].call) else 0)
  }

  lemma {:induction false} SumOverOneMore(calls: map<nat, Running>, ids: set<nat>, id: nat, n: nat)
    requires ids <= calls.Keys && id in ids
    ensures SumOver(calls, ids, n)
         == SumOver(calls, ids - {id}, n) + (if id < n then Amount(calls[id].call) else 0)
  {
    if n > 0 { SumOverOneMore(calls, ids, id, n - 1); }
  }

  lemma {:induction false} SumOverNone(calls: map<nat, Running>, n: nat)
    ensures SumOver(calls, {}, n) == 0
  {
    if n > 0 { SumOverNone(calls, n - 1); }
  }

  /** Each effect is of a call that was made. */
  ghost predicate OfCalls(effects: seq<Effect>, calls: map<nat, Running>) {
    forall k :: 0 <= k < |effects| ==> effects[k].id in calls && effects[k].call == calls[effects[k].id].call
  }

  lemma {:induction false} EffectsOfCalls(s: State, effects: seq<Effect>, steps: seq<Step>)
    requires OfCalls(effects, s.calls)
    ensures OfCalls(effects + Effects(s, steps), Run(s, steps).calls)
    decreases |steps|
  {
    if steps == [] {
      assert effects + [] == effects;
    } else {
      var s', one := Take(s, steps[0]), EffectOf(s, steps[0]);
      OneEffect(s, effects, steps[0]);
      hide OfCalls, Take, EffectOf;
      EffectsOfCalls(s', effects + one, steps[1..]);
      assert effects + one + Effects(s', steps[1..]) == effects + Effects(s, steps);
    }
  }

  lemma OneEffect(s: State, effects: seq<Effect>, step: Step)
    requires OfCalls(effects, s.calls)
    ensures OfCalls(effects + EffectOf(s, step), Take(s, step).calls)
  {
    hide AccessWord;
  }

  lemma {:induction false} SumOfIds(calls: map<nat, Running>, effects: seq<Effect>, ids: set<nat>, n: nat)
    requires forall j, k :: 0 <= j < k < |effects| ==> effects[j].id != effects[k].id
    requires ids <= calls.Keys && OfCalls(effects, calls)
    requires forall id :: id in ids <==> Acted(effects, id)
    requires forall id <- ids :: id < n
    ensures Sum(effects) == SumOver(calls, ids, n)
  {
    if effects == [] {
      assert ids == {};
      SumOverNone(calls, n);
    } else {
      var last, rest := effects[|effects| - 1], effects[..|effects| - 1];
      assert Acted(effects, last.id) && last.id in ids;
      ActedRest(effects);
      SumOfIds(calls, rest, ids - {last.id}, n);
      SumOverOneMore(calls, ids, last.id, n);
    }
  }

  lemma ActedRest(effects: seq<Effect>)
    requires effects != []
    requires forall j, k :: 0 <= j < k < |effects| ==> effects[j].id != effects[k].id
    ensures var last, rest := effects[|effects| - 1], effects[..|effects| - 1];
            forall id :: Acted(rest, id) <==> Acted(effects, id) && id != last.id
  {
    var last, rest := effects[|effects| - 1], effects[..|effects| - 1];
    forall id ensures Acted(rest, id) <==> Acted(effects, id) && id != last.id {
      if Acted(rest, id) {
        var k :| 0 <= k < |rest| && rest[k].id == id;
        assert effects[k].id == id;
      }
      if Acted(effects, id) && id != last.id {
        var k :| 0 <= k < |effects| && effects[k].id == id;
        assert rest[k].id == id;
      }
    }
  }

  /** The calls whose result is settled. */
  function SettledIds(s: State): set<nat> {
    set id | id in s.calls && (s.calls[id].progress.Done? || s.calls[id].progress.Over?)
  }

  /** Nothing is lost: while threads only increment the word and load it, it has at every moment moved
      by the sum of the increments of the calls settled, modulo 2^32. */
  lemma IncrementsAreConserved(value: Atomic32, steps: seq<Step>, n: nat)
    requires forall id <- Run(Start(value), steps).calls ::
               id < n && OnlyAdds(Run(Start(value), steps).calls[id].call)
    ensures var s := Run(Start(value), steps);
            && s.value == Wrap(value + SumOver(s.calls, SettledIds(s), n))
            && ((forall id <- s.calls :: s.calls[id].progress.Over?)
                ==> s.value == Wrap(value + SumOver(s.calls, s.calls.Keys, n)))
  {
    var s, effects := Run(Start(value), steps), Effects(Start(value), steps);
    hide *;
    assert [] + effects == effects;
    StartHolds(value);
    if forall id <- s.calls :: s.calls[id].progress.Over? { AllSettled(s); }
    RunKeeps(Start(value), value, [], steps);
    NoEffectsYet(value);
    EffectsOfCalls(Start(value), [], steps);
    EffectsFold(value, s, effects, n);
  }

  lemma AllSettled(s: State)
    requires forall id <- s.calls :: s.calls[id].progress.Over?
    ensures SettledIds(s) == s.calls.Keys
  {
  }

  lemma NoEffectsYet(value: Atomic32)
    ensures OfCalls([], Start(value).calls)
  {
  }

  lemma SettledIsActed(s: State, effects: seq<Effect>, id: nat)
    requires Known(s, effects)
    ensures id in SettledIds(s) <==> Acted(effects, id)
  {
    hide Fits, ActedBefore, InvokedBefore, ReturnedIn;
    if id in s.calls {
      assert Tracked(s, effects, id);
      SettledActed(s, effects, id);
    }
  }

  lemma SettledActed(s: State, effects: seq<Effect>, id: nat)
    requires id in s.calls && Tracked(s, effects, id)
    ensures id in SettledIds(s) <==> Acted(effects, id)
  {
  }

  lemma EffectsFold(value: Atomic32, s: State, effects: seq<Effect>, n: nat)
    requires Inv(s, value, effects) && OfCalls(effects, s.calls)
    requires forall id <- s.calls :: id < n && OnlyAdds(s.calls[id].call)
    ensures s.value == Wrap(value + SumOver(s.calls, SettledIds(s), n))
  {
    hide Wrap, SumOver, Acted, Known, Sum, ValueAfter, Legal, OnlyAdds, InvokedBefore, ActedBefore;
    SumOfEffects(value, effects);
    forall id ensures id in SettledIds(s) <==> Acted(effects, id) { SettledIsActed(s, effects, id); }
    SumOfIds(s.calls, effects, SettledIds(s), n);
  }

  // What this means for the retries

  /** Access i of another call takes effect and changes the word. */
  predicate AnotherActs(s: State, steps: seq<Step>, i: nat, id: nat)
    requires i < |steps|
  {
    && steps[i].Access? && steps[i].id != id
    && EffectOf(Run(s, steps[..i]), steps[i]) != []
    && Run(s, steps[..i + 1]).value != Run(s, steps[..i]).value
  }

  lemma {:induction false} ChangedByAnother(s: State, steps: seq<Step>, id: nat)
    requires forall i :: 0 <= i < |steps| ==> steps[i] != Access(id)
    requires Run(s, steps).value != s.value
    ensures exists i :: 0 <= i < |steps| && AnotherActs(s, steps, i, id)
    decreases |steps|
  {
    var s' := Take(s, steps[0]);
    assert steps[..0] == [] && steps[..1] == [steps[0]];
    if s'.value != s.value {
      assert Run(s, steps[..1]) == s' by { assert [steps[0]][1..] == []; }
      assert AnotherActs(s, steps, 0, id);
    } else {
      ChangedByAnother(s', steps[1..], id);
      var i :| 0 <= i < |steps| - 1 && AnotherActs(s', steps[1..], i, id);
      RunShift(s, steps, i);
      RunShift(s, steps, i + 1);
      assert AnotherActs(s, steps, i + 1, id);
    }
  }

  lemma RunShift(s: State, steps: seq<Step>, i: nat)
    requires i < |steps|
    ensures Run(s, steps[..i + 1]) == Run(Take(s, steps[0]), steps[1..][..i])
  {
    assert steps[..i + 1][1..] == steps[1..][..i];
  }

  lemma {:induction false} NotAccessed(s: State, steps: seq<Step>, id: nat)
    requires id in s.calls && forall i :: 0 <= i < |steps| ==> steps[i] != Access(id)
    ensures id in Run(s, steps).calls
    ensures var r, r' := s.calls[id], Run(s, steps).calls[id];
            r' == r || (r.progress.Done? && r' == r.(progress := Over(r.progress.result)))
    decreases |steps|
  {
    if steps != [] { NotAccessed(Take(s, steps[0]), steps[1..], id); }
  }

  lemma BackToBegun(r: Running, value: Atomic32, later: Atomic32)
    requires r.progress.Begun?
    ensures var a := AccessWord(r, value);
            && (!a.progress.Done? ==> a.value == value)
            && (a.progress.Done? ==> AccessWord(r.(progress := Over(a.progress.result)), later).progress.Over?)
            && (AccessWord(r.(progress := a.progress), later).progress.Begun? ==> !a.progress.Done? && later != value)
  {
  }

  /** A call goes back to its start only if some other call has taken effect, and changed the word,
      since this one looked at it: each retry is another's success. */
  lemma {:induction false} RetryOnlyAfterAnother(s: State, steps: seq<Step>, id: nat)
    requires id in s.calls && s.calls[id].progress.Begun?
    requires forall i :: 0 <= i < |steps| ==> steps[i] != Access(id)
    requires var s1 := Take(Run(Take(s, Access(id)), steps), Access(id));
             id in s1.calls && s1.calls[id].progress.Begun?
    ensures exists i :: 0 <= i < |steps| && AnotherActs(Take(s, Access(id)), steps, i, id)
  {
    var s' := Take(s, Access(id));
    hide AnotherActs, Run, AccessWord;
    NotAccessed(s', steps, id);
    BackToBegun(s.calls[id], s.value, Run(s', steps).value);
    ChangedByAnother(s', steps, id);
  }
}

/** BarrierClosure of base/barrier_closure.cc: every call of the closure decrements one counter, and
    the call whose decrement gives zero runs the done closure. */
module BarrierClosures {
  import opened Atomics

  predicate OnlyDecrements(steps: seq<Step>) {
    forall i :: 0 <= i < |steps| && steps[i].Invoke? ==> steps[i].call == Increment(-1)
  }

  /** How often the done closure has run: in BarrierClosure itself when nothing is awaited, and in
      each call that saw zero. */
  function DoneRuns(n: nat, history: seq<Event>): nat {
    (if n == 0 then 1 else 0) + ZeroReturns(history)
  }

  function ZeroReturns(history: seq<Event>): nat {
    if history == [] then 0
    else ZeroReturns(history[..|history| - 1]) + (if SawZero(history[|history| - 1]) then 1 else 0)
  }

  predicate SawZero(e: Event) { e.Returned? && e.result == 0 }

  predicate Decrements(history: seq<Event>) {
    forall i :: 0 <= i < |history| && history[i].Invoked? ==> history[i].call == Increment(-1)
  }

  lemma {:induction false} OnlyDecrementsInvoked(s: State, steps: seq<Step>)
    requires OnlyDecrements(steps) && Decrements(s.history)
    ensures Decrements(Run(s, steps).history)
    decreases |steps|
  {
    if steps != [] {
      var s' := Take(s, steps[0]);
      assert steps[0].Invoke? ==> steps[0].call == Increment(-1);
      assert Decrements(s'.history);
      OnlyDecrementsInvoked(s', steps[1..]);
    }
  }

  lemma {:induction false} SumOfDecrements(effects: seq<Effect>)
    requires forall k :: 0 <= k < |effects| ==> effects[k].call == Increment(-1)
    ensures Sum(effects) == -|effects|
  {
    if effects != [] { SumOfDecrements(effects[..|effects| - 1]); }
  }

  /** The k-th decrement, counted from 0, sees n - (k + 1). */
  lemma CountDown(n: Atomic32, effects: seq<Effect>, k: nat)
    requires Legal(n, effects) && k < |effects|
    requires forall j :: 0 <= j < |effects| ==> effects[j].call == Increment(-1)
    ensures effects[k].result == Wrap(n - (k + 1))
  {
    SumOfDecrements(effects[..k]);
    SumOfEffects(n, effects[..k]);
    hide Wrap, ValueAfter, Sum;
    WrapAdds(n - k, -1);
    assert n - k + -1 == n - (k + 1);
  }

  lemma WrapIsZero(n: Atomic32, m: nat)
    requires n >= 0 && 0 < m < n + MODULUS
    ensures Wrap(n - m) == 0 <==> n == m
  {
  }

  /** The effects of a run in which every call is one of the barrier's. */
  lemma BarrierEffects(n: Atomic32, steps: seq<Step>)
    requires OnlyDecrements(steps)
    ensures var effects := Effects(Start(n), steps);
            forall k :: 0 <= k < |effects| ==> effects[k].call == Increment(-1)
  {
    var h, effects := Run(Start(n), steps).history, Effects(Start(n), steps);
    OnlyDecrementsInvoked(Start(n), steps);
    Linearizable(n, steps);
    forall k | 0 <= k < |effects| ensures effects[k].call == Increment(-1) {
      assert InvokedBefore(h, effects[k].id, effects[k].call, effects[k].at);
      var i :| 0 <= i < effects[k].at && i < |h| && h[i] == Invoked(effects[k].id, effects[k].call);
    }
  }

  /** Zero is seen by the call that takes effect n-th, and by no other. */
  lemma ZeroIsSeenOnce(n: Atomic32, steps: seq<Step>, i: nat)
    requires n >= 0 && OnlyDecrements(steps)
    requires |Effects(Start(n), steps)| < n + MODULUS
    requires i < |Run(Start(n), steps).history| && Run(Start(n), steps).history[i].Returned?
    ensures var effects := Effects(Start(n), steps); var e := Run(Start(n), steps).history[i];
            e.result == 0 <==> 0 < n <= |effects| && effects[n - 1].id == e.id
  {
    var h, effects := Run(Start(n), steps).history, Effects(Start(n), steps);
    hide Run, Effects, Wrap, ValueAfter, Legal, Act;
    Linearizable(n, steps);
    BarrierEffects(n, steps);
    assert ActedBefore(effects, h[i].id, h[i].result, i);
    var k :| 0 <= k < |effects| && effects[k].id == h[i].id && effects[k].result == h[i].result;
    CountDown(n, effects, k);
    WrapIsZero(n, k + 1);
    assert forall j :: 0 <= j < |effects| && effects[j].id == effects[k].id ==> j == k;
  }

  lemma {:induction false} NoZeros(h: seq<Event>)
    requires forall i :: 0 <= i < |h| ==> !SawZero(h[i])
    ensures ZeroReturns(h) == 0
  {
    if h != [] { NoZeros(h[..|h| - 1]); }
  }

  lemma {:induction false} OneZero(h: seq<Event>, i: nat)
    requires i < |h| && SawZero(h[i]) && forall j :: 0 <= j < |h| && j != i ==> !SawZero(h[j])
    ensures ZeroReturns(h) == 1
  {
    if i == |h| - 1 { NoZeros(h[..i]); } else { OneZero(h[..|h| - 1], i); }
  }

  /** With n awaited the done closure runs once the n-th call to take effect has returned, and then once;
      with none awaited, once and at once. */
  lemma DoneRunsOnce(n: Atomic32, steps: seq<Step>)
    requires n >= 0 && OnlyDecrements(steps)
    requires |Effects(Start(n), steps)| < n + MODULUS
    ensures var h, effects := Run(Start(n), steps).history, Effects(Start(n), steps);
            DoneRuns(n, h) == if n == 0 || (n <= |effects| && ReturnedIn(h, effects[n - 1].id)) then 1 else 0
  {
    var h, effects := Run(Start(n), steps).history, Effects(Start(n), steps);
    Linearizable(n, steps);
    forall i | 0 <= i < |h| && h[i].Returned?
      ensures SawZero(h[i]) <==> 0 < n <= |effects| && effects[n - 1].id == h[i].id
    {
      ZeroIsSeenOnce(n, steps, i);
    }
    if 0 < n <= |effects| && ReturnedIn(h, effects[n - 1].id) {
      var i :| 0 <= i < |h| && h[i].Returned? && h[i].id == effects[n - 1].id;
      OneZero(h, i);
    } else {
      NoZeros(h);
    }
  }

  lemma {:induction false} IdsOf(effects: seq<Effect>, ids: set<nat>)
    requires forall j, k :: 0 <= j < k < |effects| ==> effects[j].id != effects[k].id
    requires forall id :: id in ids <==> Acted(effects, id)
    ensures |ids| == |effects|
  {
    if effects == [] {
      assert ids == {};
    } else {
      var last, rest := effects[|effects| - 1].id, effects[..|effects| - 1];
      assert Acted(effects, last) && last in ids;
      ActedRest(effects);
      IdsOf(rest, ids - {last});
    }
  }

  /** Once all calls made have returned: fewer than n of them, and the done closure has not run;
      n of them, or up to 2^32 - 1 more, and it has run exactly once. */
  lemma {:induction false} AllCallsReturned(n: Atomic32, steps: seq<Step>)
    requires n > 0 && OnlyDecrements(steps)
    requires var s := Run(Start(n), steps);
             |s.calls| < n + MODULUS && forall id <- s.calls :: s.calls[id].progress.Over?
    ensures var s := Run(Start(n), steps); DoneRuns(n, s.history) == if |s.calls| >= n then 1 else 0
  {
    var s, effects := Run(Start(n), steps), Effects(Start(n), steps);
    StartHolds(n);
    assert [] + effects == effects;
    hide Run, Effects, DoneRuns, Start, Yields, Explains, ReturnedIn, OnlyDecrements;
    RunKeeps(Start(n), n, [], steps);
    forall id ensures id in s.calls.Keys <==> Acted(effects, id) {
      if id in s.calls { assert Tracked(s, effects, id); }
    }
    IdsOf(effects, s.calls.Keys);
    if |effects| >= n {
      var id := effects[n - 1].id;
      assert Acted(effects, id) && Tracked(s, effects, id);
    }
    DoneRunsOnce(n, steps);
  }
}
