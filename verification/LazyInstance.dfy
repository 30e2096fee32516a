/**
 * LazyInstance (base/lazy_instance.h, base/lazy_instance.cc): a word that is 0, or the marker of an
 * instance being created, or the instance.  Any number of threads run Pointer(), one access of the
 * word at a time; OnExit runs when no thread is inside.
 */
module LazyInstances {
  const CREATING: nat := 1

  type Thread = nat

  /** What a thread inside Pointer() does next. */
  datatype Phase =
    | Outside
    | Needs                     // the compare-and-swap of NeedsLazyInstance
    | Spinning                  // its loop
    | Creating                  // the construction
    | Built(instance: nat)      // the store of CompleteLazyInstance
    | Stored                    // its registration of the destructor
    | Fetching                  // the final read of the word

  datatype Event =
    | Started(thread: Thread)
    | Finished(thread: Thread, instance: nat)
    | Registered(thread: Thread)
    | Returned(thread: Thread, instance: nat)

  /** `epoch` is what has happened since the word was last reset, `past` the epochs before. */
  datatype State = State(word: nat, threads: map<Thread, Phase>, epoch: seq<Event>, past: seq<seq<Event>>)

  /** One access by a thread; `instance` is the address that Traits::New gives, should it run. */
  datatype Step = Next(thread: Thread, instance: nat) | OnExit

  function PhaseOf(s: State, t: Thread): Phase {
    if t in s.threads then s.threads[t] else Outside
  }

  function Goes(s: State, t: Thread, phase: Phase): State { s.(threads := s.threads[t := phase]) }

  function Logs(s: State, e: Event): State { s.(epoch := s.epoch + [e]) }

  /** The word is neither 0 nor the marker. */
  predicate Created(word: nat) { word / 2 != 0 }

  function Take(s: State, leaky: bool, step: Step): State {
    match step
    case Next(t, instance) =>
      (match PhaseOf(s, t)
       case Outside => Goes(s, t, if Created(s.word) then Fetching else Needs)
       case Needs =>
         if s.word == 0 then Logs(Goes(s.(word := CREATING), t, Creating), Started(t)) else Goes(s, t, Spinning)
       case Spinning => if s.word == CREATING then s else Goes(s, t, Fetching)
       case Creating => if Created(instance) then Logs(Goes(s, t, Built(instance)), Finished(t, instance)) else s
       case Built(p) => Goes(s.(word := p), t, Stored)
       case Stored => if leaky then Goes(s, t, Fetching) else Logs(Goes(s, t, Fetching), Registered(t))
       case Fetching => Logs(Goes(s, t, Outside), Returned(t, s.word)))
    case OnExit =>
      // the at-exit manager calls back what was registered
      if Quiet(s) && HasRegistered(s.epoch) then s.(word := 0, epoch := [], past := s.past + [s.epoch]) else s
  }

  predicate Quiet(s: State) {
    forall t <- s.threads :: s.threads[t].Outside?
  }

  predicate HasRegistered(epoch: seq<Event>) {
    exists i :: 0 <= i < |epoch| && epoch[i].Registered?
  }

  function Run(s: State, leaky: bool, steps: seq<Step>): State
    decreases |steps|
  {
    if steps == [] then s else Run(Take(s, leaky, steps[0]), leaky, steps[1..])
  }

  function Start(): State { State(0, map[], [], []) }

  /** Between two resets: one construction at most, every return after it has finished and with its
      instance, one registration of the destructor at most, and none when the instance is leaked. */
  ghost predicate Good(epoch: seq<Event>, leaky: bool) {
    && (forall i, j :: 0 <= i < j < |epoch| ==>
          && !(epoch[i].Started? && epoch[j].Started?)
          && !(epoch[i].Finished? && epoch[j].Finished?)
          && !(epoch[i].Registered? && epoch[j].Registered?))
    && (forall j :: 0 <= j < |epoch| && epoch[j].Finished? ==>
          exists i :: 0 <= i < j && epoch[i] == Started(epoch[j].thread))
    && (forall j :: 0 <= j < |epoch| && epoch[j].Returned? ==>
          exists i :: 0 <= i < j && epoch[i].Finished? && epoch[i].instance == epoch[j].instance)
    && (forall j :: 0 <= j < |epoch| && epoch[j].Registered? ==> !leaky && exists i :: 0 <= i < j && epoch[i].Finished?)
  }

  /** A construction that finished, with its destructor registered. */
  ghost predicate Complete(epoch: seq<Event>, leaky: bool) {
    && Good(epoch, leaky)
    && (exists i :: 0 <= i < |epoch| && epoch[i].Finished?)
    && HasRegistered(epoch)
  }

  // The invariant

  /** Nothing has happened. */
  ghost predicate Idle(s: State) {
    s.word == 0 && s.epoch == [] && forall t <- s.threads :: s.threads[t].Outside? || s.threads[t].Needs?
  }

  /** Thread c holds the word for creation. */
  ghost predicate Held(s: State, c: Thread) {
    && s.word == CREATING && c in s.threads
    && (|| (s.threads[c].Creating? && s.epoch == [Started(c)])
        || (s.threads[c].Built? && Created(s.threads[c].instance)
            && s.epoch == [Started(c), Finished(c, s.threads[c].instance)]))
    && forall t <- s.threads :: t != c ==> s.threads[t].Outside? || s.threads[t].Needs? || s.threads[t].Spinning?
  }

  ghost predicate AfterFinish(epoch: seq<Event>, word: nat) {
    forall i :: 2 <= i < |epoch| ==> epoch[i].Registered? || (epoch[i].Returned? && epoch[i].instance == word)
  }

  ghost predicate OneRegistered(epoch: seq<Event>) {
    forall i, j :: 0 <= i < j < |epoch| ==> !(epoch[i].Registered? && epoch[j].Registered?)
  }

  /** Thread c has published the instance. */
  ghost predicate Published(s: State, leaky: bool, c: Thread) {
    && Created(s.word) && |s.epoch| >= 2 && s.epoch[0] == Started(c) && s.epoch[1] == Finished(c, s.word)
    && AfterFinish(s.epoch, s.word) && OneRegistered(s.epoch)
    && (HasRegistered(s.epoch) <==> !leaky && !PhaseOf(s, c).Stored?)
    && forall t <- s.threads :: !s.threads[t].Creating? && !s.threads[t].Built? && (s.threads[t].Stored? ==> t == c)
  }

  ghost predicate Inv(s: State, leaky: bool) {
    && (Idle(s) || (exists c :: Held(s, c)) || (exists c :: Published(s, leaky, c)))
    && (forall i :: 0 <= i < |s.past| ==> Complete(s.past[i], leaky))
  }

  lemma GoodHolds(s: State, leaky: bool)
    requires Inv(s, leaky)
    ensures Good(s.epoch, leaky)
  {
    if !Idle(s) {
      if c :| Held(s, c) {
        assert |s.epoch| >= 2 ==> s.epoch[0] == Started(s.epoch[1].thread);
      } else {
        var c :| Published(s, leaky, c);
        assert s.epoch[0] == Started(s.epoch[1].thread) && s.epoch[1].Finished?;
      }
    }
  }

  lemma IdleStep(s: State, leaky: bool, step: Step)
    requires Inv(s, leaky) && Idle(s)
    ensures Inv(Take(s, leaky, step), leaky)
  {
    var s' := Take(s, leaky, step);
    if step.Next? && PhaseOf(s, step.thread).Needs? {
      assert s'.epoch == [Started(step.thread)];
      assert Held(s', step.thread);
    } else {
      assert Idle(s');
    }
  }

  lemma HeldStep(s: State, leaky: bool, c: Thread, step: Step)
    requires Inv(s, leaky) && Held(s, c)
    ensures Inv(Take(s, leaky, step), leaky)
  {
    var s' := Take(s, leaky, step);
    if step.Next? && step.thread == c && s.threads[c].Built? {
      assert Published(s', leaky, c);
    } else if step.Next? && step.thread == c && Created(step.instance) {
      assert s'.epoch == [Started(c), Finished(c, step.instance)];
      assert Held(s', c);
    } else {
      assert Held(s', c);
    }
  }

  lemma LogsKeeps(epoch: seq<Event>, word: nat, e: Event)
    requires |epoch| >= 2 && AfterFinish(epoch, word) && OneRegistered(epoch)
    requires e.Registered? || (e.Returned? && e.instance == word)
    requires e.Registered? ==> !HasRegistered(epoch)
    ensures AfterFinish(epoch + [e], word) && OneRegistered(epoch + [e])
    ensures HasRegistered(epoch + [e]) <==> HasRegistered(epoch) || e.Registered?
    ensures (epoch + [e])[0] == epoch[0] && (epoch + [e])[1] == epoch[1]
  {
    var more := epoch + [e];
    if HasRegistered(epoch) {
      var i :| 0 <= i < |epoch| && epoch[i].Registered?;
      assert more[i].Registered?;
    }
    if e.Registered? { assert more[|epoch|].Registered?; }
  }

  lemma PublishedStep(s: State, leaky: bool, c: Thread, step: Step)
    requires Inv(s, leaky) && Published(s, leaky, c)
    ensures Inv(Take(s, leaky, step), leaky)
  {
    var s' := Take(s, leaky, step);
    if step.OnExit? {
      if Quiet(s) && HasRegistered(s.epoch) {
        GoodHolds(s, leaky);
        assert s.epoch[1].Finished?;
        assert Complete(s.epoch, leaky);
        assert Idle(s');
      }
    } else {
      var t := step.thread;
      if PhaseOf(s, t).Stored? && !leaky {
        LogsKeeps(s.epoch, s.word, Registered(t));
      } else if PhaseOf(s, t).Fetching? {
        LogsKeeps(s.epoch, s.word, Returned(t, s.word));
      }
      hide AfterFinish, OneRegistered, HasRegistered;
      assert Published(s', leaky, c);
    }
  }

  lemma StepKeeps(s: State, leaky: bool, step: Step)
    requires Inv(s, leaky)
    ensures Inv(Take(s, leaky, step), leaky)
  {
    if Idle(s) {
      IdleStep(s, leaky, step);
    } else if c :| Held(s, c) {
      HeldStep(s, leaky, c, step);
    } else {
      var c :| Published(s, leaky, c);
      PublishedStep(s, leaky, c, step);
    }
  }

  lemma {:induction false} RunKeeps(s: State, leaky: bool, steps: seq<Step>)
    requires Inv(s, leaky)
    ensures Inv(Run(s, leaky, steps), leaky)
    decreases |steps|
  {
    if steps != [] {
      StepKeeps(s, leaky, steps[0]);
      RunKeeps(Take(s, leaky, steps[0]), leaky, steps[1..]);
    }
  }

  /** In every run each epoch has at most one construction and one registration, and returns only the
      finished instance; an epoch that was ended had exactly one of each. */
  lemma OncePerEpoch(leaky: bool, steps: seq<Step>)
    ensures var s := Run(Start(), leaky, steps);
            && Good(s.epoch, leaky)
            && (forall i :: 0 <= i < |s.past| ==> Complete(s.past[i], leaky))
            && (leaky ==> s.past == [])
  {
    assert Idle(Start());
    RunKeeps(Start(), leaky, steps);
    var s := Run(Start(), leaky, steps);
    GoodHolds(s, leaky);
    if s.past != [] { CompleteIsKept(s.past[0], leaky); }
  }

  lemma CompleteIsKept(epoch: seq<Event>, leaky: bool)
    requires Complete(epoch, leaky)
    ensures !leaky
  {
    var i :| 0 <= i < |epoch| && epoch[i].Registered?;
  }

  /** When no thread is inside, a construction that took place is registered, unless it is leaked. */
  lemma RegisteredWhenQuiet(leaky: bool, steps: seq<Step>)
    ensures var s := Run(Start(), leaky, steps);
            Quiet(s) ==> (HasRegistered(s.epoch) <==> !leaky && exists i :: 0 <= i < |s.epoch| && s.epoch[i].Started?)
  {
    assert Idle(Start());
    RunKeeps(Start(), leaky, steps);
    var s := Run(Start(), leaky, steps);
    forall c | Held(s, c) ensures !Quiet(s) {
      assert c in s.threads;
    }
    if Quiet(s) && !Idle(s) {
      var c :| Published(s, leaky, c);
      assert s.epoch[0].Started?;
    }
  }

  /** A spinner leaves its loop at its next step, unless the word is held for creation.  Then the
      creator's own next steps, and none less, release it, whatever the other threads do not do. */
  lemma SpinnerIsReleased(s: State, leaky: bool, t: Thread, instance: nat)
    requires Inv(s, leaky) && PhaseOf(s, t).Spinning? && Created(instance)
    ensures Releases(s, leaky, t, t, instance, 0) <==> s.word != CREATING
    ensures s.word == CREATING ==>
      exists c :: c != t && Held(s, c)
        && forall n :: 0 <= n <= Remaining(s, c) ==> (Releases(s, leaky, t, c, instance, n) <==> n == Remaining(s, c))
  {
    AtOnce(s, leaky, t, t, instance);
    if s.word == CREATING {
      var c := HeldBy(s, leaky);
      hide Inv;
      CreatorReleases(s, leaky, t, c, instance);
      hide Held, Releases;
    }
  }

  lemma HeldBy(s: State, leaky: bool) returns (c: Thread)
    requires Inv(s, leaky) && s.word == CREATING
    ensures Held(s, c)
  {
    c :| Held(s, c);
  }

  lemma AtOnce(s: State, leaky: bool, t: Thread, c: Thread, instance: nat)
    requires PhaseOf(s, t).Spinning?
    ensures Releases(s, leaky, t, c, instance, 0) <==> s.word != CREATING
  {
    assert Times(Next(c, instance), 0) == [];
  }

  lemma CreatorReleases(s: State, leaky: bool, t: Thread, c: Thread, instance: nat)
    requires PhaseOf(s, t).Spinning? && Created(instance) && Held(s, c)
    ensures c != t && !Releases(s, leaky, t, c, instance, 0)
    ensures Releases(s, leaky, t, c, instance, Remaining(s, c))
    ensures Remaining(s, c) == 2 ==> !Releases(s, leaky, t, c, instance, 1)
  {
    AtOnce(s, leaky, t, c, instance);
    RunTwice(s, leaky, Next(c, instance));
    hide Times, Run;
  }

  /** The steps left to the creator, up to the one that publishes the instance. */
  function Remaining(s: State, c: Thread): nat {
    if PhaseOf(s, c).Built? then 1 else 2
  }

  lemma RunTwice(s: State, leaky: bool, step: Step)
    ensures Run(s, leaky, Times(step, 1)) == Take(s, leaky, step)
    ensures Run(s, leaky, Times(step, 2)) == Take(Take(s, leaky, step), leaky, step)
  {
    var s' := Take(s, leaky, step);
    hide Take;
    assert Times(step, 0) == [];
    assert Times(step, 1) == [step] && [step][1..] == [];
    assert Times(step, 2) == [step, step] && [step, step][1..] == [step];
    assert Run(s, leaky, [step]) == s';
    assert Run(s, leaky, [step, step]) == Run(s', leaky, [step]);
    assert Run(s', leaky, [step]) == Run(Take(s', leaky, step), leaky, []);
  }

  /** After n steps of thread c the spinning thread t leaves its loop. */
  predicate Releases(s: State, leaky: bool, t: Thread, c: Thread, instance: nat, n: nat) {
    PhaseOf(Take(Run(s, leaky, Times(Next(c, instance), n)), leaky, Next(t, 0)), t).Fetching?
  }

  function Times(step: Step, n: nat): seq<Step> {
    if n == 0 then [] else [step] + Times(step, n - 1)
  }

  // Whole calls, by one thread at a time

  lemma {:induction false} RunTimes(s: State, leaky: bool, step: Step, n: nat)
    ensures n > 0 ==> Run(s, leaky, Times(step, n)) == Run(Take(s, leaky, step), leaky, Times(step, n - 1))
    ensures Run(s, leaky, Times(step, 0)) == s
  {
    if n > 0 {
      assert Times(step, n)[0] == step && Times(step, n)[1..] == Times(step, n - 1);
    }
  }

  /** Alone with an instance, a call returns it and changes nothing else. */
  lemma FoundAlone(s: State, leaky: bool, t: Thread, instance: nat)
    requires PhaseOf(s, t).Outside? && Created(s.word)
    ensures var s' := Run(s, leaky, Times(Next(t, instance), 2));
            && s'.word == s.word && s'.past == s.past && s'.epoch == s.epoch + [Returned(t, s.word)]
            && PhaseOf(s', t).Outside? && forall u :: u != t ==> PhaseOf(s', u) == PhaseOf(s, u)
  {
    var step := Next(t, instance);
    RunTimes(s, leaky, step, 2);
    RunTimes(Take(s, leaky, step), leaky, step, 1);
    hide Run, Times;
    RunTimes(Take(Take(s, leaky, step), leaky, step), leaky, step, 0);
  }

  /** What a call that creates the instance does, alone. */
  function Creation(t: Thread, instance: nat, leaky: bool): seq<Event> {
    [Started(t), Finished(t, instance)] + (if leaky then [] else [Registered(t)]) + [Returned(t, instance)]
  }

  /** Alone without an instance, a call creates one, registers its destructor and returns it. */
  lemma CreatedAlone(s: State, leaky: bool, t: Thread, instance: nat)
    requires PhaseOf(s, t).Outside? && s.word == 0 && Created(instance) && s.epoch == []
    ensures var s' := Run(s, leaky, Times(Next(t, instance), 6));
            && s'.word == instance && s'.past == s.past && s'.epoch == Creation(t, instance, leaky)
            && PhaseOf(s', t).Outside? && forall u :: u != t ==> PhaseOf(s', u) == PhaseOf(s, u)
  {
    var step := Next(t, instance);
    var creating := s.(word := CREATING, threads := s.threads[t := Creating], epoch := [Started(t)]);
    var stored := s.(word := instance, threads := s.threads[t := Stored],
                     epoch := [Started(t), Finished(t, instance)]);
    hide Run, Times;
    RunTimes(s, leaky, step, 6);
    RunTimes(Take(s, leaky, step), leaky, step, 5);
    Claims(s, leaky, t, instance, creating);
    RunTimes(creating, leaky, step, 4);
    RunTimes(Take(creating, leaky, step), leaky, step, 3);
    Builds(s, leaky, t, instance, creating, stored);
    RunTimes(stored, leaky, step, 2);
    RunTimes(Take(stored, leaky, step), leaky, step, 1);
    RunTimes(Take(Take(stored, leaky, step), leaky, step), leaky, step, 0);
    Returns(s, leaky, t, instance, stored);
  }

  lemma Claims(s: State, leaky: bool, t: Thread, instance: nat, creating: State)
    requires PhaseOf(s, t).Outside? && s.word == 0 && s.epoch == []
    requires creating == s.(word := CREATING, threads := s.threads[t := Creating], epoch := [Started(t)])
    ensures Take(Take(s, leaky, Next(t, instance)), leaky, Next(t, instance)) == creating
  {
    assert s.threads[t := Needs][t := Creating] == s.threads[t := Creating];
  }

  lemma Builds(s: State, leaky: bool, t: Thread, instance: nat, creating: State, stored: State)
    requires creating == s.(word := CREATING, threads := s.threads[t := Creating], epoch := [Started(t)])
    requires stored == s.(word := instance, threads := s.threads[t := Stored],
                          epoch := [Started(t), Finished(t, instance)])
    requires Created(instance)
    ensures Take(Take(creating, leaky, Next(t, instance)), leaky, Next(t, instance)) == stored
  {
    assert s.threads[t := Creating][t := Built(instance)][t := Stored] == s.threads[t := Stored];
    assert [Started(t)] + [Finished(t, instance)] == [Started(t), Finished(t, instance)];
  }

  lemma Returns(s: State, leaky: bool, t: Thread, instance: nat, stored: State)
    requires stored == s.(word := instance, threads := s.threads[t := Stored],
                          epoch := [Started(t), Finished(t, instance)])
    ensures var s' := Take(Take(stored, leaky, Next(t, instance)), leaky, Next(t, instance));
            && s'.word == instance && s'.past == s.past && s'.epoch == Creation(t, instance, leaky)
            && PhaseOf(s', t).Outside? && forall u :: u != t ==> PhaseOf(s', u) == PhaseOf(s, u)
  {
    var begun := [Started(t), Finished(t, instance)];
    assert leaky ==> begun + [Returned(t, instance)] == Creation(t, instance, true);
    assert begun + [Registered(t)] + [Returned(t, instance)] == Creation(t, instance, false);
  }

  /** At exit, with no thread inside, an instance that is not leaked is given up, and the next call
      creates another. */
  lemma ResetThenCreated(steps: seq<Step>, t: Thread, instance: nat)
    requires var s := Run(Start(), false, steps); Quiet(s) && s.word != 0
    requires Created(instance)
    ensures var s := Run(Start(), false, steps);
            var reset := Take(s, false, OnExit);
            var s' := Run(reset, false, Times(Next(t, instance), 6));
            && reset.word == 0 && reset.epoch == [] && reset.past == s.past + [s.epoch]
            && s'.word == instance && s'.past == s.past + [s.epoch] && s'.epoch == Creation(t, instance, false)
  {
    var s := Run(Start(), false, steps);
    assert Idle(Start());
    RunKeeps(Start(), false, steps);
    hide Run;
    PublishedWhenQuiet(s, false);
    CreatedAlone(Take(s, false, OnExit), false, t, instance);
  }

  lemma PublishedWhenQuiet(s: State, leaky: bool)
    requires Inv(s, leaky) && Quiet(s) && s.word != 0
    ensures Created(s.word) && (HasRegistered(s.epoch) <==> !leaky)
  {
    var c :| Published(s, leaky, c);
  }

  /** A leaked instance stays at exit. */
  lemma LeakedStays(steps: seq<Step>)
    ensures var s := Run(Start(), true, steps); Take(s, true, OnExit) == s
  {
    var s := Run(Start(), true, steps);
    assert Idle(Start());
    RunKeeps(Start(), true, steps);
    hide Run;
    GoodHolds(s, true);
    forall j | 0 <= j < |s.epoch| ensures !s.epoch[j].Registered? {
    }
  }
}
