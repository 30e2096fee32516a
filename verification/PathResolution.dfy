/** What PathService (base/path_service.cc) promises of the paths it finds: whose answer is taken, and
    that none has a parent reference. */
module PathResolutions {
  import opened Options
  import opened PathServices

  // One lookup

  /** What the i-th provider answers. */
  ghost function AnswerOf(sys: System, providers: seq<Provider>, rank: int -> nat, overrides: map<int, Path>, key: int,
                          i: nat): Answer
    requires WellFounded(providers, rank) && i < |providers|
  {
    match providers[i](key)
    case Now(answer) => answer
    case After(other, derive) => derive(Resolve(sys, providers, rank, overrides, other))
  }

  ghost predicate Passes(sys: System, providers: seq<Provider>, rank: int -> nat, overrides: map<int, Path>, key: int,
                         from: nat, to: nat)
    requires WellFounded(providers, rank) && from <= to <= |providers|
  {
    forall k: nat :: from <= k < to ==> AnswerOf(sys, providers, rank, overrides, key, k).Untouched?
  }

  lemma {:induction false} AskPasses(sys: System, providers: seq<Provider>, rank: int -> nat, overrides: map<int, Path>,
                                     key: int, from: nat, to: nat, path: Path)
    requires WellFounded(providers, rank) && from <= to <= |providers|
    requires Passes(sys, providers, rank, overrides, key, from, to)
    ensures Ask(sys, providers, rank, overrides, key, from, path) == Ask(sys, providers, rank, overrides, key, to, path)
    decreases |providers| - from
  {
    if from < to {
      assert AnswerOf(sys, providers, rank, overrides, key, from).Untouched?;
      AskPasses(sys, providers, rank, overrides, key, from + 1, to, path);
    }
  }

  /** The path of the first provider that finds the key is returned as it is, or made absolute if it
      refers to a parent; an empty one, or one that cannot be made absolute, is a failure. */
  lemma FirstFinderWins(sys: System, providers: seq<Provider>, rank: int -> nat, overrides: map<int, Path>, key: int,
                        i: nat, path: Path)
    requires WellFounded(providers, rank) && key != DIR_CURRENT && key !in overrides && i < |providers|
    requires Passes(sys, providers, rank, overrides, key, 0, i)
    requires AnswerOf(sys, providers, rank, overrides, key, i) == Sets(true, path)
    ensures Clean(sys, path) ==> Resolve(sys, providers, rank, overrides, key) == Some(path)
    ensures path == "" ==> Resolve(sys, providers, rank, overrides, key) == None
    ensures path != "" && sys.referencesParent(path) && sys.makeAbsolute(path) == ""
            ==> Resolve(sys, providers, rank, overrides, key) == None
    ensures path != "" && sys.referencesParent(path) && sys.makeAbsolute(path) != ""
            ==> Resolve(sys, providers, rank, overrides, key) == Some(sys.makeAbsolute(path))
  {
    AskPasses(sys, providers, rank, overrides, key, 0, i, "");
  }

  /** A provider that sets the path without finding the key leaves it for the next that does neither. */
  lemma LeftPathCounts(sys: System, providers: seq<Provider>, rank: int -> nat, overrides: map<int, Path>, key: int,
                       i: nat, path: Path)
    requires WellFounded(providers, rank) && key != DIR_CURRENT && key !in overrides && i < |providers|
    requires Passes(sys, providers, rank, overrides, key, 0, i)
    requires AnswerOf(sys, providers, rank, overrides, key, i) == Sets(false, path)
    requires Passes(sys, providers, rank, overrides, key, i + 1, |providers|)
    ensures Clean(sys, path) ==> Resolve(sys, providers, rank, overrides, key) == Some(path)
  {
    AskPasses(sys, providers, rank, overrides, key, 0, i, "");
    AskPasses(sys, providers, rank, overrides, key, i + 1, |providers|, path);
  }

  lemma NobodyFinds(sys: System, providers: seq<Provider>, rank: int -> nat, overrides: map<int, Path>, key: int)
    requires WellFounded(providers, rank) && key != DIR_CURRENT && key !in overrides
    requires Passes(sys, providers, rank, overrides, key, 0, |providers|)
    ensures Resolve(sys, providers, rank, overrides, key) == None
  {
    AskPasses(sys, providers, rank, overrides, key, 0, |providers|, "");
  }

  /** The current directory and the overrides come before any provider. */
  lemma OverrideWins(sys: System, providers: seq<Provider>, rank: int -> nat, overrides: map<int, Path>, key: int)
    requires WellFounded(providers, rank) && key in overrides && DIR_CURRENT !in overrides
    ensures Resolve(sys, providers, rank, overrides, key) == Some(overrides[key])
    ensures Resolve(sys, providers, rank, overrides, DIR_CURRENT) == sys.currentDirectory
  {
  }

  // Runs of several threads

  predicate NoCurrent(calls: seq<Lookup>) {
    forall n :: 0 <= n < |calls| ==> calls[n].key != DIR_CURRENT
  }

  ghost predicate CleanPaths(w: World, s: Shared) {
    && DIR_CURRENT !in s.cache && DIR_CURRENT !in s.overrides
    && (forall key <- s.cache :: Clean(w.sys, s.cache[key]))
    && (forall key <- s.overrides :: Clean(w.sys, s.overrides[key]))
    && (s.cacheDisabled ==> s.cache == map[])
  }

  ghost predicate CleanReturns(w: World, returned: seq<Return>) {
    forall i :: 0 <= i < |returned| && returned[i].key != DIR_CURRENT && returned[i].found.Some?
                ==> Clean(w.sys, returned[i].found.value)
  }

  /** Nothing kept or returned has a parent reference, the current directory aside, and a cache that has
      been switched off is empty. */
  ghost predicate AllClean(w: World, s: Shared) {
    CleanPaths(w, s) && CleanReturns(w, s.returned) && forall t :: NoCurrent(Calls(s, t))
  }

  /** Overrides are set to paths without a parent reference. */
  predicate CleanStep(w: World, step: Step) {
    step.Override? ==> Clean(w.sys, step.path)
  }

  lemma CallsOf(s: Shared, s': Shared, t: nat, k: seq<Lookup>)
    requires s'.threads == s.threads[t := k] && NoCurrent(k) && forall u :: NoCurrent(Calls(s, u))
    ensures forall u :: NoCurrent(Calls(s', u))
  {
    hide NoCurrent;
    forall u ensures NoCurrent(Calls(s', u)) {
      assert Calls(s', u) == if u == t then k else Calls(s, u);
    }
  }

  lemma CleanReturned(w: World, s: Shared, t: nat, calls: seq<Lookup>, key: int, found: Option<Path>)
    requires WellFounded(w.providers, w.rank) && AllClean(w, s) && NoCurrent(calls)
    requires key != DIR_CURRENT && found.Some? ==> Clean(w.sys, found.value)
    ensures AllClean(w, Returns(w, s, t, calls, key, found))
  {
    assert NoCurrent(Resumed(w, calls, found));
    hide NoCurrent, Resumed, Resolution, Clean, Calls;
    CallsOf(s, Returns(w, s, t, calls, key, found), t, Resumed(w, calls, found));
  }

  lemma CleanEnter(w: World, s: Shared, t: nat, calls: seq<Lookup>, key: int)
    requires WellFounded(w.providers, w.rank) && AllClean(w, s) && NoCurrent(calls)
    ensures AllClean(w, Enter(w, s, t, calls, key))
  {
    if key == DIR_CURRENT {
      CleanReturned(w, s, t, calls, key, w.sys.currentDirectory);
    } else if !s.cacheDisabled && key in s.cache {
      CleanReturned(w, s, t, calls, key, Some(s.cache[key]));
    } else if key in s.overrides {
      var path := s.overrides[key];
      var s1 := s.(cache := if s.cacheDisabled then s.cache else s.cache[key := path]);
      hide Returns, NoCurrent;
      assert AllClean(w, s1) by { assert forall u :: Calls(s1, u) == Calls(s, u); }
      CleanReturned(w, s1, t, calls, key, Some(path));
    } else {
      CallsOf(s, Enter(w, s, t, calls, key), t, calls + [Lookup(key, 0, "")]);
    }
  }

  lemma CleanLeave(w: World, s: Shared, t: nat, calls: seq<Lookup>, f: Lookup)
    requires WellFounded(w.providers, w.rank) && MakesAbsolute(w.sys) && AllClean(w, s)
    requires NoCurrent(calls) && f.key != DIR_CURRENT
    ensures AllClean(w, Leave(w, s, t, calls, f))
  {
    var found := Accept(w.sys, f.path);
    assert found.Some? ==> Clean(w.sys, found.value);
    var s1 := s.(cache := if found.Some? && !s.cacheDisabled then s.cache[f.key := found.value] else s.cache);
    hide Returns, NoCurrent, Accept, Clean;
    assert AllClean(w, s1) by { assert forall u :: Calls(s1, u) == Calls(s, u); }
    CleanReturned(w, s1, t, calls, f.key, found);
  }

  lemma CleanTake(w: World, s: Shared, step: Step)
    requires WellFounded(w.providers, w.rank) && MakesAbsolute(w.sys) && AllClean(w, s) && CleanStep(w, step)
    ensures AllClean(w, Take(w, s, step))
  {
    hide Enter, Leave, Clean;
    match step
    case Begin(t, key) => CleanEnter(w, s, t, [], key);
    case Go(t) =>
      if Calls(s, t) != [] {
        CleanGo(w, s, t, Calls(s, t));
      }
    case Override(_, _) => assert forall u :: Calls(Take(w, s, step), u) == Calls(s, u);
    case RemoveOverride(_) => assert forall u :: Calls(Take(w, s, step), u) == Calls(s, u);
    case DisableCache => assert forall u :: Calls(Take(w, s, step), u) == Calls(s, u);
  }

  lemma CleanGo(w: World, s: Shared, t: nat, k: seq<Lookup>)
    requires WellFounded(w.providers, w.rank) && MakesAbsolute(w.sys) && AllClean(w, s)
    requires k == Calls(s, t) != []
    ensures AllClean(w, Continue(w, s, t, k[..|k| - 1], k[|k| - 1]))
  {
    hide Enter, Leave, Clean;
    var f, rest := k[|k| - 1], k[..|k| - 1];
    assert NoCurrent(k) && NoCurrent(rest) && NoCurrent(rest + [f]);
    if f.asked >= |w.providers| {
      CleanLeave(w, s, t, rest, f);
    } else if w.providers[f.asked](f.key).After? {
      CleanEnter(w, s, t, rest + [f], w.providers[f.asked](f.key).key);
    } else {
      CallsOf(s, Continue(w, s, t, rest, f), t, rest + [Told(w, f, None)]);
    }
  }

  /** In every run, overrides changing at any moment, no Get returns a path with a parent reference. */
  lemma {:induction false} NeverAParentReference(w: World, s: Shared, steps: seq<Step>)
    requires WellFounded(w.providers, w.rank) && MakesAbsolute(w.sys) && AllClean(w, s)
    requires forall i :: 0 <= i < |steps| ==> CleanStep(w, steps[i])
    ensures AllClean(w, Run(w, s, steps))
    decreases |steps|
  {
    hide AllClean, Take, CleanStep;
    if steps != [] {
      CleanTake(w, s, steps[0]);
      NeverAParentReference(w, Take(w, s, steps[0]), steps[1..]);
    }
  }

  /** A path found while the cache is on is kept for the next Get of its key. */
  lemma FoundIsCached(w: World, s: Shared, t: nat, calls: seq<Lookup>, f: Lookup)
    requires WellFounded(w.providers, w.rank) && !s.cacheDisabled && f.key != DIR_CURRENT && Clean(w.sys, f.path)
    ensures var s' := Leave(w, s, t, calls, f);
            s'.returned != [] && s'.returned[|s'.returned| - 1].found == Some(f.path)
            && f.key in s'.cache && s'.cache[f.key] == f.path
            && (forall u, key :: Calls(s', u) == [] && key == f.key ==>
               var r := Take(w, s', Begin(u, key)).returned; r != [] && r[|r| - 1].found == Some(f.path))
  {
    hide Resolution, Resumed;
  }

  /** An override is returned by the next Get of its key, and removing it again undoes it, but for the cache. */
  lemma OverrideIsReturned(w: World, s: Shared, t: nat, key: int, path: Path)
    requires WellFounded(w.providers, w.rank) && key > DIR_CURRENT && Calls(s, t) == []
    ensures var r := Take(w, Take(w, s, Override(key, path)), Begin(t, key)).returned;
            r != [] && r[|r| - 1].key == key && r[|r| - 1].found == Some(path)
    ensures key !in s.overrides ==>
              Take(w, Take(w, s, Override(key, path)), RemoveOverride(key)) == s.(cache := map[])
  {
    hide Resolution, Resumed;
    assert key !in s.overrides ==> s.overrides[key := path] - {key} == s.overrides;
  }

  predicate Uncached(s: Shared) { s.cacheDisabled && s.cache == map[] }

  lemma StaysUncached(w: World, s: Shared, step: Step)
    requires WellFounded(w.providers, w.rank) && Uncached(s)
    ensures Uncached(Take(w, s, step))
  {
    hide Resolution, Resumed, Told, Accept;
  }

  /** Once switched off, the cache stays off and empty. */
  lemma DisabledForGood(w: World, s: Shared, steps: seq<Step>)
    requires WellFounded(w.providers, w.rank)
    ensures Uncached(Run(w, Take(w, s, DisableCache), steps))
  {
    RunUncached(w, Take(w, s, DisableCache), steps);
  }

  lemma {:induction false} RunUncached(w: World, s: Shared, steps: seq<Step>)
    requires WellFounded(w.providers, w.rank) && Uncached(s)
    ensures Uncached(Run(w, s, steps))
    decreases |steps|
  {
    hide Take, Uncached;
    if steps != [] {
      StaysUncached(w, s, steps[0]);
      RunUncached(w, Take(w, s, steps[0]), steps[1..]);
    }
  }
}
