/**
 * PathService (base/path_service.cc): a cache in front of overrides and a list of providers, which
 * may look up other keys themselves.  File system and provider answers are functions of their inputs.
 */
module PathServices {
  import opened Options

  type Path = string

  const DIR_CURRENT: int := 1

  /** What a provider does to the caller's path, and whether it says it found the key. */
  datatype Answer = Untouched | Sets(found: bool, path: Path)

  /** A provider answers a key at once, or after looking up another key. */
  datatype Rule = Now(answer: Answer) | After(key: int, derive: Option<Path> -> Answer)

  type Provider = int -> Rule

  /** The current directory and the file system as functions. */
  datatype System = System(
    currentDirectory: Option<Path>,
    referencesParent: Path -> bool,
    makeAbsolute: Path -> Path,
    existsOrIsCreated: Path -> bool)

  /** Lookups by providers do not go round in circles. */
  ghost predicate WellFounded(providers: seq<Provider>, rank: int -> nat) {
    forall i, key :: 0 <= i < |providers| && providers[i](key).After? ==> rank(providers[i](key).key) < rank(key)
  }

  // Resolution without a cache

  ghost function Resolve(sys: System, providers: seq<Provider>, rank: int -> nat, overrides: map<int, Path>, key: int)
      : Option<Path>
    requires WellFounded(providers, rank)
    decreases rank(key), |providers| + 1
  {
    if key == DIR_CURRENT then sys.currentDirectory
    else if key in overrides then Some(overrides[key])
    else Accept(sys, Ask(sys, providers, rank, overrides, key, 0, ""))
  }

  /** The path after asking the providers from the i-th on. */
  ghost function Ask(sys: System, providers: seq<Provider>, rank: int -> nat, overrides: map<int, Path>, key: int,
                     i: nat, path: Path): Path
    requires WellFounded(providers, rank) && i <= |providers|
    decreases rank(key), |providers| - i
  {
    if i == |providers| then path
    else
      var rule := providers[i](key);
      var answer := if rule.Now? then rule.answer
                    else rule.derive(Resolve(sys, providers, rank, overrides, rule.key));
      if answer.Untouched? then Ask(sys, providers, rank, overrides, key, i + 1, path)
      else if answer.found then answer.path
      else Ask(sys, providers, rank, overrides, key, i + 1, answer.path)
  }

  /** No empty path is returned, and none with a parent reference. */
  function Accept(sys: System, path: Path): Option<Path> {
    if path == "" then None
    else if sys.referencesParent(path) then
      var absolute := sys.makeAbsolute(path);
      if absolute == "" then None else Some(absolute)
    else Some(path)
  }

  /** MakeAbsoluteFilePath fails or gives a path without a parent reference, as realpath does. */
  ghost predicate MakesAbsolute(sys: System) {
    forall p: Path :: sys.makeAbsolute(p) == "" || !sys.referencesParent(sys.makeAbsolute(p))
  }

  /** A path that may be returned: the path service "never returns a path with '..' in it". */
  predicate Clean(sys: System, path: Path) {
    path != "" && !sys.referencesParent(path)
  }

  /** Every cache entry is what resolution gives. */
  ghost predicate Fresh(sys: System, providers: seq<Provider>, rank: int -> nat, overrides: map<int, Path>,
                        cache: map<int, Path>)
    requires WellFounded(providers, rank)
  {
    forall key <- cache :: key != DIR_CURRENT && Some(cache[key]) == Resolve(sys, providers, rank, overrides, key)
  }

  /** Lookups for these keys stay among them. */
  ghost predicate Closed(providers: seq<Provider>, keys: iset<int>) {
    forall i, key :: 0 <= i < |providers| && key in keys && providers[i](key).After? ==> providers[i](key).key in keys
  }

  ghost predicate KeepsOff(provider: Provider, keys: iset<int>) {
    forall key <- keys :: provider(key) == Now(Untouched)
  }

  /** A provider in front changes nothing for keys it keeps off, lookups included. */
  lemma {:induction false} RegisteredElsewhere(sys: System, providers: seq<Provider>, provider: Provider,
      rank: int -> nat,
                                               overrides: map<int, Path>, keys: iset<int>, key: int)
    requires WellFounded(providers, rank) && WellFounded([provider] + providers, rank)
    requires Closed(providers, keys) && KeepsOff(provider, keys) && key in keys
    ensures Resolve(sys, [provider] + providers, rank, overrides, key) == Resolve(sys, providers, rank, overrides, key)
    decreases rank(key), |providers| + 1
  {
    if key != DIR_CURRENT && key !in overrides {
      AskedElsewhere(sys, providers, provider, rank, overrides, keys, key, 0, "");
    }
  }

  lemma {:induction false} AskedElsewhere(sys: System, providers: seq<Provider>, provider: Provider, rank: int -> nat,
                                          overrides: map<int, Path>, keys: iset<int>, key: int, i: nat, path: Path)
    requires WellFounded(providers, rank) && WellFounded([provider] + providers, rank)
    requires Closed(providers, keys) && KeepsOff(provider, keys) && key in keys && i <= |providers|
    ensures Ask(sys, [provider] + providers, rank, overrides, key, i + 1, path)
         == Ask(sys, providers, rank, overrides, key, i, path)
    decreases rank(key), |providers| - i
  {
    if i < |providers| {
      var rule := providers[i](key);
      assert ([provider] + providers)[i + 1] == providers[i];
      if rule.After? {
        RegisteredElsewhere(sys, providers, provider, rank, overrides, keys, rule.key);
      }
      var answer := if rule.Now? then rule.answer
                    else rule.derive(Resolve(sys, providers, rank, overrides, rule.key));
      if answer.Untouched? {
        AskedElsewhere(sys, providers, provider, rank, overrides, keys, key, i + 1, path);
      } else if !answer.found {
        AskedElsewhere(sys, providers, provider, rank, overrides, keys, key, i + 1, answer.path);
      }
    }
  }

  /** Keeping off the cached keys alone is not enough: a cached key may have come from a lookup that failed. */
  lemma RegisteredTooLate(sys: System, key: int, other: int)
    requires key > DIR_CURRENT && other > DIR_CURRENT && key != other
    requires !sys.referencesParent("/a") && !sys.referencesParent("/b")
    ensures exists providers: seq<Provider>, provider: Provider, rank: int -> nat ::
      && WellFounded(providers, rank) && WellFounded([provider] + providers, rank)
      && provider(key) == Now(Untouched)
      && Fresh(sys, providers, rank, map[], map[key := "/a"])
      && !Fresh(sys, [provider] + providers, rank, map[], map[key := "/a"])
  {
    var base: Provider := k => if k == key then After(other, DefaultOr) else Now(Untouched);
    var late: Provider := k => if k == other then Now(Sets(true, "/b")) else Now(Untouched);
    var rank: int -> nat := k => if k == key then 1 else 0;
    var cache := map[key := "/a"];
    assert WellFounded([base], rank) && WellFounded([late] + [base], rank);
    assert Ask(sys, [base], rank, map[], other, 0, "") == Ask(sys, [base], rank, map[], other, 1, "") == "";
    assert Resolve(sys, [base], rank, map[], other) == None;
    assert Ask(sys, [base], rank, map[], key, 0, "") == "/a";
    var both := [late] + [base];
    assert Ask(sys, both, rank, map[], key, 0, "") == Ask(sys, both, rank, map[], key, 1, "");
    assert both[1] == base && both[0] == late;
    assert Resolve(sys, both, rank, map[], key) != Some("/a") by {
      var found := Resolve(sys, both, rank, map[], other);
      assert Ask(sys, both, rank, map[], other, 0, "") == "/b";
    }
    assert key in cache;
    assert Fresh(sys, [base], rank, map[], cache) && !Fresh(sys, both, rank, map[], cache);
  }

  function DefaultOr(found: Option<Path>): Answer {
    Sets(true, if found.None? then "/a" else "/b")
  }

  class PathData {
    const sys: System
    ghost const rank: int -> nat
    var cache: map<int, Path>
    var overrides: map<int, Path>
    var providers: seq<Provider>
    var cacheDisabled: bool

    ghost predicate Valid()
      reads this
    {
      && WellFounded(providers, rank)
      && Fresh(sys, providers, rank, overrides, cache)
      && DIR_CURRENT !in overrides
      && (cacheDisabled ==> cache == map[])
    }

    ghost function Resolved(key: int): Option<Path>
      requires WellFounded(providers, rank)
      reads this
    {
      Resolve(sys, providers, rank, overrides, key)
    }

    constructor (sys: System, providers: seq<Provider>, ghost rank: int -> nat)
      requires WellFounded(providers, rank)
      ensures Valid() && cache == map[] && overrides == map[] && !cacheDisabled && this.providers == providers
    {
      this.sys, this.rank, this.providers := sys, rank, providers;
      cache, overrides, cacheDisabled := map[], map[], false;
    }

    method LockedGetFromCache(key: int) returns (result: Option<Path>)
      requires Valid() && key != DIR_CURRENT
      ensures result == if key in cache then Some(cache[key]) else None
      ensures result.Some? ==> result == Resolved(key)
    {
      if cacheDisabled {
        return None;
      }
      result := if key in cache then Some(cache[key]) else None;
    }

    method LockedGetFromOverrides(key: int) returns (result: Option<Path>)
      requires Valid() && key != DIR_CURRENT
      modifies `cache
      ensures Valid()
      ensures result == if key in overrides then Some(overrides[key]) else None
      ensures cache == if result.Some? && !cacheDisabled then old(cache)[key := result.value] else old(cache)
    {
      if key in overrides {
        if !cacheDisabled {
          cache := cache[key := overrides[key]];
        }
        return Some(overrides[key]);
      }
      return None;
    }

    /** A lookup returns what resolution without the cache returns. */
    method Get(key: int) returns (result: Option<Path>)
      requires Valid()
      modifies `cache
      ensures Valid() && result == Resolved(key)
      ensures forall k <- old(cache) :: k in cache && cache[k] == old(cache)[k]
      ensures key != DIR_CURRENT && !cacheDisabled && result.Some? ==> key in cache
      ensures key == DIR_CURRENT ==> result == sys.currentDirectory
      ensures key in overrides ==> result == Some(overrides[key])
      ensures MakesAbsolute(sys) && key != DIR_CURRENT && key !in overrides && result.Some?
              ==> result.value != "" && !sys.referencesParent(result.value)
      decreases rank(key)
    {
      if key == DIR_CURRENT {
        return sys.currentDirectory;
      }
      result := LockedGetFromCache(key);
      if result.Some? {
        return;
      }
      result := LockedGetFromOverrides(key);
      if result.Some? {
        return;
      }
      var path := "";
      var i := 0;
      while i < |providers|
        invariant i <= |providers| && Valid()
        invariant forall k <- old(cache) :: k in cache && cache[k] == old(cache)[k]
        invariant Ask(sys, providers, rank, overrides, key, i, path) == Ask(sys, providers, rank, overrides, key, 0, "")
        decreases |providers| - i
      {
        var rule := providers[i](key);
        var answer;
        if rule.Now? {
          answer := rule.answer;
        } else {
          var found := Get(rule.key);
          answer := rule.derive(found);
        }
        if answer.Sets? {
          path := answer.path;
          if answer.found {
            break;
          }
        }
        i := i + 1;
      }
      if path == "" {
        return None;
      }
      if sys.referencesParent(path) {
        path := sys.makeAbsolute(path);
        if path == "" {
          return None;
        }
      }
      result := Some(path);
      if !cacheDisabled {
        cache := cache[key := path];
      }
    }

    method OverrideAndCreateIfNeeded(key: int, path: Path, isAbsolute: bool, create: bool) returns (ok: bool)
      requires Valid() && key > DIR_CURRENT
      modifies `cache, `overrides
      ensures Valid()
      ensures var file := if isAbsolute then path else sys.makeAbsolute(path);
        && ok == ((create ==> sys.existsOrIsCreated(path)) && (isAbsolute || file != ""))
        && overrides == (if ok then old(overrides)[key := file] else old(overrides))
        && cache == (if ok then map[] else old(cache))
        && (ok ==> Resolved(key) == Some(file))
    {
      var file := path;
      if create {
        if !sys.existsOrIsCreated(file) {
          return false;
        }
      }
      if !isAbsolute {
        file := sys.makeAbsolute(file);
        if file == "" {
          return false;
        }
      }
      cache := map[];
      overrides := overrides[key := file];
      return true;
    }

    method RemoveOverride(key: int) returns (ok: bool)
      requires Valid()
      modifies `cache, `overrides
      ensures Valid()
      ensures ok <==> key in old(overrides)
      ensures overrides == old(overrides) - {key} && cache == if ok then map[] else old(cache)
    {
      if key !in overrides {
        return false;
      }
      cache := map[];
      overrides := overrides - {key};
      return true;
    }

    /** In front of the others.  What is cached stays right if the provider keeps off the cached keys and
        all keys their lookups lead to. */
    method RegisterProvider(provider: Provider, ghost kept: iset<int>)
      requires Valid() && WellFounded([provider] + providers, rank)
      modifies `providers
      ensures providers == [provider] + old(providers) && WellFounded(providers, rank)
      ensures old(Closed(providers, kept)) && KeepsOff(provider, kept) && (forall key <- cache :: key in kept)
              ==> Valid()
    {
      ghost var before := providers;
      providers := [provider] + providers;
      if Closed(before, kept) && KeepsOff(provider, kept) && forall key <- cache :: key in kept {
        forall key <- cache
          ensures Resolve(sys, before, rank, overrides, key) == Resolve(sys, providers, rank, overrides, key)
        {
          RegisteredElsewhere(sys, before, provider, rank, overrides, kept, key);
        }
      }
    }

    method DisableCache()
      requires Valid()
      modifies `cache, `cacheDisabled
      ensures Valid() && cacheDisabled && cache == map[]
    {
      cache := map[];
      cacheDisabled := true;
    }
  }

  // Several threads: Get asks the providers without the lock

  /** A Get between its two locked parts: how many providers have been asked, and the path they left. */
  datatype Lookup = Lookup(key: int, asked: nat, path: Path)

  /** Each thread has its lookups under way, those that providers make inside others last. */
  datatype Shared = Shared(
    cache: map<int, Path>, overrides: map<int, Path>, cacheDisabled: bool, threads: map<nat, seq<Lookup>>,
    returned: seq<Return>)

  /** What a Get returned, and what resolution gave at that moment. */
  datatype Return = Return(key: int, found: Option<Path>, resolved: Option<Path>)

  /** Go: the innermost lookup of the thread asks its next provider, or ends. */
  datatype Step =
    | Begin(thread: nat, key: int)
    | Go(thread: nat)
    | Override(key: int, path: Path)
    | RemoveOverride(key: int)
    | DisableCache

  datatype World = World(sys: System, providers: seq<Provider>, rank: int -> nat)

  function Calls(s: Shared, t: nat): seq<Lookup> {
    if t in s.threads then s.threads[t] else []
  }

  ghost function Resolution(w: World, overrides: map<int, Path>, key: int): Option<Path>
    requires WellFounded(w.providers, w.rank)
  {
    Resolve(w.sys, w.providers, w.rank, overrides, key)
  }

  /** What a lookup will return if its remaining providers are asked under these overrides. */
  ghost function Outcome(w: World, overrides: map<int, Path>, f: Lookup): Option<Path>
    requires WellFounded(w.providers, w.rank) && f.asked <= |w.providers|
  {
    Accept(w.sys, Ask(w.sys, w.providers, w.rank, overrides, f.key, f.asked, f.path))
  }

  /** The lookup after its next provider, told `found` if it looks up another key, has answered. */
  function Told(w: World, f: Lookup, found: Option<Path>): Lookup
    requires f.asked < |w.providers|
  {
    var rule := w.providers[f.asked](f.key);
    var answer := if rule.Now? then rule.answer else rule.derive(found);
    if answer.Untouched? then f.(asked := f.asked + 1)
    else f.(asked := if answer.found then |w.providers| else f.asked + 1, path := answer.path)
  }

  /** The calls of a thread when a lookup made by the innermost of them returns. */
  function Resumed(w: World, calls: seq<Lookup>, found: Option<Path>): seq<Lookup> {
    if calls == [] then []
    else
      var f := calls[|calls| - 1];
      if f.asked < |w.providers| then calls[..|calls| - 1] + [Told(w, f, found)] else calls
  }

  ghost function Returns(w: World, s: Shared, t: nat, calls: seq<Lookup>, key: int, found: Option<Path>): Shared
    requires WellFounded(w.providers, w.rank)
  {
    s.(threads := s.threads[t := Resumed(w, calls, found)],
       returned := s.returned + [Return(key, found, Resolution(w, s.overrides, key))])
  }

  /** Get on thread t, made inside `calls`, up to the end of its first locked part. */
  ghost function Enter(w: World, s: Shared, t: nat, calls: seq<Lookup>, key: int): Shared
    requires WellFounded(w.providers, w.rank)
  {
    if key == DIR_CURRENT then Returns(w, s, t, calls, key, w.sys.currentDirectory)
    else if !s.cacheDisabled && key in s.cache then Returns(w, s, t, calls, key, Some(s.cache[key]))
    else if key in s.overrides then
      var path := s.overrides[key];
      Returns(w, s.(cache := if s.cacheDisabled then s.cache else s.cache[key := path]), t, calls, key, Some(path))
    else s.(threads := s.threads[t := calls + [Lookup(key, 0, "")]])
  }

  /** The second locked part of Get. */
  ghost function Leave(w: World, s: Shared, t: nat, calls: seq<Lookup>, f: Lookup): Shared
    requires WellFounded(w.providers, w.rank)
  {
    var found := Accept(w.sys, f.path);
    var cache := if found.Some? && !s.cacheDisabled then s.cache[f.key := found.value] else s.cache;
    Returns(w, s.(cache := cache), t, calls, f.key, found)
  }

  ghost function Continue(w: World, s: Shared, t: nat, calls: seq<Lookup>, f: Lookup): Shared
    requires WellFounded(w.providers, w.rank)
  {
    if f.asked >= |w.providers| then Leave(w, s, t, calls, f)
    else
      var rule := w.providers[f.asked](f.key);
      if rule.Now? then s.(threads := s.threads[t := calls + [Told(w, f, None)]])
      else Enter(w, s, t, calls + [f], rule.key)
  }

  ghost function Take(w: World, s: Shared, step: Step): Shared
    requires WellFounded(w.providers, w.rank)
  {
    match step
    case Begin(t, key) =>
      if Calls(s, t) != [] || key < DIR_CURRENT then s else Enter(w, s, t, [], key)
    case Go(t) =>
      var k := Calls(s, t);
      if k == [] then s else Continue(w, s, t, k[..|k| - 1], k[|k| - 1])
    case Override(key, path) =>
      if key <= DIR_CURRENT then s else s.(cache := map[], overrides := s.overrides[key := path])
    case RemoveOverride(key) =>
      if key in s.overrides then s.(cache := map[], overrides := s.overrides - {key}) else s
    case DisableCache => s.(cache := map[], cacheDisabled := true)
  }

  ghost function Run(w: World, s: Shared, steps: seq<Step>): Shared
    requires WellFounded(w.providers, w.rank)
    decreases |steps|
  {
    if steps == [] then s else Run(w, Take(w, s, steps[0]), steps[1..])
  }

  predicate ChangesOverrides(step: Step) {
    step.Override? || step.RemoveOverride?
  }

  predicate Settled(steps: seq<Step>) {
    forall i :: 0 <= i < |steps| ==> !ChangesOverrides(steps[i])
  }

  // What holds of a state

  /** The lookup's next provider looks up that key. */
  predicate Awaits(w: World, f: Lookup, key: int) {
    && f.asked < |w.providers|
    && w.providers[f.asked](f.key).After? && w.providers[f.asked](f.key).key == key
  }

  /** Each lookup but the innermost waits for the one after it. */
  predicate Nested(w: World, k: seq<Lookup>) {
    && (forall n :: 0 <= n < |k| ==> k[n].key != DIR_CURRENT && k[n].asked <= |w.providers|)
    && (forall n :: 0 <= n < |k| - 1 ==> Awaits(w, k[n], k[n + 1].key))
  }

  ghost predicate AllNested(w: World, s: Shared) {
    WellFounded(w.providers, w.rank) && forall t :: Nested(w, Calls(s, t))
  }

  /** What callers can see is right: every cache entry, and every path returned so far. */
  ghost predicate Sound(w: World, s: Shared) {
    && WellFounded(w.providers, w.rank)
    && DIR_CURRENT !in s.overrides
    && Fresh(w.sys, w.providers, w.rank, s.overrides, s.cache)
    && (forall i :: 0 <= i < |s.returned| ==> s.returned[i].found == s.returned[i].resolved)
  }

  ghost predicate Right(w: World, overrides: map<int, Path>, f: Lookup)
    requires WellFounded(w.providers, w.rank)
  {
    f.asked <= |w.providers| && Outcome(w, overrides, f) == Resolution(w, overrides, f.key)
  }

  ghost predicate CallsRight(w: World, overrides: map<int, Path>, k: seq<Lookup>)
    requires WellFounded(w.providers, w.rank)
  {
    forall n :: 0 <= n < |k| ==> Right(w, overrides, k[n])
  }

  /** Every lookup under way, nested ones too, will return what resolution now gives. */
  ghost predicate LookupsRight(w: World, s: Shared)
    requires WellFounded(w.providers, w.rank)
  {
    forall t :: CallsRight(w, s.overrides, Calls(s, t))
  }

  ghost predicate Inv(w: World, s: Shared) {
    Sound(w, s) && AllNested(w, s) && LookupsRight(w, s)
  }

  // One step, without a change of the overrides

  /** A provider that is told the truth leaves the outcome as it was. */
  lemma ToldKeeps(w: World, overrides: map<int, Path>, f: Lookup, found: Option<Path>)
    requires WellFounded(w.providers, w.rank) && f.asked < |w.providers|
    requires forall key :: Awaits(w, f, key) ==> found == Resolution(w, overrides, key)
    ensures var f' := Told(w, f, found);
            && f'.key == f.key && f.asked < f'.asked <= |w.providers|
            && Outcome(w, overrides, f') == Outcome(w, overrides, f)
  {
    var rule := w.providers[f.asked](f.key);
    if rule.After? {
      assert Awaits(w, f, rule.key);
    }
    hide Accept;
  }

  lemma LastOf(k: seq<Lookup>, f: Lookup)
    ensures (k + [f])[..|k|] == k && (k + [f])[|k|] == f
  {
  }

  /** The innermost lookup changed for one with the same key and outcome. */
  lemma CallsChange(w: World, overrides: map<int, Path>, k: seq<Lookup>, f: Lookup, f': Lookup)
    requires WellFounded(w.providers, w.rank) && Nested(w, k + [f]) && f'.key == f.key && f'.asked <= |w.providers|
    requires f.asked <= |w.providers| && Outcome(w, overrides, f') == Outcome(w, overrides, f)
    ensures Nested(w, k + [f']) && (CallsRight(w, overrides, k + [f']) <==> CallsRight(w, overrides, k + [f]))
  {
    hide Outcome, Resolution;
    assert forall n :: 0 <= n < |k| ==> (k + [f])[n] == k[n] == (k + [f'])[n];
    assert (k + [f])[|k|] == f && (k + [f'])[|k|] == f';
    if CallsRight(w, overrides, k + [f]) { assert Right(w, overrides, (k + [f])[|k|]); }
    if CallsRight(w, overrides, k + [f']) { assert Right(w, overrides, (k + [f'])[|k|]); }
    forall n | 0 <= n < |k| ensures Right(w, overrides, (k + [f])[n]) <==> Right(w, overrides, (k + [f'])[n]) {
    }
  }

  /** A lookup made inside `calls`, if in any, returns the truth. */
  lemma ResumedKeeps(w: World, overrides: map<int, Path>, calls: seq<Lookup>, key: int, found: Option<Path>)
    requires WellFounded(w.providers, w.rank) && Nested(w, calls) && found == Resolution(w, overrides, key)
    requires calls != [] ==> Awaits(w, calls[|calls| - 1], key)
    ensures Nested(w, Resumed(w, calls, found))
    ensures CallsRight(w, overrides, Resumed(w, calls, found)) <==> CallsRight(w, overrides, calls)
  {
    hide Outcome, Resolution, CallsRight, Nested, Told;
    if calls != [] {
      var k, f := calls[..|calls| - 1], calls[|calls| - 1];
      assert calls == k + [f];
      ToldKeeps(w, overrides, f, found);
      CallsChange(w, overrides, k, f, Told(w, f, found));
    } else {
      assert Resumed(w, calls, found) == calls;
    }
  }

  ghost predicate OthersOk(w: World, s: Shared, t: nat)
    requires WellFounded(w.providers, w.rank)
  {
    forall u :: u != t ==> Nested(w, Calls(s, u)) && CallsRight(w, s.overrides, Calls(s, u))
  }

  lemma ThreadMoves(w: World, s: Shared, t: nat, k: seq<Lookup>)
    requires Sound(w, s) && OthersOk(w, s, t) && Nested(w, k) && CallsRight(w, s.overrides, k)
    ensures Inv(w, s.(threads := s.threads[t := k]))
  {
    hide Fresh, Nested, CallsRight;
    var s' := s.(threads := s.threads[t := k]);
    forall u ensures Nested(w, Calls(s', u)) && CallsRight(w, s'.overrides, Calls(s', u)) {
      assert Calls(s', u) == if u == t then k else Calls(s, u);
    }
  }

  ghost predicate Waits(w: World, calls: seq<Lookup>, key: int) {
    Nested(w, calls) && (calls != [] ==> Awaits(w, calls[|calls| - 1], key))
  }

  lemma ReturnsKeeps(w: World, s: Shared, t: nat, calls: seq<Lookup>, key: int, found: Option<Path>)
    requires Sound(w, s) && OthersOk(w, s, t) && Waits(w, calls, key) && CallsRight(w, s.overrides, calls)
    requires found == Resolution(w, s.overrides, key)
    ensures Inv(w, Returns(w, s, t, calls, key, found))
  {
    ResumedKeeps(w, s.overrides, calls, key, found);
    var s1 := s.(returned := s.returned + [Return(key, found, found)]);
    hide Fresh, Nested, CallsRight, Resolution, Resumed;
    assert Sound(w, s1);
    assert OthersOk(w, s1, t) by { assert forall u :: Calls(s1, u) == Calls(s, u); }
    ThreadMoves(w, s1, t, Resumed(w, calls, found));
  }

  lemma Cached(w: World, s: Shared, key: int, path: Path, t: nat)
    requires Sound(w, s) && OthersOk(w, s, t) && key != DIR_CURRENT && Resolution(w, s.overrides, key) == Some(path)
    ensures Sound(w, s.(cache := s.cache[key := path])) && OthersOk(w, s.(cache := s.cache[key := path]), t)
  {
    hide Resolve, Nested, CallsRight;
    var s1 := s.(cache := s.cache[key := path]);
    assert forall u :: Calls(s1, u) == Calls(s, u);
  }

  lemma EnterKeeps(w: World, s: Shared, t: nat, calls: seq<Lookup>, key: int)
    requires Sound(w, s) && OthersOk(w, s, t) && Waits(w, calls, key) && CallsRight(w, s.overrides, calls)
    ensures Inv(w, Enter(w, s, t, calls, key))
  {
    if key == DIR_CURRENT {
      ReturnsKeeps(w, s, t, calls, key, w.sys.currentDirectory);
    } else if !s.cacheDisabled && key in s.cache {
      ReturnsKeeps(w, s, t, calls, key, Some(s.cache[key]));
    } else if key in s.overrides {
      var path := s.overrides[key];
      Cached(w, s, key, path, t);
      hide Fresh, Nested, CallsRight, Resumed, Returns;
      ReturnsKeeps(w, if s.cacheDisabled then s else s.(cache := s.cache[key := path]), t, calls, key, Some(path));
    } else {
      NewLookup(w, s.overrides, calls, key);
      ThreadMoves(w, s, t, calls + [Lookup(key, 0, "")]);
    }
  }

  lemma NewLookup(w: World, overrides: map<int, Path>, calls: seq<Lookup>, key: int)
    requires WellFounded(w.providers, w.rank) && Waits(w, calls, key) && CallsRight(w, overrides, calls)
    requires key != DIR_CURRENT && key !in overrides
    ensures Nested(w, calls + [Lookup(key, 0, "")]) && CallsRight(w, overrides, calls + [Lookup(key, 0, "")])
  {
    assert Right(w, overrides, Lookup(key, 0, ""));
    hide Outcome, Resolution;
  }

  lemma LeaveKeeps(w: World, s: Shared, t: nat, calls: seq<Lookup>, f: Lookup)
    requires Sound(w, s) && OthersOk(w, s, t) && Waits(w, calls, f.key) && CallsRight(w, s.overrides, calls)
    requires f.key != DIR_CURRENT && f.asked == |w.providers| && Right(w, s.overrides, f)
    ensures Inv(w, Leave(w, s, t, calls, f))
  {
    var found := Accept(w.sys, f.path);
    assert found == Resolution(w, s.overrides, f.key);
    hide Fresh, Nested, CallsRight, Resumed, Returns, Accept, Outcome, Resolution, Sound, OthersOk;
    if found.Some? && !s.cacheDisabled {
      Cached(w, s, f.key, found.value, t);
      ReturnsKeeps(w, s.(cache := s.cache[f.key := found.value]), t, calls, f.key, found);
    } else {
      ReturnsKeeps(w, s, t, calls, f.key, found);
    }
  }

  /** What the innermost lookup of a thread finds itself in. */
  lemma Innermost(w: World, overrides: map<int, Path>, k: seq<Lookup>, f: Lookup)
    requires WellFounded(w.providers, w.rank) && Nested(w, k + [f])
    ensures Waits(w, k, f.key) && f.key != DIR_CURRENT && f.asked <= |w.providers|
    ensures CallsRight(w, overrides, k + [f]) <==> CallsRight(w, overrides, k) && Right(w, overrides, f)
  {
    hide Outcome, Resolution, Right;
    assert forall n :: 0 <= n < |k| ==> (k + [f])[n] == k[n];
    assert (k + [f])[|k|] == f;
    if k != [] { assert Awaits(w, (k + [f])[|k| - 1], (k + [f])[|k|].key); }
    if CallsRight(w, overrides, k + [f]) {
      assert Right(w, overrides, (k + [f])[|k|]);
      forall n | 0 <= n < |k| ensures Right(w, overrides, k[n]) { assert Right(w, overrides, (k + [f])[n]); }
    }
  }

  lemma ContinueKeeps(w: World, s: Shared, t: nat, k: seq<Lookup>, f: Lookup)
    requires Inv(w, s) && Calls(s, t) == k + [f]
    ensures Inv(w, Continue(w, s, t, k, f))
  {
    assert OthersOk(w, s, t) && Nested(w, k + [f]) && CallsRight(w, s.overrides, k + [f]);
    Innermost(w, s.overrides, k, f);
    hide Sound, OthersOk, AllNested, LookupsRight, Calls, CallsRight, Nested, Told, Enter, Leave, Right, Outcome,
         Resolution;
    if f.asked == |w.providers| {
      LeaveKeeps(w, s, t, k, f);
    } else if w.providers[f.asked](f.key).Now? {
      ToldKeeps(w, s.overrides, f, None);
      CallsChange(w, s.overrides, k, f, Told(w, f, None));
      ThreadMoves(w, s, t, k + [Told(w, f, None)]);
    } else {
      assert (k + [f])[|k|] == f;
      EnterKeeps(w, s, t, k + [f], w.providers[f.asked](f.key).key);
    }
  }

  lemma SplitLast(k: seq<Lookup>)
    requires k != []
    ensures k == k[..|k| - 1] + [k[|k| - 1]]
  {
  }

  lemma StepKeeps(w: World, s: Shared, step: Step)
    requires Inv(w, s) && (ChangesOverrides(step) ==> LookupsRight(w, Take(w, s, step)))
    ensures Inv(w, Take(w, s, step))
  {
    match step
    case Begin(t, key) =>
      hide Fresh, Right, Enter;
      if Calls(s, t) == [] && key >= DIR_CURRENT { EnterKeeps(w, s, t, [], key); }
    case Go(t) =>
      var k := Calls(s, t);
      hide Inv, Continue;
      if k != [] {
        SplitLast(k);
        ContinueKeeps(w, s, t, k[..|k| - 1], k[|k| - 1]);
      }
    case DisableCache => SameCalls(w, s, Take(w, s, step));
    case Override(key, _) => if key > DIR_CURRENT { SameCalls(w, s, Take(w, s, step)); }
    case RemoveOverride(key) => if key in s.overrides { SameCalls(w, s, Take(w, s, step)); }
  }

  lemma SameCalls(w: World, s: Shared, s': Shared)
    requires Sound(w, s) && AllNested(w, s) && s'.threads == s.threads && s'.returned == s.returned && s'.cache == map[]
    requires DIR_CURRENT !in s'.overrides
    ensures Sound(w, s') && AllNested(w, s')
    ensures s'.overrides == s.overrides && LookupsRight(w, s) ==> LookupsRight(w, s')
  {
    hide Nested, CallsRight;
    assert forall t :: Calls(s', t) == Calls(s, t);
  }

  // Whole runs

  /** Each change of the overrides leaves the lookups under way right. */
  ghost predicate Careful(w: World, s: Shared, steps: seq<Step>)
    requires WellFounded(w.providers, w.rank)
    decreases |steps|
  {
    steps == [] ||
    (&& (ChangesOverrides(steps[0]) ==> LookupsRight(w, Take(w, s, steps[0])))
     && Careful(w, Take(w, s, steps[0]), steps[1..]))
  }

  /** While every change of the overrides is careful, every Get returns what resolution then gives. */
  lemma {:induction false} CarefulRunsKeep(w: World, s: Shared, steps: seq<Step>)
    requires Inv(w, s) && Careful(w, s, steps)
    ensures Inv(w, Run(w, s, steps))
    decreases |steps|
  {
    assert WellFounded(w.providers, w.rank);
    hide Inv, Take;
    if steps != [] {
      StepKeeps(w, s, steps[0]);
      CarefulRunsKeep(w, Take(w, s, steps[0]), steps[1..]);
    }
  }

  /** However the calls go on, callers see nothing wrong as long as no override changes again. */
  ghost predicate StaysSound(w: World, s: Shared)
    requires WellFounded(w.providers, w.rank)
  {
    forall more :: Settled(more) ==> Sound(w, Run(w, s, more))
  }

  lemma {:induction false} SettledIsCareful(w: World, s: Shared, more: seq<Step>)
    requires WellFounded(w.providers, w.rank) && Settled(more)
    ensures Careful(w, s, more)
    decreases |more|
  {
    hide Take, LookupsRight;
    if more != [] {
      SettledIsCareful(w, Take(w, s, more[0]), more[1..]);
    }
  }

  lemma NowSound(w: World, s: Shared)
    requires WellFounded(w.providers, w.rank) && StaysSound(w, s)
    ensures Sound(w, s)
  {
    hide Sound;
    assert Settled([]) && Run(w, s, []) == s;
  }

  lemma StillStays(w: World, s: Shared, step: Step)
    requires WellFounded(w.providers, w.rank) && StaysSound(w, s) && !ChangesOverrides(step)
    ensures StaysSound(w, Take(w, s, step))
  {
    hide Sound, Take;
    forall more | Settled(more) ensures Sound(w, Run(w, Take(w, s, step), more)) {
      var steps := [step] + more;
      assert Settled(steps) && steps[1..] == more;
      assert Sound(w, Run(w, s, steps));
    }
  }

  lemma ThreadNested(w: World, s: Shared, s': Shared, t: nat)
    requires AllNested(w, s) && Nested(w, Calls(s', t)) && forall u :: u != t ==> Calls(s', u) == Calls(s, u)
    ensures AllNested(w, s')
  {
    hide Nested;
    forall u ensures Nested(w, Calls(s', u)) { assert u == t || Calls(s', u) == Calls(s, u); }
  }

  lemma NestedTold(w: World, k: seq<Lookup>, f: Lookup, found: Option<Path>)
    requires Nested(w, k + [f]) && f.asked < |w.providers|
    ensures Nested(w, k + [Told(w, f, found)])
  {
    var f' := Told(w, f, found);
    assert f'.key == f.key && f'.asked <= |w.providers|;
    hide Told;
    assert forall n :: 0 <= n < |k| ==> (k + [f])[n] == k[n] == (k + [f'])[n];
    assert (k + [f])[|k|] == f && (k + [f'])[|k|] == f';
    forall n | 0 <= n < |k| ensures Awaits(w, (k + [f'])[n], (k + [f'])[n + 1].key) {
      assert Awaits(w, (k + [f])[n], (k + [f])[n + 1].key);
    }
  }

  lemma NestedResumed(w: World, calls: seq<Lookup>, found: Option<Path>)
    requires Nested(w, calls)
    ensures Nested(w, Resumed(w, calls, found))
  {
    hide Nested, Told;
    if calls != [] {
      SplitLast(calls);
      var f := calls[|calls| - 1];
      if f.asked < |w.providers| { NestedTold(w, calls[..|calls| - 1], f, found); }
    }
  }

  /** What Get returns at once was resolved just then. */
  lemma ReturnedNow(w: World, s: Shared, t: nat, calls: seq<Lookup>, key: int, found: Option<Path>)
    requires AllNested(w, s) && Nested(w, calls) && Sound(w, Returns(w, s, t, calls, key, found))
    ensures found == Resolution(w, s.overrides, key)
    ensures var s' := Returns(w, s, t, calls, key, found);
            s'.overrides == s.overrides && Calls(s', t) == Resumed(w, calls, found) && AllNested(w, s')
  {
    var s' := Returns(w, s, t, calls, key, found);
    var last := s'.returned[|s.returned|];
    assert last.found == last.resolved;
    hide Fresh, Nested, Resolution, Resumed;
    NestedResumed(w, calls, found);
    ThreadNested(w, s, s', t);
  }

  /** A Get that is sound either returns what resolution gives, or begins to ask. */
  lemma Entered(w: World, s: Shared, t: nat, calls: seq<Lookup>, key: int)
    requires AllNested(w, s) && Waits(w, calls, key) && Sound(w, Enter(w, s, t, calls, key))
    ensures var s' := Enter(w, s, t, calls, key);
            && s'.overrides == s.overrides && AllNested(w, s')
            && (|| Calls(s', t) == Resumed(w, calls, Resolution(w, s.overrides, key))
                || (Calls(s', t) == calls + [Lookup(key, 0, "")] && key != DIR_CURRENT))
  {
    hide Sound, Resumed, Resolution, Nested;
    if key == DIR_CURRENT {
      ReturnedNow(w, s, t, calls, key, w.sys.currentDirectory);
    } else if !s.cacheDisabled && key in s.cache {
      ReturnedNow(w, s, t, calls, key, Some(s.cache[key]));
    } else if key in s.overrides {
      var path := s.overrides[key];
      var s1 := s.(cache := if s.cacheDisabled then s.cache else s.cache[key := path]);
      assert AllNested(w, s1) by { assert forall u :: Calls(s1, u) == Calls(s, u); }
      ReturnedNow(w, s1, t, calls, key, Some(path));
    } else {
      NestedNew(w, calls, key);
      ThreadNested(w, s, Enter(w, s, t, calls, key), t);
    }
  }

  lemma NestedNew(w: World, calls: seq<Lookup>, key: int)
    requires Waits(w, calls, key) && key != DIR_CURRENT
    ensures Nested(w, calls + [Lookup(key, 0, "")])
  {
  }

  lemma LeftNow(w: World, s: Shared, t: nat, k: seq<Lookup>, f: Lookup)
    requires AllNested(w, s) && Nested(w, k) && f.asked == |w.providers| && Sound(w, Leave(w, s, t, k, f))
    ensures Outcome(w, s.overrides, f) == Resolution(w, s.overrides, f.key)
    ensures var s' := Leave(w, s, t, k, f);
            && s'.overrides == s.overrides && AllNested(w, s')
            && Calls(s', t) == Resumed(w, k, Resolution(w, s.overrides, f.key))
  {
    var found := Accept(w.sys, f.path);
    assert Outcome(w, s.overrides, f) == found;
    hide Sound, Resumed, Resolution, Nested, Outcome, Accept, Returns;
    var s1 := s.(cache := if found.Some? && !s.cacheDisabled then s.cache[f.key := found.value] else s.cache);
    assert AllNested(w, s1) by { assert forall u :: Calls(s1, u) == Calls(s, u); }
    ReturnedNow(w, s1, t, k, f.key, found);
  }

  /** If nothing wrong will be seen, the innermost lookup of a thread is right, and going on with the
      thread alone ends it. */
  lemma {:induction false} Completes(w: World, s: Shared, t: nat, k: seq<Lookup>, f: Lookup) returns (s': Shared)
    requires AllNested(w, s) && StaysSound(w, s) && Calls(s, t) == k + [f]
    ensures AllNested(w, s') && StaysSound(w, s') && s'.overrides == s.overrides
    ensures Right(w, s.overrides, f)
    ensures Calls(s', t) == Resumed(w, k, Resolution(w, s.overrides, f.key))
    decreases w.rank(f.key), |w.providers| - f.asked
  {
    assert Nested(w, k + [f]);
    Innermost(w, s.overrides, k, f);
    LastOf(k, f);
    hide Sound, StaysSound, AllNested, Resolution, Outcome, Resumed, Nested, Calls, Told, Enter, Leave, CallsRight;
    var o := s.overrides;
    s' := Take(w, s, Go(t));
    StillStays(w, s, Go(t));
    NowSound(w, s');
    if f.asked == |w.providers| {
      LeftNow(w, s, t, k, f);
    } else {
      var rule := w.providers[f.asked](f.key);
      var found := if rule.Now? then None else Resolution(w, o, rule.key);
      s' := ProviderAnswers(w, s, t, k, f);
      ToldKeeps(w, o, f, found);
      s' := Completes(w, s', t, k, Told(w, f, found));
    }
  }

  lemma {:induction false} ProviderAnswers(w: World, s: Shared, t: nat, k: seq<Lookup>, f: Lookup)
    returns (s': Shared)
    requires AllNested(w, s) && StaysSound(w, s) && Calls(s, t) == k + [f] && f.asked < |w.providers|
    ensures AllNested(w, s') && StaysSound(w, s') && s'.overrides == s.overrides
    ensures var rule := w.providers[f.asked](f.key);
            Calls(s', t) == k + [Told(w, f, if rule.Now? then None else Resolution(w, s.overrides, rule.key))]
    decreases w.rank(f.key), |w.providers| - f.asked, 0
  {
    assert Nested(w, k + [f]);
    LastOf(k, f);
    var rule := w.providers[f.asked](f.key);
    s' := Take(w, s, Go(t));
    assert s' == Continue(w, s, t, k, f);
    hide Sound, StaysSound, Resolution, Outcome, Nested, Told, Enter, CallsRight;
    StillStays(w, s, Go(t));
    NowSound(w, s');
    if rule.Now? {
      NestedTold(w, k, f, None);
      ThreadNested(w, s, s', t);
    } else {
      assert Waits(w, k + [f], rule.key);
      assert w.rank(rule.key) < w.rank(f.key);
      Entered(w, s, t, k + [f], rule.key);
      if Calls(s', t) == k + [f] + [Lookup(rule.key, 0, "")] {
        s' := Completes(w, s', t, k + [f], Lookup(rule.key, 0, ""));
      }
    }
  }

  lemma {:induction false} ThreadRight(w: World, s: Shared, t: nat)
    requires AllNested(w, s) && StaysSound(w, s)
    ensures CallsRight(w, s.overrides, Calls(s, t))
    decreases |Calls(s, t)|
  {
    var calls := Calls(s, t);
    if calls != [] {
      SplitLast(calls);
      var k, f := calls[..|calls| - 1], calls[|calls| - 1];
      assert Nested(w, calls);
      hide Sound, StaysSound, AllNested, Resolution, Outcome, Nested, Told, CallsRight, Right;
      var s' := Completes(w, s, t, k, f);
      Innermost(w, s.overrides, k, f);
      ThreadRight(w, s', t);
      ResumedKeeps(w, s.overrides, k, f.key, Resolution(w, s.overrides, f.key));
    }
  }

  /** From a moment when nothing wrong can be seen, nothing wrong will be, exactly if each lookup under
      way, those inside providers included, will return what resolution gives for its key. */
  lemma StaysSoundIff(w: World, s: Shared)
    requires Sound(w, s) && AllNested(w, s)
    ensures StaysSound(w, s) <==> LookupsRight(w, s)
  {
    assert WellFounded(w.providers, w.rank);
    hide Sound, AllNested, CallsRight, Run;
    if LookupsRight(w, s) {
      forall more | Settled(more) ensures Sound(w, Run(w, s, more)) {
        SettledIsCareful(w, s, more);
        CarefulRunsKeep(w, s, more);
      }
    }
    if StaysSound(w, s) {
      forall t ensures CallsRight(w, s.overrides, Calls(s, t)) { ThreadRight(w, s, t); }
    }
  }

  ghost predicate EachMomentSound(w: World, s: Shared, steps: seq<Step>)
    requires WellFounded(w.providers, w.rank)
  {
    forall i :: 0 <= i <= |steps| ==> StaysSound(w, Run(w, s, steps[..i]))
  }

  lemma MomentsAfter(w: World, s: Shared, steps: seq<Step>)
    requires WellFounded(w.providers, w.rank) && steps != []
    ensures EachMomentSound(w, s, steps)
       <==> StaysSound(w, s) && EachMomentSound(w, Take(w, s, steps[0]), steps[1..])
  {
    hide Take, StaysSound;
    var s', rest := Take(w, s, steps[0]), steps[1..];
    assert steps[..0] == [];
    forall i | 0 < i <= |steps| ensures Run(w, s, steps[..i]) == Run(w, s', rest[..i - 1]) {
      assert steps[..i][1..] == rest[..i - 1];
    }
    if StaysSound(w, s) && EachMomentSound(w, s', rest) {
      forall i | 0 <= i <= |steps| ensures StaysSound(w, Run(w, s, steps[..i])) {
        if i > 0 { assert StaysSound(w, Run(w, s', rest[..i - 1])); }
      }
    }
    if EachMomentSound(w, s, steps) {
      assert StaysSound(w, Run(w, s, steps[..0]));
      forall i | 0 <= i <= |rest| ensures StaysSound(w, Run(w, s', rest[..i])) {
        assert StaysSound(w, Run(w, s, steps[..i + 1]));
      }
    }
  }

  /** A change of the overrides empties the cache. */
  lemma ChangeIsSound(w: World, s: Shared, step: Step)
    requires Sound(w, s) && AllNested(w, s) && ChangesOverrides(step)
    ensures Sound(w, Take(w, s, step)) && AllNested(w, Take(w, s, step))
  {
    if Take(w, s, step) != s { SameCalls(w, s, Take(w, s, step)); }
  }

  /** So a run can be continued from each of its moments without anything wrong being seen, exactly if
      each change of the overrides in it leaves the lookups under way right. */
  lemma {:induction false} RunsAreSoundIff(w: World, s: Shared, steps: seq<Step>)
    requires Inv(w, s)
    ensures Careful(w, s, steps) <==> EachMomentSound(w, s, steps)
    decreases |steps|
  {
    assert WellFounded(w.providers, w.rank);
    StaysSoundIff(w, s);
    if steps == [] {
      assert Run(w, s, steps[..0]) == s;
    } else {
      var s' := Take(w, s, steps[0]);
      MomentsAfter(w, s, steps);
      if ChangesOverrides(steps[0]) { ChangeIsSound(w, s, steps[0]); }
      AfterStep(w, s, steps);
    }
  }

  lemma AfterStep(w: World, s: Shared, steps: seq<Step>)
    requires Inv(w, s) && steps != []
    requires ChangesOverrides(steps[0]) ==> Sound(w, Take(w, s, steps[0])) && AllNested(w, Take(w, s, steps[0]))
    ensures Careful(w, s, steps) <==> EachMomentSound(w, Take(w, s, steps[0]), steps[1..])
    decreases |steps|, 0
  {
    assert WellFounded(w.providers, w.rank);
    hide Take, Sound, LookupsRight, StaysSound, AllNested;
    var s' := Take(w, s, steps[0]);
    if !ChangesOverrides(steps[0]) || LookupsRight(w, s') {
      StepKeeps(w, s, steps[0]);
      RunsAreSoundIff(w, s', steps[1..]);
    } else {
      StaysSoundIff(w, s');
      assert steps[1..][..0] == [];
      assert !StaysSound(w, Run(w, s', steps[1..][..0]));
    }
  }

  // Which changes of the overrides are careful

  /** The override of a key plays no part in resolving the keys below it, or in asking for it. */
  lemma {:induction false} OwnOverride(w: World, overrides: map<int, Path>, more: map<int, Path>, key: int, k: int)
    requires WellFounded(w.providers, w.rank) && w.rank(k) < w.rank(key)
    requires overrides - {key} == more - {key}
    ensures Resolution(w, overrides, k) == Resolution(w, more, k)
    decreases w.rank(k), |w.providers| + 1
  {
    assert k in overrides - {key} <==> k in more - {key};
    if k in overrides { assert overrides[k] == (overrides - {key})[k] == (more - {key})[k] == more[k]; }
    else if k != DIR_CURRENT { OwnAsk(w, overrides, more, key, k, 0, ""); }
  }

  lemma {:induction false} OwnAsk(w: World, overrides: map<int, Path>, more: map<int, Path>, key: int, k: int,
                                  i: nat, path: Path)
    requires WellFounded(w.providers, w.rank) && w.rank(k) <= w.rank(key)
    requires overrides - {key} == more - {key} && i <= |w.providers|
    ensures Ask(w.sys, w.providers, w.rank, overrides, k, i, path) == Ask(w.sys, w.providers, w.rank, more, k, i, path)
    decreases w.rank(k), |w.providers| - i
  {
    if i < |w.providers| {
      var rule := w.providers[i](k);
      if rule.After? { OwnOverride(w, overrides, more, key, rule.key); }
      var answer := if rule.Now? then rule.answer else rule.derive(Resolution(w, overrides, rule.key));
      if answer.Untouched? {
        OwnAsk(w, overrides, more, key, k, i + 1, path);
      } else if !answer.found {
        OwnAsk(w, overrides, more, key, k, i + 1, answer.path);
      }
    }
  }

  /** The change, of key c, leaves a lookup right.  If the lookup is for c itself, or all its providers have
      answered, what it will return is settled, and c must go on resolving to it.  If its key was overridden
      meanwhile, what its remaining providers give must stay as it was.  Otherwise they must give what asking
      all providers again would, which is so if none has been asked. */
  ghost predicate Spares(w: World, o: map<int, Path>, o': map<int, Path>, c: int, f: Lookup)
    requires WellFounded(w.providers, w.rank) && f.asked <= |w.providers|
  {
    if f.key == c || f.asked == |w.providers| then Resolution(w, o', f.key) == Resolution(w, o, f.key)
    else if f.key in o then Outcome(w, o', f) == Outcome(w, o, f)
    else (f.asked == 0 && f.path == "") || Outcome(w, o', f) == Outcome(w, o', Lookup(f.key, 0, ""))
  }

  lemma SparesIff(w: World, o: map<int, Path>, o': map<int, Path>, c: int, f: Lookup)
    requires WellFounded(w.providers, w.rank) && Right(w, o, f) && f.key != DIR_CURRENT && o - {c} == o' - {c}
    ensures Right(w, o', f) <==> Spares(w, o, o', c, f)
  {
    if f.key == c {
      OwnAsk(w, o, o', c, c, f.asked, f.path);
    } else {
      assert f.key in o - {c} <==> f.key in o' - {c};
      if f.key in o { assert o[f.key] == (o - {c})[f.key] == (o' - {c})[f.key] == o'[f.key]; }
    }
  }

  /** A change of the overrides is careful, and so leads to nothing wrong, exactly if it spares every lookup
      under way, nested ones too. */
  lemma ChangeIsCarefulIff(w: World, s: Shared, step: Step)
    requires Inv(w, s) && ChangesOverrides(step)
    ensures StaysSound(w, Take(w, s, step))
       <==> forall t, n :: 0 <= n < |Calls(s, t)| ==>
              Calls(s, t)[n].asked <= |w.providers|
              && Spares(w, s.overrides, Take(w, s, step).overrides, step.key, Calls(s, t)[n])
  {
    var o, s' := s.overrides, Take(w, s, step);
    assert WellFounded(w.providers, w.rank);
    hide Outcome, Resolution, StaysSound, Spares, Sound, Right, Nested;
    ChangeIsSound(w, s, step);
    StaysSoundIff(w, s');
    assert s'.threads == s.threads && s'.overrides - {step.key} == o - {step.key};
    forall t, n | 0 <= n < |Calls(s, t)|
      ensures Calls(s, t)[n].asked <= |w.providers|
      ensures Right(w, s'.overrides, Calls(s, t)[n]) <==> Spares(w, o, s'.overrides, step.key, Calls(s, t)[n])
    {
      LookupIs(w, s, t, n);
      SparesIff(w, o, s'.overrides, step.key, Calls(s, t)[n]);
    }
    hide Take, AllNested, Inv;
    forall t ensures Calls(s', t) == Calls(s, t) {}
  }

  lemma LookupIs(w: World, s: Shared, t: nat, n: nat)
    requires Inv(w, s) && n < |Calls(s, t)|
    ensures var f := Calls(s, t)[n];
            f.asked <= |w.providers| && f.key != DIR_CURRENT && Right(w, s.overrides, f)
  {
    hide Outcome, Resolution, Sound, Right, Awaits;
    assert Nested(w, Calls(s, t)) && CallsRight(w, s.overrides, Calls(s, t));
  }

  function Start(): Shared { Shared(map[], map[], false, map[], []) }

  lemma StartHolds(w: World)
    requires WellFounded(w.providers, w.rank)
    ensures Inv(w, Start())
  {
  }

  /** If every change of the overrides is careful, every Get, nested ones too, returns what resolution gives
      at that moment. */
  lemma CarefulRunsReturnResolution(w: World, steps: seq<Step>)
    requires WellFounded(w.providers, w.rank) && Careful(w, Start(), steps)
    ensures var returned := Run(w, Start(), steps).returned;
            forall i :: 0 <= i < |returned| ==> returned[i].found == returned[i].resolved
  {
    StartHolds(w);
    CarefulRunsKeep(w, Start(), steps);
  }

  /** Overrides change only while no lookup is under way. */
  ghost predicate Quiet(w: World, s: Shared, steps: seq<Step>)
    requires WellFounded(w.providers, w.rank)
    decreases |steps|
  {
    steps == [] ||
    (&& (ChangesOverrides(steps[0]) ==> forall t :: Calls(s, t) == [])
     && Quiet(w, Take(w, s, steps[0]), steps[1..]))
  }

  lemma {:induction false} QuietIsCareful(w: World, s: Shared, steps: seq<Step>)
    requires WellFounded(w.providers, w.rank) && Quiet(w, s, steps)
    ensures Careful(w, s, steps)
    decreases |steps|
  {
    hide Right;
    if steps != [] {
      var s' := Take(w, s, steps[0]);
      if ChangesOverrides(steps[0]) { assert forall t :: Calls(s', t) == Calls(s, t); }
      QuietIsCareful(w, s', steps[1..]);
    }
  }

  /** With one lookup under way, at whatever point, an override of its key leads to nothing wrong only if
      the path is the one that was resolved. */
  lemma ShadowedIff(w: World, s: Shared, t: nat, f: Lookup, path: Path)
    requires Inv(w, s) && Calls(s, t) == [f] && f.key > DIR_CURRENT && forall u :: u != t ==> Calls(s, u) == []
    ensures StaysSound(w, Take(w, s, Override(f.key, path)))
       <==> Resolution(w, s.overrides, f.key) == Some(path)
  {
    var o' := s.overrides[f.key := path];
    assert Nested(w, Calls(s, t));
    hide Resolution, Outcome, Inv, StaysSound, Right;
    OverriddenIs(w, o', f.key);
    ChangeIsCarefulIff(w, s, Override(f.key, path));
    assert Take(w, s, Override(f.key, path)).overrides == o';
    assert Calls(s, t)[0] == f;
    assert Spares(w, s.overrides, o', f.key, f) <==> Resolution(w, s.overrides, f.key) == Some(path);
  }

  lemma OverriddenIs(w: World, overrides: map<int, Path>, key: int)
    requires WellFounded(w.providers, w.rank) && key != DIR_CURRENT && key in overrides
    ensures Resolution(w, overrides, key) == Some(overrides[key])
  {
  }

  /** One provider, which answers `file` at once and `dir` after looking up `file`. */
  function OneProvider(sys: System, dir: int, file: int, path: Path, derive: Option<Path> -> Answer): World {
    var provider := key =>
      if key == dir then After(file, derive) else if key == file then Now(Sets(true, path)) else Now(Untouched);
    World(sys, [provider], key => if key == dir then 1 else 0)
  }

  /** A lookup of `dir` is under way when `file` is overridden.  Whether or not that changes what `dir` resolves
      to, the lookup of `file` inside it puts the old path into the cache, and the next Get returns it. */
  lemma NestedOverrideLost(sys: System, dir: int, file: int, path: Path, derive: Option<Path> -> Answer, other: Path)
    requires dir > DIR_CURRENT && file > DIR_CURRENT && dir != file && path != "" && !sys.referencesParent(path)
    ensures var w := OneProvider(sys, dir, file, path, derive);
            && WellFounded(w.providers, w.rank)
            && var s := Run(w, Start(), [Begin(0, dir), Go(0), Go(0), Override(file, other), Go(0), Begin(1, file)]);
               && s.overrides == map[file := other] && s.cache == map[file := path]
               && |s.returned| == 2 && s.returned[1] == Return(file, Some(path), Some(other))
  {
    var w := OneProvider(sys, dir, file, path, derive);
    assert WellFounded(w.providers, w.rank);
    var r := [Begin(0, dir), Go(0), Go(0), Override(file, other), Go(0), Begin(1, file)];
    var s4 := OverriddenInside(w, dir, file, path, derive, other, r);
    FinishesLate(w, s4, dir, file, path, other, r);
    assert r[0..] == r && r[6..] == [];
  }

  lemma Runs(w: World, s: Shared, r: seq<Step>, i: nat)
    requires WellFounded(w.providers, w.rank) && i < |r|
    ensures Run(w, s, r[i..]) == Run(w, Take(w, s, r[i]), r[i + 1..])
  {
    hide Take;
    assert r[i..][1..] == r[i + 1..];
  }

  lemma OverriddenInside(w: World, dir: int, file: int, path: Path, derive: Option<Path> -> Answer, other: Path,
                         r: seq<Step>) returns (s: Shared)
    requires dir > DIR_CURRENT && file > DIR_CURRENT && dir != file && WellFounded(w.providers, w.rank)
    requires |w.providers| == 1
    requires w.providers[0](dir) == After(file, derive) && w.providers[0](file) == Now(Sets(true, path))
    requires |r| > 4 && r[0] == Begin(0, dir) && r[1] == r[2] == Go(0) && r[3] == Override(file, other)
    ensures Run(w, Start(), r[0..]) == Run(w, s, r[4..])
    ensures Calls(s, 0) == [Lookup(dir, 0, ""), Lookup(file, 1, path)] && Calls(s, 1) == []
    ensures s.overrides == map[file := other] && s.cache == map[] && !s.cacheDisabled && s.returned == []
  {
    hide Resolution, WellFounded, Run;
    var s1 := Take(w, Start(), r[0]);
    assert Calls(s1, 0) == [Lookup(dir, 0, "")];
    Runs(w, Start(), r, 0);
    var s2 := Take(w, s1, r[1]);
    LastOf([], Lookup(dir, 0, ""));
    assert Calls(s2, 0) == [Lookup(dir, 0, ""), Lookup(file, 0, "")];
    Runs(w, s1, r, 1);
    var s3 := Take(w, s2, r[2]);
    assert Calls(s2, 0)[..1] == [Lookup(dir, 0, "")];
    assert Calls(s3, 0) == [Lookup(dir, 0, ""), Lookup(file, 1, path)];
    Runs(w, s2, r, 2);
    s := Take(w, s3, r[3]);
    Runs(w, s3, r, 3);
  }

  lemma FinishesLate(w: World, s: Shared, dir: int, file: int, path: Path, other: Path, r: seq<Step>)
    requires file > DIR_CURRENT && path != "" && !w.sys.referencesParent(path)
    requires WellFounded(w.providers, w.rank) && |w.providers| == 1
    requires |r| == 6 && r[4] == Go(0) && r[5] == Begin(1, file)
    requires Calls(s, 0) == [Lookup(dir, 0, ""), Lookup(file, 1, path)] && Calls(s, 1) == []
    requires s.overrides == map[file := other] && s.cache == map[] && !s.cacheDisabled && s.returned == []
    ensures var s' := Run(w, s, r[4..]);
            && s'.overrides == map[file := other] && s'.cache == map[file := path]
            && |s'.returned| == 2 && s'.returned[1] == Return(file, Some(path), Some(other))
  {
    assert Resolution(w, s.overrides, file) == Some(other);
    hide Resolution, WellFounded, Told, Resumed;
    var s5 := Take(w, s, r[4]);
    assert map[][file := path] == map[file := path];
    assert s5.cache == map[file := path] && s5.returned == [Return(file, Some(path), Some(other))];
    Runs(w, s, r, 4);
    Runs(w, s5, r, 5);
    assert r[6..] == [];
  }
}
