/** Changing environment blocks (base/environment.cc), in the Windows and in the POSIX layout. */
module Environments {
  import opened Options
  import opened Sequences

  const NUL: char := '\0'

  /** Setting a variable, or removing it with an empty value.  A map in its key order. */
  datatype Change = Change(key: string, value: string)

  predicate Distinct(changes: seq<Change>) {
    forall i, j :: 0 <= i < j < |changes| ==> changes[i].key != changes[j].key
  }

  predicate Changes(changes: seq<Change>, key: string) {
    exists i :: 0 <= i < |changes| && changes[i].key == key
  }

  /** changes.find */
  function Find(changes: seq<Change>, key: string): (r: Option<string>)
    ensures r.Some? <==> Changes(changes, key)
    ensures r.Some? ==> Change(key, r.value) in changes
  {
    if changes == [] then None
    else if changes[0].key == key then Some(changes[0].value)
    else
      assert changes == [changes[0]] + changes[1..];
      Find(changes[1..], key)
  }

  function Key(line: string): string { line[..EqualsPosition(line)] }

  /** The lines of unchanged variables. */
  function Kept(lines: seq<string>, changes: seq<Change>): seq<string> {
    if lines == [] then []
    else (if Changes(changes, Key(lines[0])) then [] else [lines[0]]) + Kept(lines[1..], changes)
  }

  function Line(change: Change): string { change.key + "=" + change.value }

  /** The lines of variables that are set. */
  function Added(changes: seq<Change>): seq<string> {
    if changes == [] then []
    else Added(changes[..|changes| - 1]) + AddedLast(changes[|changes| - 1])
  }

  function AddedLast(change: Change): seq<string> {
    if change.value == "" then [] else [Line(change)]
  }

  function Altered(lines: seq<string>, changes: seq<Change>): seq<string> {
    Kept(lines, changes) + Added(changes)
  }

  // Looking a variable up

  /** The value in the first line for the key. */
  function Lookup(lines: seq<string>, key: string): Option<string> {
    if lines == [] then None
    else if EqualsPosition(lines[0]) < |lines[0]| && Key(lines[0]) == key then
      Some(lines[0][EqualsPosition(lines[0]) + 1..])
    else Lookup(lines[1..], key)
  }

  lemma {:induction false} LookupConcat(a: seq<string>, b: seq<string>, key: string)
    ensures Lookup(a + b, key) == if Lookup(a, key).Some? then Lookup(a, key) else Lookup(b, key)
  {
    hide EqualsPosition, Key;
    if a == [] {
      assert a + b == b;
    } else {
      assert (a + b)[1..] == a[1..] + b;
      LookupConcat(a[1..], b, key);
    }
  }

  lemma {:induction false} LookupKept(lines: seq<string>, changes: seq<Change>, key: string)
    ensures Lookup(Kept(lines, changes), key) == if Changes(changes, key) then None else Lookup(lines, key)
  {
    hide EqualsPosition, Key, Changes;
    if lines != [] {
      LookupKept(lines[1..], changes, key);
      if Changes(changes, Key(lines[0])) {
        assert [] + Kept(lines[1..], changes) == Kept(lines[1..], changes);
      } else {
        assert ([lines[0]] + Kept(lines[1..], changes))[1..] == Kept(lines[1..], changes);
      }
    }
  }

  lemma {:induction false} EqualsIs(key: string, rest: string)
    requires '=' !in key
    ensures EqualsPosition(key + "=" + rest) == |key|
  {
    if key != "" {
      assert (key + "=" + rest)[1..] == key[1..] + "=" + rest;
      EqualsIs(key[1..], rest);
    }
  }

  predicate Sound(changes: seq<Change>) {
    forall i :: 0 <= i < |changes| ==> '=' !in changes[i].key
  }

  lemma {:induction false} LookupAdded(changes: seq<Change>, key: string)
    requires Sound(changes) && Distinct(changes)
    ensures Lookup(Added(changes), key)
         == if Changes(changes, key) && Find(changes, key) != Some("") then Find(changes, key) else None
  {
    if changes != [] {
      var n := |changes| - 1;
      var last := changes[n];
      LookupAdded(changes[..n], key);
      LookupConcat(Added(changes[..n]), AddedLast(last), key);
      EqualsIs(last.key, last.value);
      assert Line(last)[..|last.key|] == last.key && Line(last)[|last.key| + 1..] == last.value;
      assert Lookup(AddedLast(last), key) == if last.key == key && last.value != "" then Some(last.value) else None;
      FindLast(changes, key);
    }
  }

  lemma {:induction false} FindLast(changes: seq<Change>, key: string)
    requires changes != [] && Distinct(changes)
    ensures var n := |changes| - 1;
            Find(changes, key) == if changes[n].key == key then Some(changes[n].value) else Find(changes[..n], key)
  {
    var n := |changes| - 1;
    if n > 0 {
      assert changes[1..][..n - 1] == changes[..n][1..];
      FindLast(changes[1..], key);
    }
  }

  /** What looking the key up should give. */
  function Expected(lines: seq<string>, changes: seq<Change>, key: string): Option<string> {
    match Find(changes, key)
    case None => Lookup(lines, key)
    case Some(v) => if v == "" then None else Some(v)
  }

  /** A changed key has its new value, or none when that is empty; any other has its old one. */
  lemma LookupAltered(lines: seq<string>, changes: seq<Change>, key: string)
    requires Sound(changes) && Distinct(changes)
    ensures Lookup(Altered(lines, changes), key) == Expected(lines, changes, key)
  {
    LookupConcat(Kept(lines, changes), Added(changes), key);
    LookupKept(lines, changes, key);
    LookupAdded(changes, key);
  }

  /** Altering twice looks like altering once with the changes merged, the later winning. */
  lemma AlteredTwice(lines: seq<string>, first: seq<Change>, second: seq<Change>, merged: seq<Change>, key: string)
    requires Sound(first) && Distinct(first) && Sound(second) && Distinct(second) && Sound(merged) && Distinct(merged)
    requires Find(merged, key) == if Find(second, key).Some? then Find(second, key) else Find(first, key)
    ensures Lookup(Altered(Altered(lines, first), second), key) == Lookup(Altered(lines, merged), key)
  {
    hide Lookup, Altered, Find;
    LookupAltered(Altered(lines, first), second, key);
    LookupAltered(lines, first, key);
    LookupAltered(lines, merged, key);
  }

  // Names with an equals sign in them set another variable

  /** The line added for the change is read as one for the key. */
  predicate Sets(change: Change, key: string) {
    change.value != "" && Key(Line(change)) == key
  }

  function FirstSet(changes: seq<Change>, key: string): (i: nat)
    ensures i <= |changes| && (i < |changes| ==> Sets(changes[i], key))
    ensures forall j :: 0 <= j < i ==> !Sets(changes[j], key)
  {
    if changes == [] then 0
    else
      var n := |changes| - 1;
      var i := FirstSet(changes[..n], key);
      assert forall j :: 0 <= j < n ==> changes[..n][j] == changes[j];
      if i < n || Sets(changes[n], key) then i else n + 1
  }

  lemma {:induction false} LookupAddedIs(changes: seq<Change>, key: string)
    ensures var i := FirstSet(changes, key);
            && (i == |changes| ==> Lookup(Added(changes), key) == None)
            && (i < |changes| ==> Lookup(Added(changes), key) == Lookup([Line(changes[i])], key) != None)
  {
    if changes != [] {
      var n := |changes| - 1;
      LookupAddedIs(changes[..n], key);
      LookupConcat(Added(changes[..n]), AddedLast(changes[n]), key);
      LookupOne(changes[n], key);
    }
  }

  lemma LookupOne(change: Change, key: string)
    ensures Lookup([Line(change)], key).Some? <==> Key(Line(change)) == key
    ensures '=' !in change.key ==> Key(Line(change)) == change.key
    ensures '=' !in change.key && change.key == key ==> Lookup([Line(change)], key) == Some(change.value)
  {
    assert Line(change)[|change.key|] == '=';
    if '=' !in change.key {
      EqualsIs(change.key, change.value);
      assert Line(change)[..|change.key|] == change.key && Line(change)[|change.key| + 1..] == change.value;
    }
  }

  predicate Compound(change: Change) {
    '=' in change.key && change.value != ""
  }

  /** As in a map ordered by its keys, where a key comes before its extensions. */
  predicate PrefixesFirst(changes: seq<Change>) {
    forall j, k ::
      (0 <= j < |changes| && 0 <= k < |changes| && Compound(changes[j]) && changes[k].key == Key(Line(changes[j])))
      ==> k < j
  }

  predicate Shadows(lines: seq<string>, changes: seq<Change>) {
    exists j :: 0 <= j < |changes| && Compound(changes[j]) && Expected(lines, changes, Key(Line(changes[j]))) == None
  }

  /** The key should be absent, and a name with an equals sign sets it. */
  predicate Shadowed(lines: seq<string>, changes: seq<Change>, key: string) {
    && Expected(lines, changes, key) == None
    && exists j :: 0 <= j < |changes| && Compound(changes[j]) && Key(Line(changes[j])) == key
  }

  /** Every lookup gives what it should exactly when no name with an equals sign sets a variable that
      should be absent. */
  lemma LookupAlteredIff(lines: seq<string>, changes: seq<Change>)
    requires Distinct(changes) && PrefixesFirst(changes)
    ensures (forall key: string :: '=' !in key ==>
               Lookup(Altered(lines, changes), key) == Expected(lines, changes, key))
       <==> !Shadows(lines, changes)
  {
    if Shadows(lines, changes) {
      var j :| 0 <= j < |changes| && Compound(changes[j]) && Expected(lines, changes, Key(Line(changes[j]))) == None;
      ShadowIsFound(lines, changes, j);
    } else {
      forall key: string | '=' !in key ensures Lookup(Altered(lines, changes), key) == Expected(lines, changes, key) {
        assert !Shadowed(lines, changes, key);
        ExpectedIsFound(lines, changes, key);
      }
    }
  }

  /** Setting A=B to C sets A to B=C. */
  lemma CompoundNameSets()
    ensures var changes := [Change("A=B", "C")];
            && Expected([], changes, "A") == None
            && Lookup(Altered([], changes), "A") == Some("B=C")
  {
    var changes := [Change("A=B", "C")];
    var line := "A=B=C";
    assert Line(changes[0]) == line && line[..1] == "A" && line[2..] == "B=C";
    assert line[1..][0] == '=';
    assert EqualsPosition(line) == 1;
    assert changes[..0] == [] && Added(changes) == [] + [line] == [line];
    assert Altered([], changes) == [] + [line] == [line];
  }

  lemma ShadowIsFound(lines: seq<string>, changes: seq<Change>, j: nat)
    requires j < |changes| && Compound(changes[j])
    ensures '=' !in Key(Line(changes[j]))
    ensures Lookup(Altered(lines, changes), Key(Line(changes[j]))) != None
  {
    var key := Key(Line(changes[j]));
    LookupConcat(Kept(lines, changes), Added(changes), key);
    LookupAddedIs(changes, key);
    assert Sets(changes[j], key);
  }

  lemma ExpectedIsFound(lines: seq<string>, changes: seq<Change>, key: string)
    requires Distinct(changes) && PrefixesFirst(changes) && !Shadowed(lines, changes, key) && '=' !in key
    ensures Lookup(Altered(lines, changes), key) == Expected(lines, changes, key)
  {
    LookupConcat(Kept(lines, changes), Added(changes), key);
    LookupKept(lines, changes, key);
    LookupAddedIs(changes, key);
    var i := FirstSet(changes, key);
    if i < |changes| {
      LookupOne(changes[i], key);
      assert Compound(changes[i]) || changes[i].key == key;
    }
    if Changes(changes, key) {
      var k := IndexOf(changes, key);
      LookupOne(changes[k], key);
      assert changes[k].value != "" ==> Sets(changes[k], key);
    }
  }

  lemma {:induction false} IndexOf(changes: seq<Change>, key: string) returns (k: nat)
    requires Distinct(changes) && Changes(changes, key)
    ensures k < |changes| && changes[k].key == key && Find(changes, key) == Some(changes[k].value)
    ensures forall j :: 0 <= j < |changes| && j != k ==> changes[j].key != key
  {
    k :| 0 <= k < |changes| && changes[k].key == key;
    var r := Find(changes, key);
    var m :| 0 <= m < |changes| && changes[m] == Change(key, r.value);
  }

  // Parsing

  predicate Terminated(input: string, at: nat) {
    exists j :: at <= j < |input| && input[j] == NUL
  }

  /** The first NUL from `at` on. */
  function LineEnd(input: string, at: nat): (e: nat)
    requires Terminated(input, at)
    ensures at <= e < |input| && input[e] == NUL && forall j :: at <= j < e ==> input[j] != NUL
    decreases |input| - at
  {
    if input[at] == NUL then at else LineEnd(input, at + 1)
  }

  /** The string a reader finds from `at` on. */
  function StringFrom(input: string, at: nat): string
    requires Terminated(input, at)
  {
    input[at..LineEnd(input, at)]
  }

  method ParseEnvLine(input: string, at: nat) returns (key: string, length: nat)
    requires Terminated(input, at)
    ensures key == Key(StringFrom(input, at)) && length == |StringFrom(input, at)| + 1
  {
    ghost var end := LineEnd(input, at);
    var cur := 0;
    while input[at + cur] != NUL && input[at + cur] != '='
      invariant at + cur <= end
      invariant forall j :: at <= j < at + cur ==> input[j] != '='
      decreases end - at - cur
    {
      cur := cur + 1;
    }
    key := input[at..at + cur];
    KeyIs(input[at..end], cur);
    assert input[at..end][..cur] == key;
    while input[at + cur] != NUL
      invariant at + cur <= end
      decreases end - at - cur
    {
      cur := cur + 1;
    }
    length := cur + 1;
  }

  lemma {:induction false} KeyIs(line: string, cur: nat)
    requires cur <= |line| && (cur < |line| ==> line[cur] == '=') && forall j :: 0 <= j < cur ==> line[j] != '='
    ensures EqualsPosition(line) == cur
  {
  }

  // Windows: lines ended by NUL, the block ended by an empty one

  ghost predicate Block(env: string, at: nat)
    decreases |env| - at
  {
    && at < |env| && (env[at] != NUL ==> Terminated(env, at) && Block(env, LineEnd(env, at) + 1))
  }

  ghost function Lines(env: string, at: nat): seq<string>
    requires Block(env, at)
    decreases |env| - at
  {
    if env[at] == NUL then [] else [env[at..LineEnd(env, at)]] + Lines(env, LineEnd(env, at) + 1)
  }

  function Joined(lines: seq<string>): string {
    if lines == [] then "" else lines[0] + [NUL] + Joined(lines[1..])
  }

  predicate Plain(line: string) { line != "" && NUL !in line }

  lemma {:induction false} JoinedConcat(a: seq<string>, b: seq<string>)
    ensures Joined(a + b) == Joined(a) + Joined(b)
  {
    if a == [] {
      assert a + b == b;
    } else {
      assert (a + b)[1..] == a[1..] + b;
      JoinedConcat(a[1..], b);
      Assoc(a[0] + [NUL], Joined(a[1..]), Joined(b));
    }
  }

  lemma JoinedOne(line: string)
    ensures Joined([line]) == line + [NUL]
  {
    assert [line][1..] == [] && Joined([]) == "";
    assert line + [NUL] + "" == line + [NUL];
  }

  /** What is printed as a block is parsed as its lines. */
  lemma {:induction false} JoinedParses(env: string, at: nat, lines: seq<string>)
    requires AllPlain(lines)
    requires at + |Joined(lines)| < |env| && env[at..at + |Joined(lines)|] == Joined(lines)
    requires env[at + |Joined(lines)|] == NUL
    ensures Block(env, at) && Lines(env, at) == lines
    decreases |lines|
  {
    JoinedHead(lines);
    hide Joined, Block, Lines, Plain;
    if lines == [] {
      NoLines(env, at);
    } else {
      var line, rest := lines[0], Joined(lines[1..]);
      var next := at + |line| + 1;
      Parts(env, at, line + [NUL], rest);
      Parts(env, at, line, [NUL]);
      assert env[next..next + |rest|] == rest && env[next + |rest|] == NUL;
      JoinedParses(env, next, lines[1..]);
      HeadLine(env, at, line);
    }
  }

  lemma JoinedHead(lines: seq<string>)
    ensures if lines == [] then Joined(lines) == ""
            else Joined(lines) == (lines[0] + [NUL]) + Joined(lines[1..]) && lines == [lines[0]] + lines[1..]
  {
  }

  lemma NoLines(env: string, at: nat)
    requires at < |env| && env[at] == NUL
    ensures Block(env, at) && Lines(env, at) == []
  {
  }

  lemma Parts(env: string, at: nat, a: string, b: string)
    requires at + |a| + |b| <= |env| && env[at..at + |a| + |b|] == a + b
    ensures env[at..at + |a|] == a && env[at + |a|..at + |a| + |b|] == b
    ensures |b| > 0 ==> env[at + |a|] == b[0]
  {
    var all := env[at..at + |a| + |b|];
    assert all[..|a|] == a && all[|a|..] == b;
    assert |b| > 0 ==> all[|a|] == b[0];
  }

  lemma HeadLine(env: string, at: nat, line: string)
    requires Plain(line) && at + |line| < |env| && env[at..at + |line|] == line && env[at + |line|] == NUL
    requires Block(env, at + |line| + 1)
    ensures Block(env, at) && Lines(env, at) == [line] + Lines(env, at + |line| + 1)
  {
    InkBefore(env, at, line);
    EndIs(env, at, at + |line|);
    hide LineEnd;
  }

  lemma InkBefore(env: string, at: nat, line: string)
    requires Plain(line) && at + |line| < |env| && env[at..at + |line|] == line && env[at + |line|] == NUL
    ensures env[at] != NUL && forall j :: at <= j < at + |line| ==> env[j] != NUL
  {
    assert forall j :: 0 <= j < |line| ==> env[at + j] == env[at..at + |line|][j] == line[j];
    assert forall j :: at <= j < at + |line| ==> env[j] == line[j - at];
  }

  lemma {:induction false} EndIs(input: string, at: nat, e: nat)
    requires at <= e < |input| && input[e] == NUL && forall j :: at <= j < e ==> input[j] != NUL
    ensures Terminated(input, at) && LineEnd(input, at) == e
  {
  }

  lemma {:induction false} LinesArePlain(env: string, at: nat)
    requires Block(env, at)
    ensures forall i :: 0 <= i < |Lines(env, at)| ==> Plain(Lines(env, at)[i])
    decreases |env| - at
  {
    if env[at] != NUL {
      var e := LineEnd(env, at);
      LinesArePlain(env, e + 1);
      assert forall j :: 0 <= j < e - at ==> env[at..e][j] == env[at + j];
    }
  }

  method AlterEnvironmentBlock(env: string, changes: seq<Change>) returns (result: string)
    requires Block(env, 0) && Distinct(changes)
    ensures var altered := Altered(Lines(env, 0), changes);
            result == Joined(altered) + (if altered == [] then [NUL, NUL] else [NUL])
  {
    ghost var lines := Lines(env, 0);
    result := CopyKept(env, lines, changes);
    result := AppendAdded(result, Kept(lines, changes), changes);
    JoinedEmpty(Altered(lines, changes));
    if result == "" {
      result := result + [NUL];
    }
    result := result + [NUL];
  }

  /** Copies the lines of unchanged variables. */
  method CopyKept(env: string, ghost lines: seq<string>, changes: seq<Change>) returns (result: string)
    requires Block(env, 0) && lines == Lines(env, 0)
    ensures result == Joined(Kept(lines, changes))
  {
    result := "";
    var cur := 0;
    ghost var total := Joined(Kept(lines, changes));
    assert "" + total == total && |env| > 0;
    hide *;
    while env[cur] != NUL
      invariant cur < |env| && Block(env, cur)
      invariant result + Joined(Kept(Lines(env, cur), changes)) == total
      decreases |env| - cur
    {
      KeptStep(result, env, cur, changes, total);
      result, cur := CopyLine(env, cur, changes, result);
    }
    NothingKept(env, cur, changes);
  }

  /** One line, unless its variable changes. */
  method CopyLine(env: string, at: nat, changes: seq<Change>, result: string) returns (out: string, next: nat)
    requires Terminated(env, at)
    ensures next == LineEnd(env, at) + 1
    ensures out == if Changes(changes, Key(LineAt(env, at))) then result else result + Piece(env, at)
  {
    var key, length := ParseEnvLine(env, at);
    next := at + length;
    out := if Find(changes, key).None? then result + env[at..next] else result;
  }

  function LineAt(env: string, at: nat): string
    requires Terminated(env, at)
  {
    env[at..LineEnd(env, at)]
  }

  /** A line with its NUL. */
  function Piece(env: string, at: nat): string
    requires Terminated(env, at)
  {
    env[at..LineEnd(env, at) + 1]
  }

  lemma NothingKept(env: string, at: nat, changes: seq<Change>)
    requires Block(env, at) && env[at] == NUL
    ensures Joined(Kept(Lines(env, at), changes)) == ""
  {
  }

  /** The line at hand, with its NUL, and the lines after it. */
  lemma NextLine(env: string, at: nat)
    requires Block(env, at) && env[at] != NUL
    ensures Terminated(env, at)
    ensures var e := LineEnd(env, at);
            && e + 1 < |env| && Block(env, e + 1) && Lines(env, at) == [env[at..e]] + Lines(env, e + 1)
            && env[at..e + 1] == env[at..e] + [NUL]
  {
    Unfolded(env, at);
    hide *;
    InBlock(env, LineEnd(env, at) + 1);
    OneMore(env, at, LineEnd(env, at));
  }

  lemma Unfolded(env: string, at: nat)
    requires Block(env, at) && env[at] != NUL
    ensures Terminated(env, at) && Block(env, LineEnd(env, at) + 1)
    ensures Lines(env, at) == [env[at..LineEnd(env, at)]] + Lines(env, LineEnd(env, at) + 1)
  {
    hide LineEnd, Terminated;
  }

  lemma InBlock(env: string, at: nat)
    requires Block(env, at)
    ensures at < |env|
  {
  }

  lemma OneMore(s: string, at: nat, e: nat)
    requires at <= e < |s|
    ensures s[at..e + 1] == s[at..e] + [s[e]]
  {
  }

  lemma KeptStep(result: string, env: string, at: nat, changes: seq<Change>, total: string)
    requires Block(env, at) && env[at] != NUL && result + Joined(Kept(Lines(env, at), changes)) == total
    ensures Terminated(env, at) && LineEnd(env, at) + 1 < |env| && Block(env, LineEnd(env, at) + 1)
    ensures (if Changes(changes, Key(LineAt(env, at))) then result else result + Piece(env, at))
          + Joined(Kept(Lines(env, LineEnd(env, at) + 1), changes)) == total
  {
    NextLine(env, at);
    hide LineEnd, Lines, Block, Kept, Joined, Changes, Key;
    KeptHead(LineAt(env, at), Lines(env, LineEnd(env, at) + 1), changes, result);
  }

  lemma KeptHead(line: string, rest: seq<string>, changes: seq<Change>, result: string)
    ensures var all := result + Joined(Kept([line] + rest, changes));
            if Changes(changes, Key(line)) then all == result + Joined(Kept(rest, changes))
            else all == result + (line + [NUL]) + Joined(Kept(rest, changes))
  {
    assert ([line] + rest)[1..] == rest;
    var kept := Kept(rest, changes);
    if Changes(changes, Key(line)) {
      assert [] + kept == kept;
    } else {
      assert ([line] + kept)[1..] == kept;
      Assoc(result, line + [NUL], Joined(kept));
    }
  }

  lemma JoinedEmpty(lines: seq<string>)
    ensures Joined(lines) == "" <==> lines == []
  {
  }

  /** Appends the lines of variables that are set. */
  method AppendAdded(storage: string, ghost before: seq<string>, changes: seq<Change>) returns (result: string)
    requires storage == Joined(before)
    ensures result == Joined(before + Added(changes))
  {
    result := storage;
    NoneAdded(before, changes);
    hide *;
    var i := 0;
    while i < |changes|
      invariant i <= |changes| && result == JoinedSoFar(before, changes, i)
    {
      AddedStep(before, changes, i);
      if changes[i].value != "" {
        result := result + changes[i].key;
        result := result + "=";
        result := result + changes[i].value;
        result := result + [NUL];
      }
      i := i + 1;
    }
  }

  ghost function JoinedSoFar(before: seq<string>, changes: seq<Change>, i: nat): string
    requires i <= |changes|
  {
    Joined(before + Added(changes[..i]))
  }

  lemma NoneAdded(before: seq<string>, changes: seq<Change>)
    ensures JoinedSoFar(before, changes, 0) == Joined(before)
    ensures JoinedSoFar(before, changes, |changes|) == Joined(before + Added(changes))
  {
    assert changes[..0] == [] && before + [] == before && changes[..|changes|] == changes;
  }

  lemma AddedStep(before: seq<string>, changes: seq<Change>, i: nat)
    requires i < |changes|
    ensures var c, now := changes[i], JoinedSoFar(before, changes, i);
            JoinedSoFar(before, changes, i + 1) == if c.value == "" then now else now + c.key + "=" + c.value + [NUL]
  {
    var c, done := changes[i], before + Added(changes[..i]);
    AddedNext(before, changes, i);
    if c.value == "" {
      assert done + [] == done;
    } else {
      JoinedConcat(done, [Line(c)]);
      JoinedOne(Line(c));
      Assoc(Joined(done), Line(c), [NUL]);
      LineParts(Joined(done), c);
    }
  }

  lemma LineParts(a: string, change: Change)
    ensures a + Line(change) == a + change.key + "=" + change.value
  {
  }

  lemma AddedNext(before: seq<string>, changes: seq<Change>, i: nat)
    requires i < |changes|
    ensures before + Added(changes[..i + 1]) == before + Added(changes[..i]) + AddedLast(changes[i])
  {
    assert changes[..i + 1][..i] == changes[..i];
  }

  predicate NoNul(changes: seq<Change>) {
    forall i :: 0 <= i < |changes| && changes[i].value != "" ==> NUL !in changes[i].key && NUL !in changes[i].value
  }

  lemma {:induction false} AddedIsPlain(changes: seq<Change>)
    ensures NoNul(changes) <==> AllPlain(Added(changes))
  {
    hide Plain, Line;
    if changes != [] {
      var n := |changes| - 1;
      var first, last := Added(changes[..n]), AddedLast(changes[n]);
      AddedIsPlain(changes[..n]);
      assert NoNul(changes)
        <==> NoNul(changes[..n]) && (changes[n].value != "" ==> NUL !in changes[n].key && NUL !in changes[n].value);
      LineIsPlain(changes[n]);
      assert AllPlain(last) <==> (changes[n].value == "" || Plain(Line(changes[n]))) by {
        assert changes[n].value != "" ==> last[0] == Line(changes[n]);
      }
      PlainConcat(first, last);
    }
  }

  lemma LineIsPlain(change: Change)
    ensures Plain(Line(change)) <==> NUL !in change.key && NUL !in change.value
  {
    assert Line(change)[|change.key|] == '=';
    assert forall i :: 0 <= i < |change.key| ==> Line(change)[i] == change.key[i];
    assert forall i :: 0 <= i < |change.value| ==> Line(change)[|change.key| + 1 + i] == change.value[i];
  }

  predicate AllPlain(lines: seq<string>) {
    forall i :: 0 <= i < |lines| ==> Plain(lines[i])
  }

  lemma PlainConcat(a: seq<string>, b: seq<string>)
    ensures AllPlain(a + b) <==> AllPlain(a) && AllPlain(b)
  {
    assert forall i :: 0 <= i < |a| ==> (a + b)[i] == a[i];
    assert forall i :: 0 <= i < |b| ==> (a + b)[|a| + i] == b[i];
  }

  lemma {:induction false} KeptIsPlain(lines: seq<string>, changes: seq<Change>)
    requires AllPlain(lines)
    ensures AllPlain(Kept(lines, changes))
  {
    if lines != [] {
      KeptIsPlain(lines[1..], changes);
      PlainConcat(if Changes(changes, Key(lines[0])) then [] else [lines[0]], Kept(lines[1..], changes));
    }
  }

  /** The altered block parses as the altered lines exactly when no variable that is set has a NUL in
      its name or value. */
  lemma AlteredParsesIff(lines: seq<string>, changes: seq<Change>, result: string)
    requires AllPlain(lines)
    requires result == Joined(Altered(lines, changes)) + (if Altered(lines, changes) == [] then [NUL, NUL] else [NUL])
    ensures Block(result, 0) && Lines(result, 0) == Altered(lines, changes) <==> NoNul(changes)
  {
    var altered := Altered(lines, changes);
    AddedIsPlain(changes);
    KeptIsPlain(lines, changes);
    PlainConcat(Kept(lines, changes), Added(changes));
    if NoNul(changes) {
      var after := if altered == [] then [NUL] else "";
      assert result == Joined(altered) + ([NUL] + after);
      JoinedParses(result, 0, altered);
    } else if Block(result, 0) {
      LinesArePlain(result, 0);
    }
  }

  // POSIX: an array of pointers, and the lines behind it in the same allocation

  /** Where each line begins when they are joined. */
  function Offsets(lines: seq<string>): (o: seq<nat>)
    ensures |o| == |lines|
  {
    seq(|lines|, i requires 0 <= i < |lines| => |Joined(lines[..i])|)
  }

  lemma OffsetsSnoc(lines: seq<string>, line: string)
    ensures Offsets(lines + [line]) == Offsets(lines) + [|Joined(lines)|]
    ensures Joined(lines + [line]) == Joined(lines) + (line + [NUL])
  {
    JoinedConcat(lines, [line]);
    JoinedOne(line);
    assert (lines + [line])[..|lines|] == lines;
    forall i | 0 <= i < |lines| ensures (lines + [line])[..i] == lines[..i] { }
  }

  /** The bytes at an offset are a NUL-terminated string. */
  predicate StringAt(bytes: string, offset: nat, line: string) {
    && offset + |line| < |bytes| && bytes[offset..offset + |line|] == line && bytes[offset + |line|] == NUL
  }

  /** What a reader takes a line for: it stops at the first NUL. */
  function Cut(line: string): (r: string)
    ensures r <= line && NUL !in r && (r == line <==> NUL !in line)
    ensures |r| < |line| ==> line[|r|] == NUL
  {
    if line == "" || line[0] == NUL then "" else [line[0]] + Cut(line[1..])
  }

  function Cuts(lines: seq<string>): (r: seq<string>)
    ensures |r| == |lines| && forall i :: 0 <= i < |lines| ==> r[i] == Cut(lines[i])
  {
    seq(|lines|, i requires 0 <= i < |lines| => Cut(lines[i]))
  }

  lemma ReadsCut(bytes: string, offset: nat, line: string)
    requires StringAt(bytes, offset, line)
    ensures Terminated(bytes, offset) && StringFrom(bytes, offset) == Cut(line)
  {
    var n := |Cut(line)|;
    assert forall j :: 0 <= j < |line| ==> bytes[offset + j] == bytes[offset..offset + |line|][j] == line[j];
    assert bytes[offset + n] == NUL;
    assert forall j :: 0 <= j < n ==> bytes[offset + j] == Cut(line)[j];
    EndIs(bytes, offset, offset + n);
  }

  /** The array reads as the altered lines exactly when no variable that is set has a NUL in its name or
      value. */
  lemma ArrayReadsIff(env: seq<string>, changes: seq<Change>)
    requires forall i :: 0 <= i < |env| ==> NUL !in env[i]
    ensures Cuts(Altered(env, changes)) == Altered(env, changes) <==> NoNul(changes)
  {
    var kept, added := Kept(env, changes), Added(changes);
    KeptIsFree(env, changes);
    AddedIsPlain(changes);
    hide NoNul, Kept, Added, Plain;
    forall i | 0 <= i < |kept| ensures (kept + added)[i] == kept[i] {}
    forall i | 0 <= i < |added| ensures (kept + added)[|kept| + i] == added[i] {}
    AddedHaveText(changes);
    PlainIsUncut(added);
    if Cuts(kept + added) == kept + added {
      forall i | 0 <= i < |added| ensures Cut(added[i]) == added[i] {
        assert Cuts(kept + added)[|kept| + i] == Cut(added[i]);
      }
    }
  }

  lemma PlainIsUncut(lines: seq<string>)
    requires forall i :: 0 <= i < |lines| ==> lines[i] != ""
    ensures AllPlain(lines) <==> forall i :: 0 <= i < |lines| ==> Cut(lines[i]) == lines[i]
  {
  }

  lemma {:induction false} AddedHaveText(changes: seq<Change>)
    ensures forall i :: 0 <= i < |Added(changes)| ==> Added(changes)[i] != ""
  {
    if changes != [] { AddedHaveText(changes[..|changes| - 1]); }
  }

  lemma {:induction false} KeptIsFree(env: seq<string>, changes: seq<Change>)
    requires forall i :: 0 <= i < |env| ==> NUL !in env[i]
    ensures forall i :: 0 <= i < |Kept(env, changes)| ==> NUL !in Kept(env, changes)[i]
  {
    if env != [] { KeptIsFree(env[1..], changes); }
  }

  /** Looking up in what is read finds what is read of what is found. */
  lemma {:induction false} LookupCut(lines: seq<string>, key: string)
    requires NUL !in key
    ensures Lookup(Cuts(lines), key)
         == match Lookup(lines, key) case None => None case Some(value) => Some(Cut(value))
  {
    if lines != [] {
      assert Cuts(lines)[1..] == Cuts(lines[1..]);
      LookupCut(lines[1..], key);
      CutKey(lines[0], key);
    }
  }

  lemma CutKey(line: string, key: string)
    requires NUL !in key
    ensures var r, e := Cut(line), EqualsPosition(line);
            && (EqualsPosition(r) < |r| && Key(r) == key <==> e < |line| && Key(line) == key)
            && (e < |line| && Key(line) == key ==> EqualsPosition(r) == e && r[e + 1..] == Cut(line[e + 1..]))
  {
    var r, e := Cut(line), EqualsPosition(line);
    if e < |line| && Key(line) == key {
      assert forall j :: 0 <= j < e ==> line[j] == key[j];
      assert |r| > e;
      KeyIs(r, e);
      assert r[..e] == line[..e];
      CutRest(line, e + 1);
    }
    if EqualsPosition(r) < |r| { KeyIs(line, EqualsPosition(r)); }
  }

  lemma {:induction false} CutRest(line: string, n: nat)
    requires n <= |Cut(line)|
    ensures Cut(line)[n..] == Cut(line[n..])
  {
    if n > 0 {
      CutRest(line[1..], n - 1);
      assert line[1..][n - 1..] == line[n..];
    }
  }

  /** A name with an equals sign in it sets, as far as it is read, a variable that should be absent. */
  predicate ShadowsRead(lines: seq<string>, changes: seq<Change>) {
    exists j :: 0 <= j < |changes| && Compound(changes[j]) && NUL !in Key(Line(changes[j]))
      && Expected(lines, changes, Key(Line(changes[j]))) == None
  }

  /** A variable with a name that can be looked up is set to a value that cannot be read. */
  predicate CutsValue(changes: seq<Change>) {
    exists j :: 0 <= j < |changes| && NUL in changes[j].value && NUL !in changes[j].key && '=' !in changes[j].key
  }

  /** Every lookup in what a reader finds in the array gives what it should exactly when neither happens. */
  lemma LookupReadIff(env: seq<string>, changes: seq<Change>)
    requires Distinct(changes) && PrefixesFirst(changes) && forall i :: 0 <= i < |env| ==> NUL !in env[i]
    ensures (forall key: string :: '=' !in key && NUL !in key ==>
               Lookup(Cuts(Altered(env, changes)), key) == Expected(env, changes, key))
       <==> !ShadowsRead(env, changes) && !CutsValue(changes)
  {
    if j :| 0 <= j < |changes| && Compound(changes[j]) && NUL !in Key(Line(changes[j]))
            && Expected(env, changes, Key(Line(changes[j]))) == None
    {
      ShadowIsFound(env, changes, j);
      LookupCut(Altered(env, changes), Key(Line(changes[j])));
    }
    if j :| 0 <= j < |changes| && NUL in changes[j].value && NUL !in changes[j].key && '=' !in changes[j].key {
      var k := IndexOf(changes, changes[j].key);
      LookupCut(Altered(env, changes), changes[j].key);
    }
    if !ShadowsRead(env, changes) && !CutsValue(changes) {
      forall key: string | '=' !in key && NUL !in key
        ensures Lookup(Cuts(Altered(env, changes)), key) == Expected(env, changes, key)
      {
        ExpectedIsFound(env, changes, key);
        LookupCut(Altered(env, changes), key);
        ExpectedIsRead(env, changes, key);
      }
    }
  }

  /** Setting X to a value with a NUL in it sets it to what is before the NUL. */
  lemma NulCutsValue()
    ensures var changes := [Change("X", "a\0b")];
            && Expected([], changes, "X") == Some("a\0b")
            && Lookup(Cuts(Altered([], changes)), "X") == Some("a")
  {
    var changes := [Change("X", "a\0b")];
    LookupAltered([], changes, "X");
    LookupCut(Altered([], changes), "X");
    var value := "a\0b";
    assert value[1] == NUL && |Cut(value)| == 1;
    assert Cut(value) == "a";
  }

  lemma ExpectedIsRead(env: seq<string>, changes: seq<Change>, key: string)
    requires !CutsValue(changes) && '=' !in key && NUL !in key && forall i :: 0 <= i < |env| ==> NUL !in env[i]
    ensures Expected(env, changes, key).Some? ==> NUL !in Expected(env, changes, key).value
  {
    FoundIsFree(env, key);
    if Changes(changes, key) {
      var value := Find(changes, key).value;
      assert Change(key, value) in changes;
    }
  }

  lemma {:induction false} FoundIsFree(env: seq<string>, key: string)
    requires forall i :: 0 <= i < |env| ==> NUL !in env[i]
    ensures Lookup(env, key).Some? ==> NUL !in Lookup(env, key).value
  {
    if env != [] { FoundIsFree(env[1..], key); }
  }

  lemma LineAtOffset(lines: seq<string>, i: nat)
    requires i < |lines|
    ensures StringAt(Joined(lines), Offsets(lines)[i], lines[i])
  {
    var before, line, after := lines[..i], lines[i], lines[i + 1..];
    assert Offsets(lines)[i] == |Joined(before)|;
    SplitLines(lines, i);
    hide *;
    JoinedConcat(before, [line] + after);
    JoinedConcat([line], after);
    JoinedOne(line);
    InMiddle(Joined(before), line, Joined(after));
  }

  lemma SplitLines(lines: seq<string>, i: nat)
    requires i < |lines|
    ensures lines == lines[..i] + ([lines[i]] + lines[i + 1..])
  {
  }

  lemma InMiddle(a: string, b: string, c: string)
    ensures StringAt(a + ((b + [NUL]) + c), |a|, b)
  {
    var all := a + ((b + [NUL]) + c);
    assert all[|a|..|a| + |b|] == b && all[|a| + |b|] == NUL;
  }

  /** The allocation: `words` pointers' worth of it, pointers first and the string storage after them.
      A pointer is an offset in bytes from its start. */
  datatype Allocation = Allocation(words: nat, pointers: seq<Option<nat>>, storage: string)

  /** Every pointer up to the null pointer is to a terminated string. */
  predicate Readable(a: Allocation, pointerSize: nat) {
    var first := |a.pointers| * pointerSize;
    && |a.pointers| > 0 && a.pointers[|a.pointers| - 1] == None
    && (forall i :: 0 <= i < |a.pointers| - 1 ==>
          a.pointers[i].Some? && first <= a.pointers[i].value && Terminated(a.storage, a.pointers[i].value - first))
  }

  /** The strings a reader of the array finds. */
  function Strings(a: Allocation, pointerSize: nat): seq<string>
    requires Readable(a, pointerSize)
  {
    seq(|a.pointers| - 1, i requires 0 <= i < |a.pointers| - 1 =>
      StringFrom(a.storage, a.pointers[i].value - |a.pointers| * pointerSize))
  }

  method AlterEnvironmentArray(env: seq<string>, changes: seq<Change>, pointerSize: nat) returns (result: Allocation)
    requires pointerSize > 0 && Distinct(changes) && forall i :: 0 <= i < |env| ==> NUL !in env[i]
    ensures var lines := Altered(env, changes); var first := |result.pointers| * pointerSize;
      && |result.pointers| == |lines| + 1 && result.pointers[|lines|] == None
      && first + |result.storage| <= result.words * pointerSize
      && (forall i :: 0 <= i < |lines| ==>
            && result.pointers[i].Some? && first <= result.pointers[i].value
            && StringAt(result.storage, result.pointers[i].value - first, lines[i]))
    ensures Readable(result, pointerSize) && Strings(result, pointerSize) == Cuts(Altered(env, changes))
  {
    var storage, indices := KeepStrings(env, changes);
    storage, indices := AddStrings(storage, indices, Kept(env, changes), changes);
    result := Lay(Altered(env, changes), indices, storage, pointerSize);
    ArrayReads(Altered(env, changes), result, pointerSize);
  }

  lemma {:induction false} ArrayReads(lines: seq<string>, a: Allocation, pointerSize: nat)
    requires |a.pointers| == |lines| + 1 && a.pointers[|lines|] == None
    requires var first := |a.pointers| * pointerSize;
             forall i :: 0 <= i < |lines| ==>
               && a.pointers[i].Some? && first <= a.pointers[i].value
               && StringAt(a.storage, a.pointers[i].value - first, lines[i])
    ensures Readable(a, pointerSize) && Strings(a, pointerSize) == Cuts(lines)
  {
    var first := |a.pointers| * pointerSize;
    hide StringAt, Cut, Terminated, StringFrom;
    forall i | 0 <= i < |lines|
      ensures Terminated(a.storage, a.pointers[i].value - first)
      ensures StringFrom(a.storage, a.pointers[i].value - first) == Cut(lines[i])
    {
      ReadsCut(a.storage, a.pointers[i].value - first, lines[i]);
    }
  }

  /** The unchanged strings, and where each begins. */
  method KeepStrings(env: seq<string>, changes: seq<Change>) returns (storage: string, indices: seq<nat>)
    requires forall i :: 0 <= i < |env| ==> NUL !in env[i]
    ensures storage == Joined(Kept(env, changes)) && indices == Offsets(Kept(env, changes))
  {
    storage, indices := "", [];
    ghost var done: seq<string> := [];
    var i := 0;
    assert env[0..] == env;
    while i < |env|
      invariant i <= |env| && storage == Joined(done) && indices == Offsets(done)
      invariant done + Kept(env[i..], changes) == Kept(env, changes)
    {
      WholeString(env[i]);
      assert env[i..][1..] == env[i + 1..];
      KeptOneMore(done, env[i], env[i + 1..], changes);
      OffsetsSnoc(done, env[i]);
      hide Kept, Joined, Offsets, Changes, Key;
      var key, length := ParseEnvLine(env[i] + [NUL], 0);
      if Find(changes, key).None? {
        indices := indices + [|storage|];
        storage := storage + (env[i] + [NUL])[..length];
        done := done + [env[i]];
      }
      i := i + 1;
    }
    assert Kept(env[i..], changes) == [] && done + [] == done;
  }

  /** A string with its NUL is one line. */
  lemma WholeString(line: string)
    requires NUL !in line
    ensures Terminated(line + [NUL], 0) && LineEnd(line + [NUL], 0) == |line|
    ensures (line + [NUL])[0..|line|] == line && (line + [NUL])[..|line| + 1] == line + [NUL]
  {
    assert (line + [NUL])[|line|] == NUL;
    assert forall j :: 0 <= j < |line| ==> (line + [NUL])[j] == line[j];
    EndIs(line + [NUL], 0, |line|);
  }

  /** Appends the strings of variables that are set. */
  method AddStrings(storage0: string, indices0: seq<nat>, ghost before: seq<string>, changes: seq<Change>)
    returns (storage: string, indices: seq<nat>)
    requires storage0 == Joined(before) && indices0 == Offsets(before)
    ensures storage == Joined(before + Added(changes)) && indices == Offsets(before + Added(changes))
  {
    storage, indices := storage0, indices0;
    ghost var done := before;
    var i := 0;
    assert changes[..0] == [] && before + [] == before;
    while i < |changes|
      invariant i <= |changes| && done == before + Added(changes[..i])
      invariant storage == Joined(done) && indices == Offsets(done)
    {
      AddedNext(before, changes, i);
      var change := changes[i];
      OffsetsSnoc(done, Line(change));
      Assoc(storage, Line(change), [NUL]);
      LineParts(storage, change);
      assert done + [] == done;
      if change.value != "" {
        hide Joined, Offsets, Added, Line;
        indices := indices + [|storage|];
        storage := storage + change.key;
        storage := storage + "=";
        storage := storage + change.value;
        storage := storage + [NUL];
        done := done + [Line(change)];
      }
      i := i + 1;
    }
    assert changes[..i] == changes;
  }

  lemma KeptOneMore(done: seq<string>, line: string, rest: seq<string>, changes: seq<Change>)
    ensures var all := done + Kept([line] + rest, changes);
            if Changes(changes, Key(line)) then all == done + Kept(rest, changes)
            else all == done + [line] + Kept(rest, changes)
  {
    assert ([line] + rest)[1..] == rest;
  }

  /** Allocates, copies the storage and fills in the pointers. */
  method Lay(ghost lines: seq<string>, indices: seq<nat>, storage: string,
      pointerSize: nat) returns (result: Allocation)
    requires pointerSize > 0 && indices == Offsets(lines) && storage == Joined(lines)
    ensures var first := |result.pointers| * pointerSize;
      && |result.pointers| == |lines| + 1 && result.pointers[|lines|] == None
      && first + |result.storage| <= result.words * pointerSize
      && (forall i :: 0 <= i < |lines| ==>
            && result.pointers[i].Some? && first <= result.pointers[i].value
            && StringAt(result.storage, result.pointers[i].value - first, lines[i]))
  {
    var words := |indices| + 1 + (|storage| + pointerSize - 1) / pointerSize;
    RoundUp(|indices| + 1, |storage|, pointerSize);
    var first := (|indices| + 1) * pointerSize;
    assert first + |storage| <= words * pointerSize;
    var pointers := FillPointers(lines, indices, storage, first);
    assert |pointers| * pointerSize == first;
    result := Allocation(words, pointers, storage);
  }

  method FillPointers(ghost lines: seq<string>, indices: seq<nat>, storage: string, first: nat)
    returns (pointers: seq<Option<nat>>)
    requires indices == Offsets(lines) && storage == Joined(lines)
    ensures |pointers| == |indices| + 1 == |lines| + 1 && pointers[|lines|] == None
    ensures forall i :: 0 <= i < |lines| ==>
      && pointers[i].Some? && first <= pointers[i].value
      && StringAt(storage, pointers[i].value - first, lines[i])
  {
    hide StringAt, Joined, Offsets;
    pointers := [];
    var i := 0;
    while i < |indices|
      invariant i <= |indices| == |lines| && |pointers| == i
      invariant forall k :: 0 <= k < i ==>
        pointers[k] == Some(first + indices[k]) && StringAt(storage, indices[k], lines[k])
    {
      LineAtOffset(lines, i);
      pointers := pointers + [Some(first + indices[i])];
      i := i + 1;
    }
    pointers := pointers + [None];
  }

  lemma RoundUp(count: nat, size: nat, unit: nat)
    requires unit > 0
    ensures count * unit + size <= (count + (size + unit - 1) / unit) * unit
  {
    var q := (size + unit - 1) / unit;
    assert size + unit - 1 < (q + 1) * unit;
    assert (q + 1) * unit == q * unit + unit;
    assert (count + q) * unit == count * unit + q * unit;
  }
}
