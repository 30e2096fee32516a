/** CommandLine of base/command_line.cc: parsing an argv into switches and arguments. */
module CommandLines {
  import opened Switches
  import CommandLineQuoting
  import opened Sequences

  /** What TrimWhitespace removes: ASCII white space, and on Windows the Unicode spaces too. */
  predicate White(p: Platform, c: char) {
    || '\t' <= c <= '\r' || c == ' '
    || (p.Windows? && (|| c as int in {0x85, 0xA0, 0x1680, 0x2028, 0x2029, 0x202F, 0x205F, 0x3000}
                       || 0x2000 <= c as int <= 0x200A))
  }

  function TrimLeft(p: Platform, s: string): string {
    if s != "" && White(p, s[0]) then TrimLeft(p, s[1..]) else s
  }

  function TrimRight(p: Platform, s: string): string {
    if s != "" && White(p, s[|s| - 1]) then TrimRight(p, s[..|s| - 1]) else s
  }

  function Trim(p: Platform, s: string): string { TrimRight(p, TrimLeft(p, s)) }

  predicate Trimmed(p: Platform, s: string) {
    s == "" || (!White(p, s[0]) && !White(p, s[|s| - 1]))
  }

  /** LowerASCIIOnWindows */
  function Lower(p: Platform, s: string): (t: string)
    ensures |t| == |s|
  {
    if p.Windows? then seq(|s|, i requires 0 <= i < |s| => LowerChar(s[i])) else s
  }

  function LowerChar(c: char): char {
    if 'A' <= c <= 'Z' then (c as int + 32) as char else c
  }

  /** The three fields of a CommandLine. */
  datatype Line = Line(argv: seq<string>, switches: map<string, string>, beginArgs: nat)

  predicate Well(l: Line) { 1 <= l.beginArgs <= |l.argv| }

  /** The string AppendSwitchNative stores in argv_. */
  function SwitchString(p: Platform, name: string, value: string): string {
    var key := Lower(p, name);
    (if PrefixLength(p, key) == 0 then "--" + key else key) + (if value == "" then "" else "=" + value)
  }

  function AppendSwitch(p: Platform, l: Line, name: string, value: string): (r: Line)
    requires Well(l)
    ensures Well(r)
  {
    var key := Lower(p, name);
    Line(l.argv[..l.beginArgs] + [SwitchString(p, name, value)] + l.argv[l.beginArgs..],
         l.switches[key[PrefixLength(p, key)..] := value],
         l.beginArgs + 1)
  }

  function AppendArg(l: Line, value: string): (r: Line)
    requires Well(l)
    ensures Well(r)
  {
    l.(argv := l.argv + [value])
  }

  function AppendAll(p: Platform, l: Line, tokens: seq<string>, parsing: bool): (r: Line)
    requires Well(l)
    ensures Well(r)
    decreases |tokens|
  {
    if tokens == [] then l
    else
      var arg := Trim(p, tokens[0]);
      var still := parsing && arg != "--";
      AppendAll(p, if still && IsSwitch(p, arg) then AppendSwitch(p, l, SwitchName(arg), SwitchValue(arg))
                   else AppendArg(l, arg),
                tokens[1..], still)
  }

  function Init(p: Platform, argv: seq<string>): (r: Line)
    ensures Well(r)
  {
    var program := if argv == [] then "" else Trim(p, argv[0]);
    AppendAll(p, Line([program], map[], 1), if argv == [] then [] else argv[1..], true)
  }

  class CommandLine {
    const platform: Platform
    var argv: seq<string>
    var switches: map<string, string>
    var beginArgs: nat

    function Fields(): Line
      reads this
    {
      Line(argv, switches, beginArgs)
    }

    constructor (platform: Platform, argv: seq<string>)
      ensures this.platform == platform && Fields() == Init(platform, argv)
    {
      this.platform := platform;
      this.argv := [""];
      this.switches := map[];
      this.beginArgs := 1;
      new;
      InitFromArgv(argv);
    }

    method InitFromArgv(argv: seq<string>)
      modifies this
      ensures Fields() == Init(platform, argv)
    {
      this.argv := [""];
      switches := map[];
      beginArgs := 1;
      SetProgram(if argv == [] then "" else argv[0]);
      assert Trim(platform, "") == "";
      assert this.argv == [if argv == [] then "" else Trim(platform, argv[0])];
      AppendSwitchesAndArguments(argv);
    }

    method SetProgram(program: string)
      requires argv != []
      modifies `argv
      ensures argv == old(argv)[0 := Trim(platform, program)]
    {
      argv := argv[0 := Trim(platform, program)];
    }

    /** Tokens after the first, switches going before arguments. */
    method AppendSwitchesAndArguments(tokens: seq<string>)
      requires Well(Fields())
      modifies this
      ensures Fields() == AppendAll(platform, old(Fields()), if tokens == [] then [] else tokens[1..], true)
    {
      var parsing := true;
      var i := 1;
      while i < |tokens|
        invariant 1 <= i && (tokens != [] ==> i <= |tokens|)
        invariant Well(Fields())
        invariant tokens == [] ==> Fields() == old(Fields())
        invariant tokens != [] ==>
          AppendAll(platform, Fields(), tokens[i..], parsing) == AppendAll(platform, old(Fields()), tokens[1..], true)
      {
        var arg := Trim(platform, tokens[i]);
        assert tokens[i..][1..] == tokens[i + 1..];
        parsing := parsing && arg != "--";
        if parsing && IsSwitch(platform, arg) {
          AppendSwitchNative(SwitchName(arg), SwitchValue(arg));
        } else {
          AppendArgNative(arg);
        }
        i := i + 1;
      }
      assert tokens != [] ==> tokens[i..] == [];
    }

    method AppendSwitchNative(name: string, value: string)
      requires Well(Fields())
      modifies this
      ensures Fields() == AppendSwitch(platform, old(Fields()), name, value)
    {
      var key := Lower(platform, name);
      var combined := key;
      var prefixLength := PrefixLength(platform, combined);
      switches := switches[key[prefixLength..] := value];
      if prefixLength == 0 {
        combined := "--" + combined;
      }
      if value != "" {
        combined := combined + ("=" + value);
      }
      assert combined == SwitchString(platform, name, value);
      argv := argv[..beginArgs] + [combined] + argv[beginArgs..];
      beginArgs := beginArgs + 1;
    }

    method AppendArgNative(value: string)
      requires Well(Fields())
      modifies this
      ensures Fields() == AppendArg(old(Fields()), value)
    {
      argv := argv + [value];
    }

    method GetArgs() returns (args: seq<string>)
      requires Well(Fields())
      ensures args == WithoutTerminator(argv[beginArgs..])
    {
      args := argv[beginArgs..];
      var i := 0;
      while i < |args| && args[i] != "--"
        invariant i <= |args| && forall j :: 0 <= j < i ==> args[j] != "--"
      {
        i := i + 1;
      }
      TerminatorAt(args, i);
      if i < |args| {
        args := args[..i] + args[i + 1..];
      }
    }
  }

  /** Without its first "--". */
  function WithoutTerminator(args: seq<string>): seq<string> {
    if args == [] then [] else if args[0] == "--" then args[1..] else [args[0]] + WithoutTerminator(args[1..])
  }

  lemma {:induction false} TerminatorAt(args: seq<string>, i: nat)
    requires i <= |args| && (forall j :: 0 <= j < i ==> args[j] != "--") && (i < |args| ==> args[i] == "--")
    ensures WithoutTerminator(args) == if i == |args| then args else args[..i] + args[i + 1..]
  {
    if i > 0 {
      TerminatorAt(args[1..], i - 1);
      assert args == [args[0]] + args[1..];
      if i < |args| {
        assert args[..i] + args[i + 1..] == [args[0]] + (args[1..][..i - 1] + args[1..][i..]);
      }
    }
  }

  // GetArgs after a parse

  /** Trimmed non-switch tokens up to the first "--", then all trimmed tokens after it. */
  function PlainTokens(p: Platform, tokens: seq<string>): seq<string> {
    if tokens == [] then []
    else
      var arg := Trim(p, tokens[0]);
      if arg == "--" then TrimAll(p, tokens[1..])
      else if IsSwitch(p, arg) then PlainTokens(p, tokens[1..])
      else [arg] + PlainTokens(p, tokens[1..])
  }

  function TrimAll(p: Platform, tokens: seq<string>): seq<string> {
    if tokens == [] then [] else [Trim(p, tokens[0])] + TrimAll(p, tokens[1..])
  }

  /** The arguments a parse appends, terminator included. */
  function Args(p: Platform, tokens: seq<string>, parsing: bool): seq<string>
    decreases |tokens|
  {
    if tokens == [] then []
    else
      var arg := Trim(p, tokens[0]);
      var still := parsing && arg != "--";
      (if still && IsSwitch(p, arg) then [] else [arg]) + Args(p, tokens[1..], still)
  }

  /** The switch strings a parse inserts. */
  function SwitchStrings(p: Platform, tokens: seq<string>, parsing: bool): seq<string>
    decreases |tokens|
  {
    if tokens == [] then []
    else
      var arg := Trim(p, tokens[0]);
      var still := parsing && arg != "--";
      (if still && IsSwitch(p, arg) then [SwitchString(p, SwitchName(arg), SwitchValue(arg))] else [])
      + SwitchStrings(p, tokens[1..], still)
  }

  /** The switch map after a parse that starts from `m`. */
  function SwitchMap(p: Platform, m: map<string, string>, tokens: seq<string>, parsing: bool): map<string, string>
    decreases |tokens|
  {
    if tokens == [] then m
    else
      var arg := Trim(p, tokens[0]);
      var still := parsing && arg != "--";
      SwitchMap(p, if still && IsSwitch(p, arg) then m[Key(p, arg) := SwitchValue(arg)] else m, tokens[1..], still)
  }

  /** The name of a switch token without its prefix. */
  function Key(p: Platform, arg: string): string {
    var name := Lower(p, SwitchName(arg));
    name[PrefixLength(p, name)..]
  }

  /** A parse inserts its switches at the divider and its arguments at the end. */
  lemma {:induction false} Layout(p: Platform, before: seq<string>, after: seq<string>, m: map<string, string>,
                                  tokens: seq<string>, parsing: bool)
    requires before != []
    ensures AppendAll(p, Line(before + after, m, |before|), tokens, parsing)
         == Line(before + SwitchStrings(p, tokens, parsing) + (after + Args(p, tokens, parsing)),
                 SwitchMap(p, m, tokens, parsing),
                 |before| + |SwitchStrings(p, tokens, parsing)|)
    decreases |tokens|
  {
    hide Trim, IsSwitch, SwitchString, SwitchName, SwitchValue, Lower, PrefixLength;
    if tokens == [] {
      assert before + [] == before && after + [] == after;
    } else {
      var l := Line(before + after, m, |before|);
      assert l.argv[..|before|] == before && l.argv[|before|..] == after;
      var arg := Trim(p, tokens[0]);
      var still := parsing && arg != "--";
      var strings, args := SwitchStrings(p, tokens[1..], still), Args(p, tokens[1..], still);
      if still && IsSwitch(p, arg) {
        var s := SwitchString(p, SwitchName(arg), SwitchValue(arg));
        Layout(p, before + [s], after, m[Key(p, arg) := SwitchValue(arg)], tokens[1..], still);
        Assoc(before, [s], strings);
        assert [] + args == args;
      } else {
        Layout(p, before, after + [arg], m, tokens[1..], still);
        Assoc(before, after, [arg]);
        Assoc(after, [arg], args);
        assert [] + strings == strings;
      }
    }
  }

  /** A whole argv: the program, the switches, the arguments. */
  lemma InitIs(p: Platform, argv: seq<string>)
    ensures var tokens := Tokens(argv);
            Init(p, argv) == Line([Program(p, argv)] + SwitchStrings(p, tokens, true) + Args(p, tokens, true),
                                  SwitchMap(p, map[], tokens, true),
                                  1 + |SwitchStrings(p, tokens, true)|)
  {
    hide AppendAll;
    var program := [Program(p, argv)];
    assert program + [] == program;
    Layout(p, program, [], map[], Tokens(argv), true);
    assert [] + Args(p, Tokens(argv), true) == Args(p, Tokens(argv), true);
  }

  function Tokens(argv: seq<string>): seq<string> { if argv == [] then [] else argv[1..] }

  function Program(p: Platform, argv: seq<string>): string { if argv == [] then "" else Trim(p, argv[0]) }

  lemma {:induction false} ArgsArePlain(p: Platform, tokens: seq<string>)
    ensures WithoutTerminator(Args(p, tokens, true)) == PlainTokens(p, tokens)
  {
    if tokens != [] {
      var arg := Trim(p, tokens[0]);
      if arg == "--" {
        ArgsPastTerminator(p, tokens[1..]);
        assert Args(p, tokens, true)[1..] == Args(p, tokens[1..], false);
      } else {
        ArgsArePlain(p, tokens[1..]);
        if !IsSwitch(p, arg) {
          assert Args(p, tokens, true)[1..] == Args(p, tokens[1..], true);
        } else {
          assert Args(p, tokens, true) == Args(p, tokens[1..], true);
        }
      }
    }
  }

  lemma {:induction false} ArgsPastTerminator(p: Platform, tokens: seq<string>)
    ensures Args(p, tokens, false) == TrimAll(p, tokens)
  {
    if tokens != [] {
      ArgsPastTerminator(p, tokens[1..]);
    }
  }

  /** What GetArgs returns after a parse. */
  lemma GetArgsIs(p: Platform, argv: seq<string>)
    ensures var l := Init(p, argv);
            WithoutTerminator(l.argv[l.beginArgs..]) == PlainTokens(p, Tokens(argv))
  {
    InitIs(p, argv);
    ArgsArePlain(p, Tokens(argv));
    var strings := [Program(p, argv)] + SwitchStrings(p, Tokens(argv), true);
    assert (strings + Args(p, Tokens(argv), true))[|strings|..] == Args(p, Tokens(argv), true);
  }

  // Parsing the result of a parse

  lemma {:induction false} TrimLeftIs(p: Platform, s: string)
    ensures var t := TrimLeft(p, s);
            && (t == "" || !White(p, t[0]))
            && (s != "" && !White(p, s[|s| - 1]) ==> t != "" && t[|t| - 1] == s[|s| - 1])
  {
    hide White;
    if s != "" && White(p, s[0]) { TrimLeftIs(p, s[1..]); }
  }

  lemma {:induction false} TrimRightIs(p: Platform, s: string)
    ensures var t := TrimRight(p, s);
            && t <= s && (t == "" || !White(p, t[|t| - 1]))
            && (s != "" && !White(p, s[0]) ==> t != "")
  {
    hide White;
    if s != "" && White(p, s[|s| - 1]) { TrimRightIs(p, s[..|s| - 1]); }
  }

  lemma TrimIs(p: Platform, s: string)
    ensures Trimmed(p, Trim(p, s))
    ensures Trimmed(p, s) ==> Trim(p, s) == s
  {
    hide White;
    TrimLeftIs(p, s);
    TrimRightIs(p, TrimLeft(p, s));
  }

  lemma TrimTrim(p: Platform, s: string)
    ensures Trim(p, Trim(p, s)) == Trim(p, s)
  {
    hide *;
    TrimIs(p, s);
    TrimIs(p, Trim(p, s));
  }

  /** A string that parses as the switch it is. */
  predicate Fixed(p: Platform, s: string) {
    var arg := Trim(p, s);
    arg != "--" && IsSwitch(p, arg) && SwitchString(p, SwitchName(arg), SwitchValue(arg)) == s
  }

  /** With an empty value, the name goes on past its prefix and does not end in white space. */
  predicate Reparsable(p: Platform, arg: string) {
    var name := SwitchName(arg);
    SwitchValue(arg) == "" ==> PrefixLength(p, name) < |name| && !White(p, name[|name| - 1])
  }

  predicate AllReparsable(p: Platform, tokens: seq<string>, parsing: bool)
    decreases |tokens|
  {
    tokens == []
    || (var arg := Trim(p, tokens[0]);
        var still := parsing && arg != "--";
        && (still && IsSwitch(p, arg) ==> Reparsable(p, arg))
        && AllReparsable(p, tokens[1..], still))
  }

  lemma LowerIs(p: Platform, s: string)
    ensures Lower(p, Lower(p, s)) == Lower(p, s)
    ensures PrefixLength(p, Lower(p, s)) == PrefixLength(p, s)
    ensures '=' !in s ==> '=' !in Lower(p, s)
    ensures forall i :: 0 <= i < |s| ==> White(p, Lower(p, s)[i]) == White(p, s[i])
  {
  }

  lemma {:induction false} EqualsIs(name: string, u: string)
    requires '=' !in name && (u == "" || u[0] == '=')
    ensures EqualsPosition(name + u) == |name|
  {
    if name == "" {
      assert name + u == u;
    } else {
      assert (name + u)[1..] == name[1..] + u;
      EqualsIs(name[1..], u);
    }
  }

  /** The parts of a switch token. */
  lemma SwitchParts(p: Platform, arg: string)
    requires IsSwitch(p, arg)
    ensures var name, value := SwitchName(arg), SwitchValue(arg);
            && '=' !in name && name <= arg
            && PrefixLength(p, name) == PrefixLength(p, arg)
            && (value != "" ==> arg == name + ("=" + value))
  {
  }

  /** A switch string, taken apart again: `key` is a lowered name. */
  lemma SwitchStringParts(p: Platform, key: string, value: string)
    requires '=' !in key && PrefixLength(p, key) > 0 && Lower(p, key) == key
    ensures var s := SwitchString(p, key, value);
            && s == key + (if value == "" then "" else "=" + value)
            && SwitchName(s) == key && SwitchValue(s) == value
            && PrefixLength(p, s) == PrefixLength(p, key)
  {
    hide Lower;
    EqualsIs(key, if value == "" then "" else "=" + value);
  }

  lemma FixedWithValue(p: Platform, key: string, value: string)
    requires '=' !in key && PrefixLength(p, key) > 0 && Lower(p, key) == key
    requires value != "" && !White(p, value[|value| - 1])
    ensures Fixed(p, SwitchString(p, key, value)) && Trim(p, SwitchString(p, key, value)) == SwitchString(p, key, value)
  {
    hide Trim, Lower, SwitchName, SwitchValue, EqualsPosition;
    SwitchStringParts(p, key, value);
    TrimIs(p, key + ("=" + value));
  }

  lemma KeyParts(p: Platform, key: string)
    requires '=' !in key && PrefixLength(p, key) > 0 && Lower(p, key) == key
    ensures SwitchString(p, SwitchName(key), SwitchValue(key)) == key
    ensures SwitchName(key) == key && SwitchValue(key) == ""
  {
    hide Lower;
    EqualsIs(key, "");
    assert key + "" == key;
  }

  lemma FixedWithoutValue(p: Platform, key: string)
    requires '=' !in key && PrefixLength(p, key) > 0 && Lower(p, key) == key
    ensures Fixed(p, key) <==> PrefixLength(p, key) < |key| && !White(p, key[|key| - 1])
    ensures Fixed(p, key) ==> Trim(p, key) == key
  {
    TrimIs(p, key);
    PrefixIsInk(p, key);
    TrimStarts(p, key);
    if White(p, key[|key| - 1]) {
      TrimmedKey(p, key, Trim(p, key));
    } else {
      hide *;
      KeyParts(p, key);
      KeyIsFixed(p, key);
    }
  }

  lemma PrefixIsInk(p: Platform, key: string)
    requires PrefixLength(p, key) > 0
    ensures !White(p, key[0])
  {
  }

  lemma KeyIsFixed(p: Platform, key: string)
    requires Trimmed(p, key) ==> Trim(p, key) == key
    requires PrefixLength(p, key) > 0 && !White(p, key[0]) && !White(p, key[|key| - 1])
    requires SwitchString(p, SwitchName(key), SwitchValue(key)) == key
    ensures Fixed(p, key) <==> PrefixLength(p, key) < |key|
    ensures Trim(p, key) == key
  {
    hide Trim, SwitchString, SwitchName, SwitchValue, White;
  }

  lemma TrimmedKey(p: Platform, key: string, t: string)
    requires '=' !in key && PrefixLength(p, key) > 0 && Lower(p, key) == key && White(p, key[|key| - 1])
    requires t == Trim(p, key) && t <= key && Trimmed(p, t)
    ensures !Fixed(p, key)
  {
    hide Trim, Lower, SwitchName, SwitchValue, SwitchString;
    if IsSwitch(p, t) {
      LowerPrefix(p, key, |t|);
      assert key[..|t|] == t;
      KeyParts(p, t);
    }
  }

  lemma LowerPrefix(p: Platform, s: string, n: nat)
    requires Lower(p, s) == s && n <= |s|
    ensures Lower(p, s[..n]) == s[..n]
  {
    forall i | 0 <= i < n ensures Lower(p, s[..n])[i] == s[i] {
      assert Lower(p, s)[i] == s[i];
    }
  }

  /** With nothing to trim on the left, trimming keeps a prefix. */
  lemma TrimStarts(p: Platform, s: string)
    requires s != "" && !White(p, s[0])
    ensures Trim(p, s) <= s
  {
    hide White;
    TrimRightIs(p, s);
  }

  /** A parsed switch is stored as a string that parses to it, exactly under the condition. */
  lemma FixedIff(p: Platform, arg: string)
    requires Trimmed(p, arg) && IsSwitch(p, arg)
    ensures var s := SwitchString(p, SwitchName(arg), SwitchValue(arg));
            && (Fixed(p, s) <==> Reparsable(p, arg))
            && (Fixed(p, s) ==> Key(p, Trim(p, s)) == Key(p, arg) && SwitchValue(Trim(p, s)) == SwitchValue(arg))
  {
    var name, value := SwitchName(arg), SwitchValue(arg);
    var key := Lower(p, name);
    SwitchParts(p, arg);
    LowerIs(p, name);
    SwitchStringParts(p, key, value);
    SameSwitchString(p, name, value);
    if value == "" {
      hide *;
      assert key + "" == key;
      FixedWithoutValue(p, key);
      ReparsableName(p, arg, key);
      SameKey(p, arg, key);
    } else {
      EndsInValue(p, arg);
      hide *;
      FixedWithValue(p, key, value);
      SameKey(p, arg, SwitchString(p, key, value));
      HasValue(p, arg);
    }
  }

  lemma SameSwitchString(p: Platform, name: string, value: string)
    ensures SwitchString(p, name, value) == SwitchString(p, Lower(p, name), value)
  {
    hide Lower, PrefixLength;
    LowerIs(p, name);
  }

  lemma HasValue(p: Platform, arg: string)
    requires SwitchValue(arg) != ""
    ensures Reparsable(p, arg)
  {
  }

  lemma EndsInValue(p: Platform, arg: string)
    requires Trimmed(p, arg) && SwitchValue(arg) != ""
    ensures var value := SwitchValue(arg); !White(p, value[|value| - 1])
  {
  }

  lemma ReparsableName(p: Platform, arg: string, key: string)
    requires SwitchValue(arg) == "" && key == Lower(p, SwitchName(arg)) && PrefixLength(p, key) > 0
    ensures Reparsable(p, arg) <==> PrefixLength(p, key) < |key| && !White(p, key[|key| - 1])
  {
    LowerIs(p, SwitchName(arg));
    hide Lower, PrefixLength, White, SwitchName, SwitchValue;
  }

  lemma SameKey(p: Platform, arg: string, s: string)
    requires SwitchName(s) == Lower(p, SwitchName(arg))
    ensures Key(p, s) == Key(p, arg)
  {
    LowerIs(p, SwitchName(arg));
    hide Lower, PrefixLength, SwitchName;
  }

  /** No switch will be recognised among these. */
  lemma {:induction false} ArgsAreInert(p: Platform, tokens: seq<string>, parsing: bool, m: map<string, string>)
    ensures var args := Args(p, tokens, parsing);
            && Args(p, args, parsing) == args
            && SwitchStrings(p, args, parsing) == []
            && SwitchMap(p, m, args, parsing) == m
    decreases |tokens|
  {
    hide Trim, IsSwitch;
    if tokens != [] {
      var arg := Trim(p, tokens[0]);
      var still := parsing && arg != "--";
      ArgsAreInert(p, tokens[1..], still, m);
      var rest := Args(p, tokens[1..], still);
      if still && IsSwitch(p, arg) {
        assert [] + rest == rest;
      } else {
        TrimTrim(p, tokens[0]);
        assert ([arg] + rest)[1..] == rest;
      }
    }
  }

  lemma {:induction false} NoSwitchesPastTerminator(p: Platform, tokens: seq<string>)
    ensures SwitchStrings(p, tokens, false) == []
  {
    hide Trim, IsSwitch;
    if tokens != [] { NoSwitchesPastTerminator(p, tokens[1..]); }
  }

  /** However strings parse, they give at most one switch each. */
  lemma {:induction false} AtMostOneEach(p: Platform, strings: seq<string>, args: seq<string>, parsing: bool)
    requires SwitchStrings(p, args, parsing) == []
    ensures |SwitchStrings(p, strings + args, parsing)| <= |strings|
    decreases |strings|
  {
    hide Trim, IsSwitch;
    if strings == [] {
      assert strings + args == args;
    } else {
      var arg := Trim(p, strings[0]);
      var still := parsing && arg != "--";
      assert (strings + args)[1..] == strings[1..] + args;
      if still == parsing {
        AtMostOneEach(p, strings[1..], args, still);
      } else {
        NoSwitchesPastTerminator(p, strings[1..] + args);
      }
    }
  }

  predicate AllFixed(p: Platform, strings: seq<string>) {
    forall i :: 0 <= i < |strings| ==> Fixed(p, strings[i])
  }

  /** Reading the strings back in front of inert arguments gives them again only if each is fixed. */
  lemma {:induction false} FixedIfReadBack(p: Platform, strings: seq<string>, args: seq<string>)
    requires SwitchStrings(p, args, true) == []
    requires SwitchStrings(p, strings + args, true) == strings
    ensures AllFixed(p, strings)
    decreases |strings|
  {
    hide Trim, IsSwitch, SwitchString;
    if strings != [] {
      var arg := Trim(p, strings[0]);
      assert (strings + args)[1..] == strings[1..] + args;
      if arg == "--" {
        NoSwitchesPastTerminator(p, strings[1..] + args);
        assert false;
      } else {
        AtMostOneEach(p, strings[1..], args, true);
        var rest := SwitchStrings(p, strings[1..] + args, true);
        if IsSwitch(p, arg) {
          assert ([SwitchString(p, SwitchName(arg), SwitchValue(arg))] + rest)[1..] == rest;
          FixedIfReadBack(p, strings[1..], args);
          forall i | 0 <= i < |strings| ensures Fixed(p, strings[i]) {
            if i > 0 { assert strings[i] == strings[1..][i - 1]; }
          }
        } else {
          assert false;
        }
      }
    }
  }

  /** The stored strings are all fixed exactly when every switch token meets the condition. */
  lemma {:induction false} AllFixedIff(p: Platform, tokens: seq<string>, parsing: bool)
    ensures AllFixed(p, SwitchStrings(p, tokens, parsing)) <==> AllReparsable(p, tokens, parsing)
    decreases |tokens|
  {
    hide Trim, IsSwitch, SwitchString, Fixed, Reparsable;
    if tokens != [] {
      var arg := Trim(p, tokens[0]);
      var still := parsing && arg != "--";
      AllFixedIff(p, tokens[1..], still);
      var rest := SwitchStrings(p, tokens[1..], still);
      if still && IsSwitch(p, arg) {
        TrimIs(p, tokens[0]);
        FixedIff(p, arg);
        HeadAndRest(p, SwitchString(p, SwitchName(arg), SwitchValue(arg)), rest);
      } else {
        assert [] + rest == rest;
      }
    }
  }

  lemma HeadAndRest(p: Platform, s: string, rest: seq<string>)
    ensures AllFixed(p, [s] + rest) <==> Fixed(p, s) && AllFixed(p, rest)
  {
    hide Fixed;
    if AllFixed(p, [s] + rest) {
      assert Fixed(p, ([s] + rest)[0]);
      forall i | 0 <= i < |rest| ensures Fixed(p, rest[i]) {
        assert Fixed(p, ([s] + rest)[i + 1]);
      }
    }
  }

  /** Fixed strings in front of inert arguments parse to themselves. */
  lemma {:induction false} ReadBack(p: Platform, strings: seq<string>, args: seq<string>, m: map<string, string>)
    requires AllFixed(p, strings)
    requires SwitchStrings(p, args, true) == [] && Args(p, args, true) == args
    requires forall n: map<string, string> :: SwitchMap(p, n, args, true) == n
    ensures SwitchStrings(p, strings + args, true) == strings
    ensures Args(p, strings + args, true) == args
    ensures SwitchMap(p, m, strings + args, true) == MapOf(p, m, strings)
    decreases |strings|
  {
    hide Trim, IsSwitch, SwitchString;
    if strings == [] {
      assert strings + args == args;
    } else {
      var arg := Trim(p, strings[0]);
      assert Fixed(p, strings[0]);
      assert (strings + args)[1..] == strings[1..] + args;
      assert strings == [strings[0]] + strings[1..];
      ReadBack(p, strings[1..], args, m[Key(p, arg) := SwitchValue(arg)]);
      assert [] + args == args;
    }
  }

  /** The switch map that stored strings give. */
  function MapOf(p: Platform, m: map<string, string>, strings: seq<string>): map<string, string>
    decreases |strings|
  {
    if strings == [] then m
    else
      var arg := Trim(p, strings[0]);
      MapOf(p, m[Key(p, arg) := SwitchValue(arg)], strings[1..])
  }

  lemma {:induction false} MapOfTokens(p: Platform, tokens: seq<string>, parsing: bool, m: map<string, string>)
    requires AllReparsable(p, tokens, parsing)
    ensures MapOf(p, m, SwitchStrings(p, tokens, parsing)) == SwitchMap(p, m, tokens, parsing)
    decreases |tokens|
  {
    hide Trim, IsSwitch, SwitchString, Fixed, Reparsable, Key;
    if tokens != [] {
      var arg := Trim(p, tokens[0]);
      var still := parsing && arg != "--";
      var rest := SwitchStrings(p, tokens[1..], still);
      if still && IsSwitch(p, arg) {
        TrimIs(p, tokens[0]);
        FixedIff(p, arg);
        MapOfTokens(p, tokens[1..], still, m[Key(p, arg) := SwitchValue(arg)]);
        assert ([SwitchString(p, SwitchName(arg), SwitchValue(arg))] + rest)[1..] == rest;
      } else {
        MapOfTokens(p, tokens[1..], still, m);
        assert [] + rest == rest;
      }
    }
  }

  /** The token -= is a switch, and is stored as a dash, which is none. */
  lemma DashEqualsIsNoSwitchAgain(p: Platform)
    ensures var once := Init(p, ["a", "-="]);
            && once == Line(["a", "-"], map["" := ""], 2)
            && Init(p, once.argv) == Line(["a", "-"], map[], 1)
  {
    var token: string, dash: string, l := "-=", "-", Line(["a"], map[], 1);
    assert token[1] == '=' && token[..1] == dash && token[2..] == "" && dash[1..] == "" && "-"[1..] == "";
    assert EqualsPosition(token[1..]) == 0 && EqualsPosition(token) == 1;
    assert SwitchName(token) == dash && SwitchValue(token) == "" && Trim(p, token) == token && Trim(p, dash) == dash;
    assert Lower(p, dash) == dash && SwitchString(p, dash, "") == dash + "" == dash;
    assert AppendSwitch(p, l, dash, "") == Line(["a", "-"], map["" := ""], 2);
    assert ["a", token][1..] == [token] && [token][1..] == [] && ["a", dash][1..] == [dash] && [dash][1..] == [];
    hide Trim, SwitchName, SwitchValue, AppendSwitch, Lower;
    assert Trim(p, "a") == "a" by { OneLetter(p); }
    assert AppendAll(p, l, [token], true) == AppendSwitch(p, l, dash, "");
    assert AppendAll(p, l, [dash], true) == AppendArg(l, dash);
  }

  lemma OneLetter(p: Platform)
    ensures Trim(p, "a") == "a"
  {
  }

  /** Parsing a parsed argv changes nothing exactly when every switch token meets the condition. */
  lemma ReparseIff(p: Platform, argv: seq<string>)
    ensures Init(p, Init(p, argv).argv) == Init(p, argv) <==> AllReparsable(p, Tokens(argv), true)
  {
    var strings := SwitchStrings(p, Tokens(argv), true);
    var args := Args(p, Tokens(argv), true);
    var once := Init(p, argv);
    InitIs(p, argv);
    InitIs(p, once.argv);
    AllFixedIff(p, Tokens(argv), true);
    forall n ensures SwitchMap(p, n, args, true) == n { ArgsAreInert(p, Tokens(argv), true, n); }
    ArgsAreInert(p, Tokens(argv), true, map[]);
    SameProgram(p, argv);
    Parts(Program(p, argv), strings, args);
    assert Tokens(once.argv) == strings + args;
    hide *;
    if AllReparsable(p, Tokens(argv), true) {
      ReadBack(p, strings, args, map[]);
      MapOfTokens(p, Tokens(argv), true, map[]);
    } else if Init(p, once.argv) == once {
      SwitchesOf(Program(p, argv), strings, args,
                 SwitchStrings(p, strings + args, true), Args(p, strings + args, true));
      FixedIfReadBack(p, strings, args);
    }
  }

  lemma SameProgram(p: Platform, argv: seq<string>)
    requires Init(p, argv).argv != [] && Init(p, argv).argv[0] == Program(p, argv)
    ensures Program(p, Init(p, argv).argv) == Program(p, argv)
  {
    hide Trim, Init;
    assert Trim(p, "") == "" by { TrimIs(p, ""); }
    if argv != [] { TrimTrim(p, argv[0]); }
  }

  lemma Parts(program: string, strings: seq<string>, args: seq<string>)
    ensures ([program] + strings + args)[1..] == strings + args
  {
  }

  lemma SwitchesOf(program: string, strings: seq<string>, args: seq<string>, strings': seq<string>, args': seq<string>)
    requires [program] + strings + args == [program] + strings' + args' && |strings| == |strings'|
    ensures strings == strings'
  {
    assert ([program] + strings + args)[1..][..|strings|] == strings;
    assert ([program] + strings' + args')[1..][..|strings|] == strings';
  }

  /** Printing what a parse gave and parsing the print gives it again. */
  lemma PrintedLineParsesBack(argv: seq<string>, placeholders: bool)
    requires AllReparsable(Windows, Tokens(argv), true)
    requires CommandLineQuoting.AllSafe(Tokens(Init(Windows, argv).argv), true, placeholders)
    ensures var l := Init(Windows, argv);
            var printed := CommandLineQuoting.Print(Tokens(l.argv), true, placeholders);
            Init(Windows, [l.argv[0]] + CommandLineQuoting.SplitArgs(printed)) == l
  {
    var l := Init(Windows, argv);
    hide *;
    ReparseIff(Windows, argv);
    CommandLineQuoting.PrintedReadsBack(Tokens(l.argv), true, placeholders);
    TokensOf(l);
  }

  lemma TokensOf(l: Line)
    requires Well(l)
    ensures l.argv != [] && [l.argv[0]] + Tokens(l.argv) == l.argv
  {
  }
}
