/** What CommandLine (base/command_line.cc) makes of each token, in terms of its characters. */
module CommandLineTokens {
  import opened Switches
  import opened Sequences
  import opened CommandLines

  /** Two or more characters, the first a dash, or on Windows a slash, and not the terminator. */
  predicate LooksLikeSwitch(p: Platform, arg: string) {
    |arg| >= 2 && (arg[0] == '-' || (p == Windows && arg[0] == '/')) && arg != "--"
  }

  /** Before the terminator, the trimmed tokens that do not look like switches; after it, all of them. */
  function Operands(p: Platform, tokens: seq<string>): seq<string> {
    if tokens == [] then []
    else if Trim(p, tokens[0]) == "--" then TrimAll(p, tokens[1..])
    else if LooksLikeSwitch(p, Trim(p, tokens[0])) then Operands(p, tokens[1..])
    else [Trim(p, tokens[0])] + Operands(p, tokens[1..])
  }

  lemma {:induction false} PlainAreOperands(p: Platform, tokens: seq<string>)
    ensures PlainTokens(p, tokens) == Operands(p, tokens)
  {
    hide Trim, TrimAll;
    if tokens != [] {
      PlainAreOperands(p, tokens[1..]);
    }
  }

  /** GetArgs after a parse: on POSIX a slash begins an argument, on Windows a switch. */
  lemma ArgsAreOperands(p: Platform, argv: seq<string>)
    ensures var l := Init(p, argv); WithoutTerminator(l.argv[l.beginArgs..]) == Operands(p, Tokens(argv))
  {
    hide *;
    GetArgsIs(p, argv);
    PlainAreOperands(p, Tokens(argv));
  }

  /** A token that begins with no prefix is an argument, wherever it stands. */
  lemma {:induction false} UnprefixedIsOperand(p: Platform, tokens: seq<string>, i: nat)
    requires i < |tokens|
    requires var arg := Trim(p, tokens[i]); arg == "" || (arg[0] != '-' && (p == Posix || arg[0] != '/'))
    ensures Trim(p, tokens[i]) in Operands(p, tokens)
  {
    hide Trim;
    if Trim(p, tokens[0]) == "--" {
      AllTrimmed(p, tokens[1..], i - 1);
    } else if i > 0 {
      UnprefixedIsOperand(p, tokens[1..], i - 1);
    }
  }

  lemma {:induction false} AllTrimmed(p: Platform, tokens: seq<string>, i: nat)
    requires i < |tokens|
    ensures |TrimAll(p, tokens)| == |tokens| && TrimAll(p, tokens)[i] == Trim(p, tokens[i])
  {
    hide Trim;
    if i > 0 {
      AllTrimmed(p, tokens[1..], i - 1);
    } else if |tokens| > 1 {
      AllTrimmed(p, tokens[1..], 0);
    }
  }

  lemma Untrimmed(p: Platform)
    ensures Trim(p, "a") == "a" && Trim(p, "/b") == "/b"
  {
    TrimIs(p, "a");
    TrimIs(p, "/b");
  }

  lemma SlashOnPosix()
    ensures Init(Posix, ["a", "/b"]) == Line(["a", "/b"], map[], 1)
  {
    var token: string, l := "/b", Line(["a"], map[], 1);
    assert ["a", token][1..] == [token] && [token][1..] == [];
    Untrimmed(Posix);
    hide Trim, AppendSwitch;
    assert AppendAll(Posix, l, [token], true) == AppendArg(l, token);
  }

  lemma AppendSlash(l: Line)
    requires l == Line(["a"], map[], 1)
    ensures AppendSwitch(Windows, l, "/b", "") == Line(["a", "/b"], map["b" := ""], 2)
  {
    var token: string := "/b";
    assert Lower(Windows, token) == token && token + "" == token && token[1..] == "b";
    hide Lower;
  }

  lemma PartsOfSlash()
    ensures SwitchName("/b") == "/b" && SwitchValue("/b") == ""
  {
    var token: string := "/b";
    assert EqualsPosition(token[1..]) == 1 && EqualsPosition(token) == 2;
  }

  lemma SlashOnWindows()
    ensures Init(Windows, ["a", "/b"]) == Line(["a", "/b"], map["b" := ""], 2)
  {
    var token: string, l := "/b", Line(["a"], map[], 1);
    assert ["a", token][1..] == [token] && [token][1..] == [];
    Untrimmed(Windows);
    AppendSlash(l);
    PartsOfSlash();
    hide Trim, AppendSwitch, SwitchName, SwitchValue;
    assert AppendAll(Windows, l, [token], true) == AppendSwitch(Windows, l, token, "");
  }

  // White space

  /** kWhitespaceASCII and kWhitespaceUTF16 (base/strings/string_util_constants.cc), by code. */
  const ASCII_SPACES: seq<int> := [0x09, 0x0A, 0x0B, 0x0C, 0x0D, 0x20]
  const WIDE_SPACES: seq<int> := ASCII_SPACES + [
    0x0085, 0x00A0, 0x1680, 0x2000, 0x2001, 0x2002, 0x2003, 0x2004, 0x2005, 0x2006, 0x2007,
    0x2008, 0x2009, 0x200A, 0x2028, 0x2029, 0x202F, 0x205F, 0x3000]

  lemma WhiteIs(c: char)
    ensures White(Posix, c) <==> c as int in ASCII_SPACES
    ensures White(Windows, c) <==> c as int in WIDE_SPACES
  {
  }

  predicate AllWhite(p: Platform, s: string) { forall i :: 0 <= i < |s| ==> White(p, s[i]) }

  lemma {:induction false} TrimLeftCuts(p: Platform, s: string) returns (a: string)
    ensures AllWhite(p, a) && s == a + TrimLeft(p, s)
  {
    hide White;
    if s != "" && White(p, s[0]) {
      a := TrimLeftCuts(p, s[1..]);
      a := [s[0]] + a;
    } else {
      a := "";
    }
  }

  lemma {:induction false} TrimRightCuts(p: Platform, s: string) returns (b: string)
    ensures AllWhite(p, b) && s == TrimRight(p, s) + b
  {
    hide White;
    if s != "" && White(p, s[|s| - 1]) {
      b := TrimRightCuts(p, s[..|s| - 1]);
      b := b + [s[|s| - 1]];
    } else {
      b := "";
    }
  }

  /** Only white space is cut off, at both ends, and all of it. */
  lemma TrimCuts(p: Platform, s: string) returns (a: string, b: string)
    ensures s == a + Trim(p, s) + b && AllWhite(p, a) && AllWhite(p, b) && Trimmed(p, Trim(p, s))
  {
    a := TrimLeftCuts(p, s);
    b := TrimRightCuts(p, TrimLeft(p, s));
    TrimIs(p, s);
    Assoc(a, Trim(p, s), b);
  }

  // The switch map

  /** Token i is still looked at for a switch. */
  predicate Live(p: Platform, tokens: seq<string>, i: nat) {
    i < |tokens| && forall j :: 0 <= j <= i ==> Trim(p, tokens[j]) != "--"
  }

  predicate SwitchAt(p: Platform, tokens: seq<string>, i: nat, key: string) {
    Live(p, tokens, i) && LooksLikeSwitch(p, Trim(p, tokens[i])) && Key(p, Trim(p, tokens[i])) == key
  }

  lemma RestLive(p: Platform, tokens: seq<string>, i: nat)
    requires i + 1 < |tokens|
    ensures Trim(p, tokens[0]) != "--" ==> (Live(p, tokens, i + 1) <==> Live(p, tokens[1..], i))
  {
    hide Trim;
    if Live(p, tokens[1..], i) && Trim(p, tokens[0]) != "--" {
      forall j | 0 <= j <= i + 1 ensures Trim(p, tokens[j]) != "--" {
        if j > 0 { assert tokens[j] == tokens[1..][j - 1]; }
      }
    }
  }

  /** Every key belongs to a switch token before the terminator. */
  lemma {:induction false} KeyHasSwitch(p: Platform, m: map<string, string>, tokens: seq<string>, key: string)
    returns (i: nat)
    requires key in SwitchMap(p, m, tokens, true) && key !in m
    ensures SwitchAt(p, tokens, i, key)
    decreases |tokens|
  {
    hide Trim, Key;
    var arg := Trim(p, tokens[0]);
    if arg == "--" {
      NothingAfter(p, m, tokens[1..]);
      assert false;
    } else if LooksLikeSwitch(p, arg) && Key(p, arg) == key {
      i := 0;
    } else {
      i := KeyHasSwitch(p, if IsSwitch(p, arg) then m[Key(p, arg) := SwitchValue(arg)] else m, tokens[1..], key);
      RestLive(p, tokens, i);
      i := i + 1;
    }
  }

  lemma {:induction false} NothingAfter(p: Platform, m: map<string, string>, tokens: seq<string>)
    ensures SwitchMap(p, m, tokens, false) == m
  {
    hide Trim;
    if tokens != [] { NothingAfter(p, m, tokens[1..]); }
  }

  /** Of the switches with one key, the last before the terminator gives its value. */
  lemma {:induction false} LastSwitchWins(p: Platform, m: map<string, string>, tokens: seq<string>, i: nat, key: string)
    requires SwitchAt(p, tokens, i, key) && forall j :: j > i ==> !SwitchAt(p, tokens, j, key)
    ensures var r := SwitchMap(p, m, tokens, true); key in r && r[key] == SwitchValue(Trim(p, tokens[i]))
    decreases |tokens|
  {
    hide Trim, Key;
    var arg, rest := Trim(p, tokens[0]), tokens[1..];
    assert arg != "--";
    var m' := if IsSwitch(p, arg) then m[Key(p, arg) := SwitchValue(arg)] else m;
    forall j: nat | j + 1 < |tokens| ensures SwitchAt(p, rest, j, key) <==> SwitchAt(p, tokens, j + 1, key) {
      RestLive(p, tokens, j);
    }
    if i == 0 {
      forall j: nat ensures !SwitchAt(p, rest, j, key) {
        if j < |rest| { assert !SwitchAt(p, tokens, j + 1, key); }
      }
      Untouched(p, m', rest, key);
    } else {
      forall j: nat | j > i - 1 ensures !SwitchAt(p, rest, j, key) {
        if j < |rest| { assert !SwitchAt(p, tokens, j + 1, key); }
      }
      LastSwitchWins(p, m', rest, i - 1, key);
    }
  }

  lemma {:induction false} Untouched(p: Platform, m: map<string, string>, tokens: seq<string>, key: string)
    requires forall j: nat :: !SwitchAt(p, tokens, j, key)
    ensures var r := SwitchMap(p, m, tokens, true); (key in r <==> key in m) && (key in m ==> r[key] == m[key])
    decreases |tokens|
  {
    hide Trim, Key;
    if tokens != [] {
      var arg, rest := Trim(p, tokens[0]), tokens[1..];
      if arg == "--" {
        NothingAfter(p, m, rest);
      } else {
        assert !SwitchAt(p, tokens, 0, key);
        forall j: nat ensures !SwitchAt(p, rest, j, key) {
          if j < |rest| {
            RestLive(p, tokens, j);
            assert !SwitchAt(p, tokens, j + 1, key);
          }
        }
        Untouched(p, if IsSwitch(p, arg) then m[Key(p, arg) := SwitchValue(arg)] else m, rest, key);
      }
    }
  }

  predicate Prefix(p: Platform, s: string) { s == "--" || s == "-" || (p == Windows && s == "/") }

  /** The key of a token is its name without the prefix, lowered; its value is what follows the first
      equals sign. */
  lemma KeyIs(p: Platform, prefix: string, name: string, value: string)
    requires Prefix(p, prefix) && '=' !in name && (prefix == "-" ==> name == "" || name[0] != '-')
    ensures var token := prefix + name + ("=" + value);
            LooksLikeSwitch(p, token) && Key(p, token) == Lower(p, name) && SwitchValue(token) == value
    ensures name != "" ==> var token := prefix + name;
            LooksLikeSwitch(p, token) && Key(p, token) == Lower(p, name) && SwitchValue(token) == ""
  {
    NameAndValue(p, prefix, name, "=" + value);
    assert ("=" + value)[1..] == value;
    if name != "" {
      NameAndValue(p, prefix, name, "");
      assert prefix + name + "" == prefix + name;
    }
  }

  lemma NameAndValue(p: Platform, prefix: string, name: string, tail: string)
    requires Prefix(p, prefix) && '=' !in name && (prefix == "-" ==> name == "" || name[0] != '-')
    requires if tail == "" then name != "" else tail[0] == '='
    ensures var token := prefix + name + tail;
            && LooksLikeSwitch(p, token) && Key(p, token) == Lower(p, name)
            && SwitchValue(token) == if tail == "" then "" else tail[1..]
  {
    var full := prefix + name;
    var token := full + tail;
    assert '=' !in full by { assert '=' !in prefix; }
    EqualsIs(full, tail);
    assert SwitchName(token) == full;
    assert Lower(p, full)[|prefix|..] == Lower(p, name);
    LowerIs(p, full);
    assert PrefixLength(p, full) == |prefix|;
    hide Lower;
    if tail != "" {
      assert token[|full| + 1..] == tail[1..];
    }
  }

  /** A switch appended under a name without prefix is stored as one that gives that name and value. */
  lemma AppendedIsSwitch(p: Platform, name: string, value: string)
    requires name != "" && PrefixLength(p, name) == 0 && '=' !in name
    ensures var s := SwitchString(p, name, value);
            && s[..2] == "--" && LooksLikeSwitch(p, s)
            && Key(p, s) == Lower(p, name) && SwitchValue(s) == value
  {
    LowerIs(p, name);
    LowerIs(p, Lower(p, name));
    hide Lower;
    KeyIs(p, "--", Lower(p, name), value);
  }

  const ALPHABET := "abcdefghijklmnopqrstuvwxyz"

  /** On Windows the letters A to Z become a to z, and nothing else changes. */
  lemma LowerLetters(p: Platform, s: string, i: nat)
    requires i < |s|
    ensures !('A' <= s[i] <= 'Z') || p == Posix ==> Lower(p, s)[i] == s[i]
    ensures 'A' <= s[i] <= 'Z' && p == Windows ==> Lower(p, s)[i] == ALPHABET[s[i] as int - 'A' as int]
  {
    var k := s[i] as int - 'A' as int;
    if 0 <= k < 26 {
      assert ALPHABET[k] as int == 'a' as int + k;
    }
  }

  lemma KeyLetter(arg: string, i: nat)
    requires i < |Key(Windows, arg)|
    ensures !('A' <= Key(Windows, arg)[i] <= 'Z')
  {
    var name := Lower(Windows, SwitchName(arg));
    var n := PrefixLength(Windows, name);
    assert Key(Windows, arg) == name[n..] && |Key(Windows, arg)| == |name| - n;
    assert Key(Windows, arg)[i] == name[n + i] == LowerChar(SwitchName(arg)[n + i]);
  }

  /** No key has an upper-case letter on Windows. */
  lemma KeysAreLower(argv: seq<string>, key: string, i: nat)
    requires key in Init(Windows, argv).switches && i < |key|
    ensures !('A' <= key[i] <= 'Z')
  {
    hide Key, SwitchMap, SwitchStrings, Args, Init, Trim;
    InitIs(Windows, argv);
    var j := KeyHasSwitch(Windows, map[], Tokens(argv), key);
    KeyLetter(Trim(Windows, Tokens(argv)[j]), i);
  }
}
