/** What counts as a switch (base/command_line.cc, its two platforms). */
module Switches {
  import opened Sequences

  datatype Platform = Windows | Posix

  /** The longest of the platform's switch prefixes that begins `s`. */
  function PrefixLength(p: Platform, s: string): (n: nat)
    ensures n <= |s| && n <= 2
    ensures n == 2 <==> |s| >= 2 && s[0] == '-' && s[1] == '-'
    ensures n > 0 <==> s != "" && (s[0] == '-' || (p == Windows && s[0] == '/'))
  {
    if |s| >= 2 && s[0] == '-' && s[1] == '-' then 2
    else if |s| >= 1 && s[0] == '-' then 1
    else if |s| >= 1 && s[0] == '/' && p.Windows? then 1
    else 0
  }

  predicate IsSwitch(p: Platform, s: string): (b: bool)
    ensures p == Posix ==> (b <==> |s| >= 2 && s[0] == '-' && s != "--")
    ensures p == Windows ==> (b <==> |s| >= 2 && (s[0] == '-' || s[0] == '/') && s != "--")
  {
    0 < PrefixLength(p, s) < |s|
  }

  function SwitchName(s: string): string { s[..EqualsPosition(s)] }

  function SwitchValue(s: string): string {
    if EqualsPosition(s) == |s| then "" else s[EqualsPosition(s) + 1..]
  }
}

/** Quoting for CommandLineToArgvW, and the rules by which it splits a command line. */
module CommandLineQuoting {
  import opened Switches
  import opened Sequences

  predicate Blank(c: char) { c == ' ' || c == '\t' }

  function Backslashes(n: nat): (s: string)
    ensures |s| == n && forall i :: 0 <= i < n ==> s[i] == '\\'
  {
    seq(n, i => '\\')
  }

  /** The length of the run of backslashes that begins `s`. */
  function Leading(s: string): (n: nat)
    ensures n <= |s|
    ensures forall i :: 0 <= i < n ==> s[i] == '\\'
    ensures n < |s| ==> s[n] != '\\'
  {
    if s != "" && s[0] == '\\' then 1 + Leading(s[1..]) else 0
  }

  // The parser: 2n backslashes before a quote are n backslashes and the quote switches quoting
  // on or off; 2n+1 are n backslashes and a quote; others are themselves.

  datatype Split = Split(arg: string, rest: string)

  function ReadArg(s: string, quoted: bool): (r: Split)
    ensures |r.rest| <= |s|
    decreases |s|
  {
    if s == "" || (Blank(s[0]) && !quoted) then Split("", s)
    else if s[0] == '\\' then
      var n := Leading(s);
      if n < |s| && s[n] == '"' then
        if n % 2 == 0 then
          var r := ReadArg(s[n + 1..], !quoted);
          Split(Backslashes(n / 2) + r.arg, r.rest)
        else
          var r := ReadArg(s[n + 1..], quoted);
          Split(Backslashes(n / 2) + ['"'] + r.arg, r.rest)
      else
        var r := ReadArg(s[n..], quoted);
        Split(Backslashes(n) + r.arg, r.rest)
    else if s[0] == '"' then ReadArg(s[1..], !quoted)
    else
      var r := ReadArg(s[1..], quoted);
      Split([s[0]] + r.arg, r.rest)
  }

  lemma {:induction false} ReadArgAdvances(s: string)
    requires s != "" && !Blank(s[0])
    ensures |ReadArg(s, false).rest| < |s|
  {
  }

  function SplitArgs(s: string): seq<string>
    decreases |s|
  {
    if s == "" then []
    else if Blank(s[0]) then SplitArgs(s[1..])
    else
      ReadArgAdvances(s);
      var r := ReadArg(s, false);
      [r.arg] + SplitArgs(r.rest)
  }

  // The printer

  predicate Quotable(c: char, placeholders: bool) {
    c == ' ' || c == '\\' || c == '"' || (placeholders && c == '%')
  }

  predicate NeedsQuotes(arg: string, placeholders: bool) {
    exists i :: 0 <= i < |arg| && Quotable(arg[i], placeholders)
  }

  /** What goes between the quotes. */
  function Escaped(arg: string): string
    decreases |arg|
  {
    if arg == "" then ""
    else if arg[0] == '\\' then
      var n := Leading(arg);
      Backslashes(if n == |arg| || arg[n] == '"' then 2 * n else n) + Escaped(arg[n..])
    else if arg[0] == '"' then "\\\"" + Escaped(arg[1..])
    else [arg[0]] + Escaped(arg[1..])
  }

  function Quote(arg: string, placeholders: bool): string {
    if NeedsQuotes(arg, placeholders) then "\"" + Escaped(arg) + "\"" else arg
  }

  method QuoteForCommandLineToArgvW(arg: string, placeholders: bool) returns (out: string)
    ensures out == Quote(arg, placeholders)
    ensures placeholders && '%' in arg ==> |out| >= 2 && out[0] == out[|out| - 1] == '"'
    ensures ' ' !in arg && '\\' !in arg && '"' !in arg && (placeholders ==> '%' !in arg) ==> out == arg
    ensures ' ' in arg || '\\' in arg || '"' in arg ==> |out| >= 2 && out[0] == out[|out| - 1] == '"'
  {
    QuotedWhen(arg, placeholders);
    hide Escaped;
    var quotable := FindFirstOf(arg, placeholders);
    if quotable == |arg| {
      return arg;
    }
    out := PutInQuotes(arg);
  }

  /** The rest of it, once something has to be quoted. */
  method PutInQuotes(arg: string) returns (out: string)
    ensures out == "\"" + Escaped(arg) + "\""
  {
    FromEnds(arg);
    hide *;
    out := "\"";
    var i := 0;
    while i < |arg|
      invariant i <= |arg|
      invariant out + EscapedFrom(arg, i) == "\"" + Escaped(arg)
    {
      EscapedAt(arg, i);
      if arg[i] == '\\' {
        var end := RunEnd(arg, i);
        var count := end - i;
        if end == |arg| || arg[end] == '"' {
          count := count * 2;
        }
        Assoc(out, Backslashes(count), EscapedFrom(arg, end));
        out := AppendBackslashes(out, count);
        i := end - 1;
      } else if arg[i] == '"' {
        Assoc(out, "\\\"", EscapedFrom(arg, i + 1));
        TwoPushes(out);
        out := out + ['\\'];
        out := out + ['"'];
      } else {
        Assoc(out, [arg[i]], EscapedFrom(arg, i + 1));
        out := out + [arg[i]];
      }
      i := i + 1;
    }
    FromEnds(arg);
    assert out + "" == out;
    out := out + ['"'];
  }

  /** Which arguments are put in quotes. */
  lemma QuotedWhen(arg: string, placeholders: bool)
    ensures ' ' in arg || '\\' in arg || '"' in arg || (placeholders && '%' in arg)
            ==> var out := Quote(arg, placeholders); |out| >= 2 && out[0] == out[|out| - 1] == '"'
    ensures ' ' !in arg && '\\' !in arg && '"' !in arg && (placeholders ==> '%' !in arg)
            ==> Quote(arg, placeholders) == arg
  {
    if c :| c in arg && (c == ' ' || c == '\\' || c == '"' || (placeholders && c == '%')) {
      var i :| 0 <= i < |arg| && arg[i] == c;
      assert Quotable(arg[i], placeholders);
    } else if NeedsQuotes(arg, placeholders) {
      var i :| 0 <= i < |arg| && Quotable(arg[i], placeholders);
      assert arg[i] in arg;
    }
  }

  lemma TwoPushes(out: string)
    ensures out + ['\\'] + ['"'] == out + "\\\""
  {
  }

  /** What is still to be printed between the quotes. */
  function EscapedFrom(arg: string, i: nat): string
    requires i <= |arg|
  {
    Escaped(arg[i..])
  }

  lemma FromEnds(arg: string)
    ensures EscapedFrom(arg, 0) == Escaped(arg) && EscapedFrom(arg, |arg|) == ""
  {
    assert arg[0..] == arg;
  }

  /** Where the run of backslashes that begins at i ends. */
  function RunStop(arg: string, i: nat): (end: nat)
    requires i <= |arg|
    ensures i <= end <= |arg|
  {
    i + Leading(arg[i..])
  }

  /** Escaped, restated at position i of the whole argument. */
  lemma EscapedAt(arg: string, i: nat)
    requires i < |arg|
    ensures arg[i] == '\\' ==>
      var end := RunStop(arg, i);
      && i < end
      && EscapedFrom(arg, i) == Backslashes(if end == |arg| || arg[end] == '"' then 2 * (end - i) else end - i)
                                + EscapedFrom(arg, end)
    ensures arg[i] == '"' ==> EscapedFrom(arg, i) == "\\\"" + EscapedFrom(arg, i + 1)
    ensures arg[i] != '\\' && arg[i] != '"' ==> EscapedFrom(arg, i) == [arg[i]] + EscapedFrom(arg, i + 1)
  {
    assert arg[i..][1..] == arg[i + 1..];
    var n := Leading(arg[i..]);
    assert arg[i..][n..] == arg[i + n..];
  }

  /** The extent of the run of backslashes at i. */
  method RunEnd(arg: string, i: nat) returns (end: nat)
    requires i < |arg| && arg[i] == '\\'
    ensures end == RunStop(arg, i) && i < end
  {
    end := i + 1;
    while end < |arg| && arg[end] == '\\'
      invariant i < end <= |arg|
      invariant forall j :: i <= j < end ==> arg[j] == '\\'
    {
      end := end + 1;
    }
    LeadingIs(arg[i..], end - i);
  }

  method AppendBackslashes(s: string, count: nat) returns (out: string)
    ensures out == s + Backslashes(count)
  {
    out := s;
    var j := 0;
    while j < count
      invariant j <= count && out == s + Backslashes(j)
    {
      assert Backslashes(j) + ['\\'] == Backslashes(j + 1);
      out := out + ['\\'];
      j := j + 1;
    }
  }

  /** arg.find_first_of(quotable_chars), with the length for npos */
  method FindFirstOf(arg: string, placeholders: bool) returns (i: nat)
    ensures i <= |arg| && (i < |arg| <==> NeedsQuotes(arg, placeholders))
  {
    i := 0;
    while i < |arg| && !Quotable(arg[i], placeholders)
      invariant i <= |arg|
      invariant forall j :: 0 <= j < i ==> !Quotable(arg[j], placeholders)
    {
      i := i + 1;
    }
  }

  lemma {:induction false} LeadingIs(s: string, n: nat)
    requires n <= |s| && (forall i :: 0 <= i < n ==> s[i] == '\\') && (n < |s| ==> s[n] != '\\')
    ensures Leading(s) == n
  {
  }

  /** One entry of argv_, as GetArgumentsStringInternal prints it. */
  function PrintEntry(entry: string, parsing: bool, placeholders: bool): string {
    if parsing && IsSwitch(Windows, entry) then
      SwitchName(entry) + (if SwitchValue(entry) == "" then "" else "=" + Quote(SwitchValue(entry), placeholders))
    else Quote(entry, placeholders)
  }

  function Print(entries: seq<string>, parsing: bool, placeholders: bool): string
    decreases |entries|, 0
  {
    if entries == [] then ""
    else
      var still := parsing && entries[0] != "--";
      PrintEntry(entries[0], still, placeholders) + Following(entries[1..], still, placeholders)
  }

  /** The separator and what follows it. */
  function Following(entries: seq<string>, parsing: bool, placeholders: bool): string
    decreases |entries|, 1
  {
    if entries == [] then "" else " " + Print(entries, parsing, placeholders)
  }

  method GetArgumentsStringInternal(argv: seq<string>, placeholders: bool) returns (params: string)
    requires argv != []
    ensures params == Print(argv[1..], true, placeholders)
  {
    NothingLeft(argv, placeholders);
    hide *;
    params := "";
    var parsing := true;
    var i := 1;
    while i < |argv|
      invariant 1 <= i <= |argv|
      invariant params + Left(argv, i, parsing, placeholders) == Print(argv[1..], true, placeholders)
    {
      var arg := argv[i];
      LeftAt(argv, i, parsing, placeholders);
      parsing := parsing && arg != "--";
      if i > 1 {
        Assoc(params, " ", PrintEntry(arg, parsing, placeholders) + Left(argv, i + 1, parsing, placeholders));
        params := params + " ";
      }
      Assoc(params, PrintEntry(arg, parsing, placeholders), Left(argv, i + 1, parsing, placeholders));
      params := AppendEntry(params, arg, parsing, placeholders);
      i := i + 1;
    }
    assert params + "" == params;
  }

  /** What is still to be printed from argv[i] on; the first entry has no separator before it. */
  function Left(argv: seq<string>, i: nat, parsing: bool, placeholders: bool): string
    requires i <= |argv|
  {
    if i == 1 then Print(argv[i..], parsing, placeholders) else Following(argv[i..], parsing, placeholders)
  }

  lemma NothingLeft(argv: seq<string>, placeholders: bool)
    requires argv != []
    ensures "" + Left(argv, 1, true, placeholders) == Print(argv[1..], true, placeholders)
    ensures forall parsing :: Left(argv, |argv|, parsing, placeholders) == ""
  {
    assert argv[|argv|..] == [];
  }

  lemma LeftAt(argv: seq<string>, i: nat, parsing: bool, placeholders: bool)
    requires 1 <= i < |argv|
    ensures var still := parsing && argv[i] != "--";
            var rest := PrintEntry(argv[i], still, placeholders) + Left(argv, i + 1, still, placeholders);
            Left(argv, i, parsing, placeholders) == if i > 1 then " " + rest else rest
  {
    PrintAt(argv, i, parsing, placeholders);
    assert argv[i..] != [];
    hide PrintEntry, Print;
  }

  method AppendEntry(params: string, entry: string, parsing: bool, placeholders: bool) returns (out: string)
    ensures out == params + PrintEntry(entry, parsing, placeholders)
  {
    hide SwitchName, SwitchValue, Quote;
    if parsing && IsSwitch(Windows, entry) {
      out := params + SwitchName(entry);
      var value := SwitchValue(entry);
      if value != "" {
        value := QuoteForCommandLineToArgvW(value, placeholders);
        out := out + ("=" + value);
      }
    } else {
      var arg := QuoteForCommandLineToArgvW(entry, placeholders);
      out := params + arg;
    }
  }

  lemma PrintAt(argv: seq<string>, i: nat, parsing: bool, placeholders: bool)
    requires i < |argv|
    ensures var still := parsing && argv[i] != "--";
            Print(argv[i..], parsing, placeholders)
            == PrintEntry(argv[i], still, placeholders) + Following(argv[i + 1..], still, placeholders)
  {
    assert argv[i..][1..] == argv[i + 1..];
  }

  // Reading back what was printed

  predicate Clean(name: string) {
    forall i :: 0 <= i < |name| ==> !Blank(name[i]) && name[i] != '"'
  }

  predicate HasTab(s: string) { '\t' in s }

  /** An argument that quoting protects, or that needs no protection. */
  predicate Survives(arg: string, placeholders: bool) {
    NeedsQuotes(arg, placeholders) || !HasTab(arg)
  }

  /** The condition for one entry, parsing telling whether switches are still recognised there. */
  predicate Safe(entry: string, parsing: bool, placeholders: bool) {
    if parsing && IsSwitch(Windows, entry) then
      && Clean(SwitchName(entry))
      && (SwitchValue(entry) == "" ==> '=' !in entry)
      && Survives(SwitchValue(entry), placeholders)
    else
      entry != "" && Survives(entry, placeholders)
  }

  predicate AllSafe(entries: seq<string>, parsing: bool, placeholders: bool) {
    entries == [] ||
    var still := parsing && entries[0] != "--";
    Safe(entries[0], still, placeholders) && AllSafe(entries[1..], still, placeholders)
  }

  /** Nothing follows, or a separator does. */
  predicate Ends(s: string) { s == "" || s[0] == ' ' }

  lemma {:induction false} LeadingRun(n: nat, s: string)
    ensures s == "" || s[0] != '\\' ==> Leading(Backslashes(n) + s) == n
    ensures Leading(Backslashes(n) + s) == n + Leading(s)
  {
    LeadingIs(Backslashes(n) + s, n + Leading(s));
  }

  /** ReadArg over a run of backslashes and what follows it. */
  lemma ReadRun(n: nat, u: string, quoted: bool)
    requires n > 0 && (u == "" || u[0] != '\\')
    ensures var r := ReadArg(Backslashes(n) + u, quoted);
            if u != "" && u[0] == '"' then
              if n % 2 == 0 then
                var r' := ReadArg(u[1..], !quoted);
                r == Split(Backslashes(n / 2) + r'.arg, r'.rest)
              else
                var r' := ReadArg(u[1..], quoted);
                r == Split(Backslashes(n / 2) + ['"'] + r'.arg, r'.rest)
            else
              var r' := ReadArg(u, quoted);
              r == Split(Backslashes(n) + r'.arg, r'.rest)
  {
    var s := Backslashes(n) + u;
    LeadingRun(n, u);
    assert s[n..] == u;
    if u != "" {
      assert s[n] == u[0] && s[n + 1..] == u[1..];
    }
  }

  lemma ReadPlain(c: char, u: string, quoted: bool)
    requires c != '\\' && c != '"' && (quoted || !Blank(c))
    ensures ReadArg([c] + u, quoted) == var r := ReadArg(u, quoted); Split([c] + r.arg, r.rest)
  {
    assert ([c] + u)[1..] == u;
  }

  lemma ReadQuoteMark(u: string, quoted: bool)
    ensures ReadArg("\"" + u, quoted) == ReadArg(u, !quoted)
  {
    assert ("\"" + u)[1..] == u;
  }

  lemma ReadNothing(tail: string)
    requires Ends(tail)
    ensures ReadArg(tail, false) == Split("", tail)
  {
  }

  /** The text `esc`, met inside quotes that `close` ends, reads as `arg`. */
  predicate ReadsAs(esc: string, close: string, arg: string, tail: string) {
    ReadArg(esc + close, true) == Split(arg, tail)
  }

  lemma ReadsClose(tail: string)
    requires Ends(tail)
    ensures ReadsAs("", "\"" + tail, "", tail)
  {
    ReadQuoteMark(tail, true);
    ReadNothing(tail);
    assert "" + ("\"" + tail) == "\"" + tail;
  }

  lemma ReadsPlain(c: char, esc: string, close: string, arg: string, tail: string)
    requires c != '\\' && c != '"' && ReadsAs(esc, close, arg, tail)
    ensures ReadsAs([c] + esc, close, [c] + arg, tail)
  {
    ReadPlain(c, esc + close, true);
    assert [c] + esc + close == [c] + (esc + close);
  }

  lemma ReadsQuote(n: nat, esc: string, close: string, arg: string, tail: string)
    requires ReadsAs(esc, close, arg, tail)
    ensures ReadsAs(Backslashes(2 * n) + ("\\\"" + esc), close, Backslashes(n) + ("\"" + arg), tail)
  {
    hide ReadArg;
    ReadRun(2 * n + 1, "\"" + (esc + close), true);
    OddRun(n, esc, close, arg);
  }

  lemma OddRun(n: nat, esc: string, close: string, arg: string)
    ensures Backslashes(2 * n) + ("\\\"" + esc) + close == Backslashes(2 * n + 1) + ("\"" + (esc + close))
    ensures ("\"" + (esc + close))[1..] == esc + close
    ensures Backslashes(n) + ['"'] + arg == Backslashes(n) + ("\"" + arg)
    ensures (2 * n + 1) % 2 == 1 && (2 * n + 1) / 2 == n
  {
    assert Backslashes(2 * n) + "\\" == Backslashes(2 * n + 1);
    assert "\\\"" + esc == "\\" + ("\"" + esc);
  }

  lemma ReadsRun(n: nat, esc: string, close: string, arg: string, tail: string)
    requires n > 0 && ReadsAs(esc, close, arg, tail)
    requires esc != "" && esc[0] != '\\' && esc[0] != '"'
    ensures ReadsAs(Backslashes(n) + esc, close, Backslashes(n) + arg, tail)
  {
    ReadRun(n, esc + close, true);
    assert Backslashes(n) + esc + close == Backslashes(n) + (esc + close);
  }

  lemma ReadsLastRun(n: nat, tail: string)
    requires n > 0 && Ends(tail)
    ensures ReadsAs(Backslashes(2 * n), "\"" + tail, Backslashes(n), tail)
  {
    ReadRun(2 * n, "\"" + tail, true);
    ReadNothing(tail);
    assert ("\"" + tail)[1..] == tail;
    assert Backslashes(n) + "" == Backslashes(n);
  }

  /** Escaped, one step. */
  lemma EscapedIs(arg: string)
    ensures arg == "" ==> Escaped(arg) == ""
    ensures arg != "" && arg[0] == '\\' ==>
      var n := Leading(arg);
      && 0 < n <= |arg|
      && arg == Backslashes(n) + arg[n..]
      && (n < |arg| ==> arg[n] != '\\')
      && Escaped(arg) == Backslashes(if n == |arg| || arg[n] == '"' then 2 * n else n) + Escaped(arg[n..])
    ensures arg != "" && arg[0] == '"' ==> Escaped(arg) == "\\\"" + Escaped(arg[1..])
    ensures arg != "" && arg[0] != '\\' && arg[0] != '"' ==> Escaped(arg) == [arg[0]] + Escaped(arg[1..])
  {
  }

  /** A quoted argument, from inside its quotes, reads back as itself. */
  lemma {:induction false} ReadEscaped(arg: string, tail: string)
    requires Ends(tail)
    ensures ReadsAs(Escaped(arg), "\"" + tail, arg, tail)
    decreases |arg|
  {
    hide ReadsAs, Leading, Escaped;
    EscapedIs(arg);
    var close := "\"" + tail;
    if arg == "" {
      ReadsClose(tail);
    } else if arg[0] == '\\' {
      ReadEscapedRun(arg, tail, Leading(arg));
    } else {
      ReadEscaped(arg[1..], tail);
      assert arg == [arg[0]] + arg[1..];
      if arg[0] == '"' {
        ReadsQuote(0, Escaped(arg[1..]), close, arg[1..], tail);
        NoRun(Escaped(arg[1..]), arg[1..]);
      } else {
        ReadsPlain(arg[0], Escaped(arg[1..]), close, arg[1..], tail);
      }
    }
  }

  lemma NoRun(esc: string, arg: string)
    ensures Backslashes(0) + ("\\\"" + esc) == "\\\"" + esc && Backslashes(0) + ("\"" + arg) == ['"'] + arg
  {
  }

  lemma {:induction false} ReadEscapedRun(arg: string, tail: string, n: nat)
    requires Ends(tail) && arg != "" && arg[0] == '\\' && n == Leading(arg)
    ensures ReadsAs(Escaped(arg), "\"" + tail, arg, tail)
    decreases |arg|, 0
  {
    hide ReadsAs, Leading, Escaped;
    EscapedIs(arg);
    var rest, close := arg[n..], "\"" + tail;
    EscapedIs(rest);
    if rest == "" {
      ReadsLastRun(n, tail);
      assert Backslashes(2 * n) + "" == Backslashes(2 * n) && Backslashes(n) + "" == Backslashes(n);
    } else if rest[0] == '"' {
      ReadEscaped(rest[1..], tail);
      ReadsQuote(n, Escaped(rest[1..]), close, rest[1..], tail);
      assert rest == "\"" + rest[1..];
    } else {
      ReadEscaped(rest, tail);
      ReadsRun(n, Escaped(rest), close, rest, tail);
    }
  }

  /** An argument quoting protects reads back as itself, wherever it stands. */
  lemma ReadQuote(arg: string, placeholders: bool, tail: string)
    requires Survives(arg, placeholders) && Ends(tail)
    ensures ReadArg(Quote(arg, placeholders) + tail, false) == Split(arg, tail)
  {
    if NeedsQuotes(arg, placeholders) {
      ReadQuoted(arg, tail);
    } else {
      forall i | 0 <= i < |arg| ensures !Blank(arg[i]) && arg[i] != '\\' && arg[i] != '"' {
        assert !Quotable(arg[i], placeholders);
      }
      hide ReadArg, Ends;
      ReadUnquoted(arg, tail);
    }
  }

  lemma ReadQuoted(arg: string, tail: string)
    requires Ends(tail)
    ensures ReadArg("\"" + Escaped(arg) + "\"" + tail, false) == Split(arg, tail)
  {
    var inner := Escaped(arg) + ("\"" + tail);
    ReadEscaped(arg, tail);
    assert ReadArg(inner, true) == Split(arg, tail) by { hide ReadArg, Escaped; }
    hide *;
    ReadQuoteMark(inner, false);
    Enclosed(Escaped(arg), tail);
  }

  lemma Enclosed(a: string, tail: string)
    ensures "\"" + a + "\"" + tail == "\"" + (a + ("\"" + tail))
  {
  }

  lemma ReadUnquoted(arg: string, tail: string)
    requires Ends(tail) && forall i :: 0 <= i < |arg| ==> !Blank(arg[i]) && arg[i] != '\\' && arg[i] != '"'
    ensures ReadArg(arg + tail, false) == Split(arg, tail)
  {
    ReadSpan(arg, tail);
    ReadNothing(tail);
    assert arg + "" == arg;
  }

  /** Outside quotes, and before u, the text `s` reads as `s`. */
  predicate ReadsThrough(s: string, u: string) {
    ReadArg(s + u, false) == var r := ReadArg(u, false); Split(s + r.arg, r.rest)
  }

  lemma ThroughNothing(u: string)
    ensures ReadsThrough("", u)
  {
    assert "" + u == u;
  }

  lemma ThroughPlain(c: char, s: string, u: string)
    requires c != '\\' && c != '"' && !Blank(c) && ReadsThrough(s, u)
    ensures ReadsThrough([c] + s, u)
  {
    hide ReadArg;
    ReadPlain(c, s + u, false);
    Assoc([c], s, u);
    Assoc([c], s, ReadArg(u, false).arg);
  }

  lemma ThroughRun(n: nat, s: string, u: string)
    requires n > 0 && ReadsThrough(s, u) && (s + u == "" || ((s + u)[0] != '\\' && (s + u)[0] != '"'))
    ensures ReadsThrough(Backslashes(n) + s, u)
  {
    hide ReadArg;
    ReadRun(n, s + u, false);
    Assoc(Backslashes(n), s, u);
    Assoc(Backslashes(n), s, ReadArg(u, false).arg);
  }

  /** Ordinary characters read as themselves. */
  lemma {:induction false} ReadSpan(s: string, u: string)
    requires forall i :: 0 <= i < |s| ==> !Blank(s[i]) && s[i] != '\\' && s[i] != '"'
    ensures ReadsThrough(s, u)
  {
    hide ReadsThrough;
    if s == "" {
      ThroughNothing(u);
    } else {
      ReadSpan(s[1..], u);
      ThroughPlain(s[0], s[1..], u);
      assert [s[0]] + s[1..] == s;
    }
  }

  /** No run of backslashes at the end of `s` meets a backslash or quote at the start of `u`. */
  predicate Apart(s: string, u: string) {
    s == "" || s[|s| - 1] != '\\' || u == "" || (u[0] != '"' && u[0] != '\\')
  }

  /** So does a clean switch name, backslashes and all. */
  lemma {:induction false} ReadName(name: string, u: string)
    requires Clean(name) && Apart(name, u)
    ensures ReadsThrough(name, u)
    decreases |name|
  {
    hide ReadsThrough;
    if name == "" {
      ThroughNothing(u);
    } else if name[0] == '\\' {
      var n := Leading(name);
      var rest := name[n..];
      ReadName(rest, u);
      if rest == "" {
        assert rest + u == u && name[|name| - 1] == '\\';
      } else {
        assert (rest + u)[0] == rest[0];
      }
      ThroughRun(n, rest, u);
      assert name == Backslashes(n) + rest;
    } else {
      ReadName(name[1..], u);
      ThroughPlain(name[0], name[1..], u);
      assert [name[0]] + name[1..] == name;
    }
  }

  /** A safe entry is read back, and what follows is left. */
  lemma ReadEntry(entry: string, parsing: bool, placeholders: bool, tail: string)
    requires Safe(entry, parsing, placeholders) && Ends(tail)
    ensures ReadArg(PrintEntry(entry, parsing, placeholders) + tail, false) == Split(entry, tail)
  {
    if parsing && IsSwitch(Windows, entry) {
      if SwitchValue(entry) == "" {
        assert EqualsPosition(entry) == |entry| && SwitchName(entry) == entry;
        ReadName(entry, tail);
        ReadNothing(tail);
        assert PrintEntry(entry, parsing, placeholders) == entry + "" == entry;
      } else {
        ReadSwitchWithValue(entry, placeholders, tail);
      }
    } else {
      ReadQuote(entry, placeholders, tail);
    }
  }

  lemma ReadNameAndValue(name: string, value: string, quoted: string, tail: string)
    requires Clean(name) && ReadArg(quoted + tail, false) == Split(value, tail)
    ensures ReadArg(name + ("=" + quoted) + tail, false) == Split(name + ("=" + value), tail)
  {
    hide ReadArg, Clean;
    var u := "=" + (quoted + tail);
    ReadName(name, u);
    ReadPlain('=', quoted + tail, false);
    Assoc("=", quoted, tail);
    Assoc(name, "=" + quoted, tail);
  }

  lemma ReadSwitchWithValue(entry: string, placeholders: bool, tail: string)
    requires Safe(entry, true, placeholders) && IsSwitch(Windows, entry) && SwitchValue(entry) != "" && Ends(tail)
    ensures ReadArg(PrintEntry(entry, true, placeholders) + tail, false) == Split(entry, tail)
  {
    var name, value := SwitchName(entry), SwitchValue(entry);
    assert entry == name + ("=" + value);
    assert PrintEntry(entry, true, placeholders) == name + ("=" + Quote(value, placeholders));
    assert Survives(value, placeholders) && Clean(name);
    hide SwitchName, SwitchValue, Survives, Quote, PrintEntry, Clean;
    ReadNameAndValue(name, value, Quote(value, placeholders), tail) by { ReadQuote(value, placeholders, tail); }
  }

  /** The text of a safe entry begins with a character that begins an argument. */
  lemma EntryStarts(entry: string, parsing: bool, placeholders: bool)
    requires Safe(entry, parsing, placeholders)
    ensures var text := PrintEntry(entry, parsing, placeholders); text != "" && !Blank(text[0])
  {
    if parsing && IsSwitch(Windows, entry) {
      assert EqualsPosition(entry) > 0;
    } else if !NeedsQuotes(entry, placeholders) {
      assert !Quotable(entry[0], placeholders) && entry[0] in entry;
    }
  }

  /** What the printed arguments split into, entry by entry. */
  lemma {:induction false} SplitPrinted(entries: seq<string>, parsing: bool, placeholders: bool)
    requires entries != []
    requires var still := parsing && entries[0] != "--"; Safe(entries[0], still, placeholders)
    ensures var still := parsing && entries[0] != "--";
            SplitArgs(Print(entries, parsing, placeholders))
            == [entries[0]] + SplitArgs(Print(entries[1..], still, placeholders))
  {
    var still := parsing && entries[0] != "--";
    var tail := Following(entries[1..], still, placeholders);
    ReadEntry(entries[0], still, placeholders, tail);
    EntryStarts(entries[0], still, placeholders);
    var text := Print(entries, parsing, placeholders);
    assert text == PrintEntry(entries[0], still, placeholders) + tail;
    assert text[0] == PrintEntry(entries[0], still, placeholders)[0];
    if tail != "" {
      assert tail[1..] == Print(entries[1..], still, placeholders);
    }
  }

  // The condition is exact: the first unsafe entry is not read back

  predicate Ordinary(c: char) { !Blank(c) && c != '\\' && c != '"' }

  /** Reading a character as itself: the rest of the argument is read from the rest of the text. */
  lemma ReadHead(c: char, u: string, quoted: bool)
    requires c != '\\' && c != '"' && (quoted || !Blank(c))
    ensures var a := ReadArg([c] + u, quoted).arg; a == [c] + ReadArg(u, quoted).arg && a != "" && a[0] == c
  {
    ReadPlain(c, u, quoted);
  }

  /** What can follow a printed switch name. */
  predicate AfterName(tail: string) {
    tail == "" || tail[0] == ' ' || tail[0] == '='
  }

  /** Of entry e, which begins with the name, e[..o] has been produced from name[..i]. */
  ghost predicate Behindhand(name: string, e: string, i: nat, o: nat) {
    && o < i <= |name| <= |e| && name == e[..|name|] && '=' !in name
    && forall j :: o <= j < i ==> !Blank(name[j])
  }

  lemma BehindhandIs(name: string, e: string, i: nat, o: nat)
    requires Behindhand(name, e, i, o)
    ensures o < i <= |name| <= |e| && e[o] == name[o] && name[o] != '=' && !Blank(name[o])
  {
  }

  lemma Further(name: string, e: string, i: nat, o: nat)
    requires Behindhand(name, e, i, o) && i < |name|
    ensures !Blank(name[i]) ==> Behindhand(name, e, i + 1, o)
    ensures !Blank(name[i]) ==> Behindhand(name, e, i + 1, o + 1)
  {
  }

  /** Once the text read is ahead of the argument produced, as it is after a quotation mark in a
      switch name, they cannot meet again. Entry e begins with `name`; name[i..] + tail is still to
      be read, and only e[..o], with o < i, has been produced. */
  lemma {:induction false} Lagging(name: string, e: string, i: nat, o: nat, quoted: bool, tail: string)
    requires Behindhand(name, e, i, o) && AfterName(tail)
    ensures Misses(Text(name, i, tail), quoted, e, o)
    decreases |name| - i
  {
    BehindhandIs(name, e, i, o);
    hide *;
    if i == |name| {
      MissesAtEnd(name, e, o, quoted, tail);
    } else {
      var c, rest := name[i], Text(name, i + 1, tail);
      HeadText(name, i, tail);
      if c == '"' {
        Further(name, e, i, o);
        NotBlank(c);
        Lagging(name, e, i + 1, o, !quoted, tail);
        MissesQuote(rest, quoted, e, o);
      } else if c == '\\' {
        LaggingRun(name, e, i, o, quoted, tail);
      } else {
        if c == name[o] {
          Further(name, e, i, o);
          Lagging(name, e, i + 1, o + 1, quoted, tail);
        }
        MissesPlain(c, rest, quoted, e, o);
      }
    }
  }

  /** The text does not read as what is left of e. */
  ghost predicate Misses(text: string, quoted: bool, e: string, o: nat) {
    o <= |e| ==> ReadArg(text, quoted).arg != e[o..]
  }

  /** What is left of the printed text. */
  function Text(name: string, i: nat, tail: string): string
    requires i <= |name|
  {
    name[i..] + tail
  }

  lemma HeadText(name: string, i: nat, tail: string)
    requires i < |name|
    ensures Text(name, i, tail) == [name[i]] + Text(name, i + 1, tail)
  {
  }

  lemma MissesAtEnd(name: string, e: string, o: nat, quoted: bool, tail: string)
    requires o < |name| <= |e| && e[o] == name[o] != '=' && !Blank(name[o]) && AfterName(tail)
    ensures Misses(Text(name, |name|, tail), quoted, e, o)
  {
    hide ReadArg;
    assert name[|name|..] + tail == tail;
    LaggingEnd(name[o], tail, quoted);
    NotRest(e, o, ReadArg(tail, quoted).arg);
  }

  lemma MissesQuote(rest: string, quoted: bool, e: string, o: nat)
    requires Misses(rest, !quoted, e, o)
    ensures Misses(['"'] + rest, quoted, e, o)
  {
    hide ReadArg;
    ReadQuoteMark(rest, quoted);
  }

  lemma MissesPlain(c: char, rest: string, quoted: bool, e: string, o: nat)
    requires c != '"' && c != '\\' && o < |e| && !Blank(e[o]) && (c == e[o] ==> Misses(rest, quoted, e, o + 1))
    ensures Misses([c] + rest, quoted, e, o)
  {
    hide ReadArg;
    if Blank(c) && !quoted {
      ReadBlank(c, rest);
      NotRest(e, o, "");
    } else {
      ReadHead(c, rest, quoted);
      Differs(e, o, c, ReadArg(rest, quoted).arg);
    }
  }

  lemma NotBlank(c: char)
    requires c == '"'
    ensures !Blank(c)
  {
  }

  lemma NotRest(e: string, o: nat, a: string)
    requires o < |e| && (a == "" || a[0] != e[o])
    ensures a != e[o..]
  {
    assert e[o..][0] == e[o];
  }

  lemma Differs(e: string, o: nat, c: char, a: string)
    requires o < |e| && (c == e[o] ==> a != e[o + 1..])
    ensures [c] + a != e[o..]
  {
    assert e[o..] == [e[o]] + e[o + 1..];
    if c == e[o] { SameTail(c, a, e[o + 1..]); } else { assert ([c] + a)[0] != e[o..][0]; }
  }

  lemma SameTail(c: char, a: string, b: string)
    requires a != b
    ensures [c] + a != [c] + b
  {
    assert ([c] + a)[1..] == a && ([c] + b)[1..] == b;
  }

  lemma ReadBlank(c: char, u: string)
    requires Blank(c)
    ensures ReadArg([c] + u, false).arg == ""
  {
  }

  lemma LaggingEnd(c: char, tail: string, quoted: bool)
    requires c != '=' && !Blank(c)
    requires tail == "" || tail[0] == ' ' || tail[0] == '='
    ensures var a := ReadArg(tail, quoted).arg; a == "" || a[0] != c
  {
    if tail != "" {
      assert tail == [tail[0]] + tail[1..];
      if quoted || tail[0] == '=' {
        ReadHead(tail[0], tail[1..], quoted);
      }
    }
  }

  /** The run of backslashes at name[i..], and what is after it. */
  lemma RunAt(name: string, i: nat, tail: string) returns (n: nat)
    requires i < |name| && name[i] == '\\' && (tail == "" || tail[0] != '\\')
    ensures n > 0 && i + n <= |name| && (forall k :: i <= k < i + n ==> name[k] == '\\')
    ensures name[i..] + tail == Backslashes(n) + (name[i + n..] + tail)
    ensures i + n < |name| ==>
      var u := name[i + n..] + tail;
      u != "" && u[0] == name[i + n] != '\\' && u[1..] == name[i + n + 1..] + tail
    ensures i + n == |name| ==> name[i + n..] + tail == tail
  {
    n := Leading(name[i..]);
    forall k | i <= k < i + n ensures name[k] == '\\' {
      assert name[i..][k - i] == name[k];
    }
    assert name[i..] == Backslashes(n) + name[i + n..];
    Assoc(Backslashes(n), name[i + n..], tail);
    if i + n < |name| {
      assert name[i..][n] == name[i + n];
      assert name[i + n..] == [name[i + n]] + name[i + n + 1..];
      Assoc([name[i + n]], name[i + n + 1..], tail);
    }
  }

  /** After a run of backslashes, and a quote behind it, at most the run has been produced. */
  lemma FurtherRun(name: string, e: string, i: nat, o: nat, n: nat, m: nat)
    requires Behindhand(name, e, i, o) && i + n <= |name| && m <= n
    requires forall k :: i <= k < i + n ==> name[k] == '\\'
    ensures Behindhand(name, e, i + n, o + m)
    ensures i + n < |name| && name[i + n] == '"' ==>
              Behindhand(name, e, i + n + 1, o + m) && (m < n ==> Behindhand(name, e, i + n + 1, o + m + 1))
  {
  }

  lemma MissesRun(text: string, quoted: bool, e: string, o: nat, out: string, rest: string, q: bool)
    requires ReadArg(text, quoted).arg == out + ReadArg(rest, q).arg
    requires o + |out| <= |e| && Misses(rest, q, e, o + |out|)
    ensures Misses(text, quoted, e, o)
  {
    hide ReadArg;
    Behind(out, ReadArg(rest, q).arg, e, o);
  }

  lemma {:induction false} LaggingRun(name: string, e: string, i: nat, o: nat, quoted: bool, tail: string)
    requires Behindhand(name, e, i, o) && i < |name| && name[i] == '\\' && AfterName(tail)
    ensures Misses(Text(name, i, tail), quoted, e, o)
    decreases |name| - i, 0
  {
    hide ReadArg, Misses, Behindhand;
    var n := RunAt(name, i, tail);
    var j := i + n;
    var u := Text(name, j, tail);
    ReadRun(n, u, quoted);
    if u != "" && u[0] == '"' {
      var q := if n % 2 == 0 then !quoted else quoted;
      var out := if n % 2 == 0 then Backslashes(n / 2) else Backslashes(n / 2) + ['"'];
      FurtherRun(name, e, i, o, n, n / 2);
      Lagging(name, e, j + 1, o + |out|, q, tail);
      BehindhandIs(name, e, j + 1, o + |out|);
      MissesRun(Text(name, i, tail), quoted, e, o, out, Text(name, j + 1, tail), q);
    } else {
      FurtherRun(name, e, i, o, n, n);
      Lagging(name, e, j, o + n, quoted, tail);
      BehindhandIs(name, e, j, o + n);
      MissesRun(Text(name, i, tail), quoted, e, o, Backslashes(n), u, quoted);
    }
  }

  /** What is produced next cannot be the rest of e if its own rest is not. */
  lemma Behind(out: string, a: string, e: string, o: nat)
    requires o + |out| <= |e| && a != e[o + |out|..]
    ensures out + a != e[o..]
  {
    assert (out + a)[|out|..] == a;
    assert e[o..][|out|..] == e[o + |out|..];
  }

  /** The first character of a name that is not clean. */
  function FirstUnclean(name: string): (k: nat)
    requires !Clean(name)
    ensures k < |name| && (Blank(name[k]) || name[k] == '"') && Clean(name[..k])
  {
    if Blank(name[0]) || name[0] == '"' then 0
    else
      assert !Clean(name[1..]) by {
        if Clean(name[1..]) {
          assert forall i :: 0 < i < |name| ==> name[i] == name[1..][i - 1];
        }
      }
      1 + FirstUnclean(name[1..])
  }

  /** The length of the run of backslashes that ends `s`. */
  function Trailing(s: string): (n: nat)
    ensures n <= |s|
    ensures s == s[..|s| - n] + Backslashes(n)
    ensures n < |s| ==> s[|s| - n - 1] != '\\'
  {
    if s != "" && s[|s| - 1] == '\\' then 1 + Trailing(s[..|s| - 1]) else 0
  }

  lemma UncleanName(name: string, e: string, tail: string)
    requires !Clean(name) && '=' !in name && |name| <= |e| && name == e[..|name|]
    requires tail == "" || tail[0] == ' ' || tail[0] == '='
    ensures ReadArg(name + tail, false).arg != e
  {
    var k := FirstUnclean(name);
    if Blank(name[k]) {
      UncleanBlank(name, e, tail, k);
    } else {
      UncleanQuote(name, e, tail, k);
    }
  }

  lemma UncleanBlank(name: string, e: string, tail: string, k: nat)
    requires k < |name| <= |e| && Blank(name[k]) && Clean(name[..k])
    ensures ReadArg(name + tail, false).arg != e
  {
    var u := [name[k]] + (name[k + 1..] + tail);
    assert name + tail == name[..k] + u;
    hide ReadArg;
    ReadName(name[..k], u);
    ReadBlank(name[k], name[k + 1..] + tail);
    assert |ReadArg(name + tail, false).arg| == k;
  }

  /** A clean name up to its first quotation mark, and the backslashes before the mark. */
  lemma UpToQuote(name: string, tail: string, k: nat) returns (n: nat)
    requires k < |name| && name[k] == '"' && Clean(name[..k])
    ensures n <= k && Clean(name[..k - n]) && (forall j :: k - n <= j < k ==> name[j] == '\\')
    ensures name + tail == name[..k - n] + (Backslashes(n) + ("\"" + (name[k + 1..] + tail)))
    ensures Apart(name[..k - n], Backslashes(n) + ("\"" + (name[k + 1..] + tail)))
  {
    n := Trailing(name[..k]);
    var o, rest := k - n, name[k + 1..] + tail;
    assert name[..k][..o] == name[..o];
    forall j | o <= j < k ensures name[j] == '\\' {
      assert name[..k][j] == name[j];
    }
    forall i | 0 <= i < o ensures !Blank(name[..o][i]) && name[..o][i] != '"' {
      assert name[..o][i] == name[..k][i];
    }
    assert name == name[..o] + Backslashes(n) + "\"" + name[k + 1..];
    Assoc(name[..o] + Backslashes(n) + "\"", name[k + 1..], tail);
    Assoc(name[..o] + Backslashes(n), "\"", rest);
    Assoc(name[..o], Backslashes(n), "\"" + rest);
  }

  lemma UncleanQuote(name: string, e: string, tail: string, k: nat)
    requires k < |name| <= |e| && name == e[..|name|] && name[k] == '"' && Clean(name[..k]) && '=' !in name
    requires tail == "" || tail[0] == ' ' || tail[0] == '='
    ensures ReadArg(name + tail, false).arg != e
  {
    hide ReadArg;
    var n := UpToQuote(name, tail, k);
    var o, rest := k - n, name[k + 1..] + tail;
    var text := Backslashes(n) + ("\"" + rest);
    AfterQuote(name, e, tail, k, n);
    ReadName(name[..o], text);
    assert e[..o] == name[..o] && e == e[..o] + e[o..];
    Behind(name[..o], ReadArg(text, false).arg, e, 0);
    assert e[0..] == e;
  }

  lemma AfterQuote(name: string, e: string, tail: string, k: nat, n: nat)
    requires n <= k < |name| <= |e| && name == e[..|name|] && name[k] == '"' && '=' !in name
    requires forall j :: k - n <= j < k ==> name[j] == '\\'
    requires tail == "" || tail[0] == ' ' || tail[0] == '='
    ensures ReadArg(Backslashes(n) + ("\"" + (name[k + 1..] + tail)), false).arg != e[k - n..]
  {
    hide ReadArg;
    var o, rest := k - n, name[k + 1..] + tail;
    var u := "\"" + rest;
    assert u[1..] == rest;
    if n == 0 {
      assert Backslashes(n) + u == u;
      ReadQuoteMark(rest, false);
      Lagging(name, e, k + 1, k, true, tail);
    } else {
      ReadRun(n, u, false);
      if n % 2 == 0 {
        Lagging(name, e, k + 1, o + n / 2, true, tail);
        Behind(Backslashes(n / 2), ReadArg(rest, true).arg, e, o);
      } else {
        var a := ReadArg(rest, false).arg;
        assert (Backslashes(n / 2) + ['"'] + a)[n / 2] == '"';
        assert e[o..][n / 2] == name[o + n / 2];
      }
    }
  }

  // Arguments that are empty, or keep a tab without quotes

  predicate Tabs(s: string) { forall i :: 0 <= i < |s| ==> s[i] == '\t' }

  /** The leading tabs of an argument. */
  function TabCount(s: string): (n: nat)
    ensures n <= |s| && Tabs(s[..n]) && (n < |s| ==> s[n] != '\t')
  {
    if s != "" && s[0] == '\t' then 1 + TabCount(s[1..]) else 0
  }

  lemma {:induction false} SkipTabs(tabs: string, u: string)
    requires Tabs(tabs)
    ensures SplitArgs(tabs + u) == SplitArgs(u)
  {
    if tabs == "" {
      assert tabs + u == u;
    } else {
      SkipTabs(tabs[1..], u);
      assert (tabs + u)[1..] == tabs[1..] + u;
    }
  }

  /** Text that begins with an ordinary character begins an argument with it. */
  lemma BeginsArgument(text: string)
    requires text != "" && Ordinary(text[0])
    ensures var r := ReadArg(text, false);
            r.arg != "" && r.arg[0] == text[0] && SplitArgs(text) != [] && SplitArgs(text)[0] == r.arg
  {
    assert text == [text[0]] + text[1..];
    ReadHead(text[0], text[1..], false);
  }

  /** An unquoted argument has only ordinary characters and tabs. */
  lemma Unquoted(arg: string, placeholders: bool, i: nat)
    requires !NeedsQuotes(arg, placeholders) && i < |arg|
    ensures arg[i] == '\t' || Ordinary(arg[i])
  {
    assert !Quotable(arg[i], placeholders);
  }

  /** The first argument read from printed entries is never empty and never only tabs. */
  lemma {:induction false} FirstHasInk(entries: seq<string>, parsing: bool, placeholders: bool)
    ensures var args := SplitArgs(Print(entries, parsing, placeholders)); args == [] || !Tabs(args[0])
    decreases |entries|
  {
    if entries != [] {
      var e, still := entries[0], parsing && entries[0] != "--";
      var tail := Following(entries[1..], still, placeholders);
      var text := Print(entries, parsing, placeholders);
      FirstHasInk(entries[1..], still, placeholders);
      AfterSeparator(entries[1..], still, placeholders);
      if still && IsSwitch(Windows, e) {
        assert text[0] == e[0];
        BeginsArgument(text);
      } else if NeedsQuotes(e, placeholders) {
        InkOfQuoted(e, placeholders, tail);
      } else {
        InkOfUnquoted(e, placeholders, tail);
      }
    }
  }

  lemma InkOfQuoted(e: string, placeholders: bool, tail: string)
    requires NeedsQuotes(e, placeholders) && Ends(tail)
    ensures var args := SplitArgs(Quote(e, placeholders) + tail); args != [] && args[0] == e && !Tabs(e)
  {
    ReadQuote(e, placeholders, tail);
    assert (Quote(e, placeholders) + tail)[0] == '"';
    var i :| 0 <= i < |e| && Quotable(e[i], placeholders);
    assert e[i] != '\t';
  }

  lemma AfterSeparator(entries: seq<string>, parsing: bool, placeholders: bool)
    ensures SplitArgs(Following(entries, parsing, placeholders)) == SplitArgs(Print(entries, parsing, placeholders))
  {
    if entries != [] {
      assert Following(entries, parsing, placeholders)[1..] == Print(entries, parsing, placeholders);
    }
  }

  lemma InkOfUnquoted(e: string, placeholders: bool, tail: string)
    requires !NeedsQuotes(e, placeholders)
    requires SplitArgs(tail) == [] || !Tabs(SplitArgs(tail)[0])
    ensures SplitArgs(e + tail) == [] || !Tabs(SplitArgs(e + tail)[0])
    ensures Tabs(e) ==> SplitArgs(e + tail) == SplitArgs(tail)
    ensures !Tabs(e) && e[0] == '\t' ==>
      SplitArgs(e + tail) != [] && SplitArgs(e + tail)[0] != "" && SplitArgs(e + tail)[0][0] != '\t'
  {
    var n := TabCount(e);
    var text := e[n..] + tail;
    assert e + tail == e[..n] + text;
    SkipTabs(e[..n], text);
    if n == |e| {
      assert e[..n] == e && text == tail;
    } else {
      Unquoted(e, placeholders, n);
      assert text[0] == e[n];
      BeginsArgument(text);
    }
  }

  /** Ordinary text that runs into a tab is cut off there. */
  lemma CutAtTab(pre: string, u: string)
    requires forall i :: 0 <= i < |pre| ==> Ordinary(pre[i])
    requires u != "" && u[0] == '\t'
    ensures ReadArg(pre + u, false).arg == pre
  {
    ReadSpan(pre, u);
    assert pre + "" == pre;
  }

  /** The first tab. */
  function FirstTab(s: string): (k: nat)
    requires HasTab(s)
    ensures k < |s| && s[k] == '\t' && forall i :: 0 <= i < k ==> s[i] != '\t'
  {
    if s[0] == '\t' then 0 else 1 + FirstTab(s[1..])
  }

  lemma UnsafeArgument(e: string, placeholders: bool, tail: string)
    requires e == "" || !Survives(e, placeholders)
    requires SplitArgs(tail) == [] || !Tabs(SplitArgs(tail)[0])
    ensures var args := SplitArgs(Quote(e, placeholders) + tail); args == [] || args[0] != e
  {
    InkOfUnquoted(e, placeholders, tail);
    if e != "" && Ordinary(e[0]) {
      var k := FirstTab(e);
      forall i | 0 <= i < k ensures Ordinary(e[..k][i]) {
        Unquoted(e, placeholders, i);
      }
      assert e + tail == e[..k] + (e[k..] + tail);
      CutAtTab(e[..k], e[k..] + tail);
      BeginsArgument(e + tail);
    } else if e != "" {
      Unquoted(e, placeholders, 0);
    }
  }

  lemma UnsafeSwitch(e: string, placeholders: bool, tail: string)
    requires IsSwitch(Windows, e) && !Safe(e, true, placeholders) && Ends(tail)
    ensures ReadArg(PrintEntry(e, true, placeholders) + tail, false).arg != e
  {
    var name, value := SwitchName(e), SwitchValue(e);
    var after := if value == "" then tail else "=" + (Quote(value, placeholders) + tail);
    assert PrintEntry(e, true, placeholders) + tail == name + after;
    if !Clean(name) {
      UncleanName(name, e, after);
    } else if value == "" {
      ReadName(name, after);
      ReadNothing(tail);
      assert |name| < |e| && name + "" == name;
    } else {
      UnsafeValue(name, value, placeholders, tail);
      assert e == name + (['='] + value);
    }
  }

  lemma UnsafeValue(name: string, value: string, placeholders: bool, tail: string)
    requires Clean(name) && !Survives(value, placeholders)
    ensures ReadArg(name + ("=" + (Quote(value, placeholders) + tail)), false).arg != name + (['='] + value)
  {
    var k := FirstTab(value);
    forall i | 0 <= i < k ensures Ordinary(value[..k][i]) {
      Unquoted(value, placeholders, i);
    }
    var rest := value[k..] + tail;
    assert value + tail == value[..k] + rest;
    var u := "=" + (value + tail);
    hide ReadArg;
    ReadName(name, u);
    ReadPlain('=', value + tail, false);
    CutAtTab(value[..k], rest);
    assert |ReadArg(name + u, false).arg| == |name| + 1 + k;
  }

  lemma FirstUnsafe(entries: seq<string>, parsing: bool, placeholders: bool)
    requires entries != []
    requires !Safe(entries[0], parsing && entries[0] != "--", placeholders)
    ensures SplitArgs(Print(entries, parsing, placeholders)) != entries
  {
    var e, still := entries[0], parsing && entries[0] != "--";
    var tail := Following(entries[1..], still, placeholders);
    var text := Print(entries, parsing, placeholders);
    assert text == PrintEntry(e, still, placeholders) + tail;
    if still && IsSwitch(Windows, e) {
      UnsafeSwitch(e, placeholders, tail);
      assert text[0] == e[0];
      BeginsArgument(text);
    } else {
      FirstHasInk(entries[1..], still, placeholders);
      AfterSeparator(entries[1..], still, placeholders);
      UnsafeArgument(e, placeholders, tail);
    }
  }

  /** An empty argument prints as nothing, and is lost. */
  lemma EmptyArgumentIsLost(placeholders: bool)
    ensures SplitArgs(Print(["a", "", "b"], true, placeholders)) == ["a", "b"]
  {
    var three, two, one := ["a", "", "b"], ["", "b"], ["b"];
    assert three[1..] == two && two[1..] == one && one[1..] == [];
    LettersAreUnquoted(placeholders);
    var tail := " " + ("" + (" " + ("b" + "")));
    assert Print(three, true, placeholders) == "a" + tail;
    assert "a" + tail == "a  b";
    SplitsInTwo();
  }

  lemma LettersAreUnquoted(placeholders: bool)
    ensures PrintEntry("a", true, placeholders) == "a" && PrintEntry("b", true, placeholders) == "b"
    ensures PrintEntry("", true, placeholders) == ""
  {
  }

  lemma SplitsInTwo()
    ensures SplitArgs("a  b") == ["a", "b"]
  {
    var text, rest, spaced, last := "a  b", "  b", " b", "b";
    assert text[1..] == rest && rest[1..] == spaced && spaced[1..] == last && last[1..] == "";
    assert ReadArg(last, false) == Split("b", "");
    assert ReadArg(rest, false) == Split("", rest);
    assert ReadArg(text, false) == Split("a", rest);
    assert SplitArgs(last) == ["b"] + SplitArgs("") == ["b"];
    assert SplitArgs(rest) == SplitArgs(spaced) == SplitArgs(last);
  }

  /** Splitting the printed arguments gives back the entries exactly when every entry is safe. */
  lemma {:induction false} PrintedReadsBack(entries: seq<string>, parsing: bool, placeholders: bool)
    ensures SplitArgs(Print(entries, parsing, placeholders)) == entries <==> AllSafe(entries, parsing, placeholders)
  {
    if entries != [] {
      var still := parsing && entries[0] != "--";
      if Safe(entries[0], still, placeholders) {
        SplitPrinted(entries, parsing, placeholders);
        PrintedReadsBack(entries[1..], still, placeholders);
        var rest := SplitArgs(Print(entries[1..], still, placeholders));
        assert ([entries[0]] + rest)[1..] == rest;
        assert entries == [entries[0]] + entries[1..];
      } else {
        FirstUnsafe(entries, parsing, placeholders);
      }
    }
  }
}
