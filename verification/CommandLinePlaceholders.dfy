/** Why GetArgumentsStringInternal (base/command_line.cc) can be told to quote placeholders: text put
    in their place afterwards stays inside its argument, blanks and all. */
module CommandLinePlaceholders {
  import opened Switches
  import opened Sequences
  import opened CommandLineQuoting

  /** `s` with the text r in place of each percent sign. */
  function Filled(s: string, r: string): string {
    if s == "" then "" else (if s[0] == '%' then r else [s[0]]) + Filled(s[1..], r)
  }

  function FilledAll(entries: seq<string>, r: string): (filled: seq<string>)
    ensures |filled| == |entries|
  {
    if entries == [] then [] else [Filled(entries[0], r)] + FilledAll(entries[1..], r)
  }

  /** Free of the characters that mean something inside quotes; blanks are allowed. */
  predicate Harmless(r: string) { '"' !in r && '\\' !in r }

  /** Text to fill in is there, or no placeholder follows a backslash. */
  predicate KeepsRuns(s: string, r: string) {
    r != "" || forall i :: 0 < i < |s| && s[i] == '%' ==> s[i - 1] != '\\'
  }

  predicate AllKeepRuns(entries: seq<string>, r: string) {
    forall e <- entries :: KeepsRuns(e, r)
  }

  /** Switch names are printed without quotes: none has a placeholder, or the text has no blank. */
  predicate NamesKeep(entries: seq<string>, parsing: bool, r: string) {
    entries == [] ||
    var still := parsing && entries[0] != "--";
    && (still && IsSwitch(Windows, entries[0]) && '%' in SwitchName(entries[0]) ==> ' ' !in r && '\t' !in r)
    && NamesKeep(entries[1..], still, r)
  }

  lemma {:induction false} FilledPlus(a: string, b: string, r: string)
    ensures Filled(a + b, r) == Filled(a, r) + Filled(b, r)
  {
    if a == "" {
      assert a + b == b;
    } else {
      FilledPlus(a[1..], b, r);
      assert (a + b)[1..] == a[1..] + b;
      Assoc(if a[0] == '%' then r else [a[0]], Filled(a[1..], r), Filled(b, r));
    }
  }

  lemma {:induction false} FilledFree(s: string, r: string)
    requires '%' !in s
    ensures Filled(s, r) == s
  {
    if s != "" {
      FilledFree(s[1..], r);
    }
  }

  lemma FilledOne(c: char, s: string, r: string)
    ensures Filled([c] + s, r) == (if c == '%' then r else [c]) + Filled(s, r)
  {
    assert ([c] + s)[1..] == s;
  }

  lemma FilledRun(n: nat, s: string, r: string)
    ensures Filled(Backslashes(n) + s, r) == Backslashes(n) + Filled(s, r)
  {
    FilledPlus(Backslashes(n), s, r);
    FilledFree(Backslashes(n), r);
  }

  // Filling commutes with escaping

  lemma {:induction false} EscapedHarmless(r: string, s: string)
    requires Harmless(r)
    ensures Escaped(r + s) == r + Escaped(s)
  {
    if r == "" {
      assert r + s == s;
    } else {
      EscapedHarmless(r[1..], s);
      EscapedIs(r + s);
      assert (r + s)[1..] == r[1..] + s;
    }
  }

  /** The first character that is not a backslash stays first, and stays what it is to the quoting. */
  lemma FilledStarts(s: string, r: string)
    requires Harmless(r) && (s == "" || s[0] != '\\') && (s != "" && s[0] == '%' ==> r != "")
    ensures var t := Filled(s, r);
            && (t == "" <==> s == "")
            && (s != "" ==> t[0] != '\\' && (t[0] == '"' <==> s[0] == '"'))
  {
  }

  lemma EscapedRun(n: nat, s: string)
    requires n > 0 && (s == "" || s[0] != '\\')
    ensures Escaped(Backslashes(n) + s) == Backslashes(if s == "" || s[0] == '"' then 2 * n else n) + Escaped(s)
  {
    LeadingRun(n, s);
    EscapedIs(Backslashes(n) + s);
    assert (Backslashes(n) + s)[n..] == s;
    if s != "" {
      assert (Backslashes(n) + s)[n] == s[0];
    }
  }

  lemma RestKeepsRuns(s: string, r: string, n: nat)
    requires n <= |s| && KeepsRuns(s, r)
    ensures KeepsRuns(s[n..], r)
    ensures 0 < n < |s| && s[n - 1] == '\\' && s[n] == '%' ==> r != ""
  {
  }

  lemma {:induction false} FilledEscaped(s: string, r: string)
    requires Harmless(r) && KeepsRuns(s, r)
    ensures Filled(Escaped(s), r) == Escaped(Filled(s, r))
    decreases |s|
  {
    hide Leading, Escaped, KeepsRuns;
    EscapedIs(s);
    if s != "" && s[0] == '\\' {
      var n := Leading(s);
      RestKeepsRuns(s, r, n);
      FilledEscaped(s[n..], r);
      FilledEscapedRun(s, n, r);
    } else if s != "" {
      RestKeepsRuns(s, r, 1);
      FilledEscaped(s[1..], r);
      FilledEscapedOne(s, r);
    }
    assert s == "" ==> Filled(s, r) == "" && Filled(Escaped(s), r) == "" && Escaped(Filled(s, r)) == "" by {
      EscapedIs("");
    }
  }

  lemma FilledEscapedRun(s: string, n: nat, r: string)
    requires s != "" && s[0] == '\\' && n == Leading(s) && Harmless(r)
    requires n < |s| && s[n] == '%' ==> r != ""
    requires Filled(Escaped(s[n..]), r) == Escaped(Filled(s[n..], r))
    ensures Filled(Escaped(s), r) == Escaped(Filled(s, r))
  {
    EscapedIs(s);
    var rest := s[n..];
    var m := if n == |s| || s[n] == '"' then 2 * n else n;
    hide Leading, Escaped;
    FilledStarts(rest, r);
    FilledRun(m, Escaped(rest), r);
    FilledRun(n, rest, r);
    EscapedRun(n, Filled(rest, r));
  }

  lemma FilledEscapedOne(s: string, r: string)
    requires s != "" && s[0] != '\\' && Harmless(r)
    requires Filled(Escaped(s[1..]), r) == Escaped(Filled(s[1..], r))
    ensures Filled(Escaped(s), r) == Escaped(Filled(s, r))
  {
    EscapedIs(s);
    var c, rest := s[0], s[1..];
    hide Leading, Escaped;
    assert Filled(s, r) == (if c == '%' then r else [c]) + Filled(rest, r);
    if c == '"' {
      FilledPlus("\\\"", Escaped(rest), r);
      FilledFree("\\\"", r);
      EscapedIs("\"" + Filled(rest, r));
      assert ("\"" + Filled(rest, r))[1..] == Filled(rest, r);
    } else if c == '%' {
      FilledOne(c, Escaped(rest), r);
      EscapedHarmless(r, Filled(rest, r));
    } else {
      FilledOne(c, Escaped(rest), r);
      EscapedIs([c] + Filled(rest, r));
      assert ([c] + Filled(rest, r))[1..] == Filled(rest, r);
    }
  }

  // Reading one entry back

  lemma FilledQuotes(s: string, r: string)
    ensures Filled("\"" + s + "\"", r) == "\"" + Filled(s, r) + "\""
  {
    FilledPlus("\"" + s, "\"", r);
    FilledPlus("\"", s, r);
    FilledFree("\"", r);
  }

  lemma ReadFilledQuote(arg: string, r: string, tail: string)
    requires Survives(arg, true) && Ends(tail) && Harmless(r) && KeepsRuns(arg, r)
    ensures ReadArg(Filled(Quote(arg, true), r) + tail, false) == Split(Filled(arg, r), tail)
  {
    if NeedsQuotes(arg, true) {
      hide ReadArg, Escaped, Harmless, KeepsRuns, Ends;
      FilledQuotes(Escaped(arg), r);
      FilledEscaped(arg, r);
      ReadQuoted(Filled(arg, r), tail);
    } else {
      forall i | 0 <= i < |arg| ensures arg[i] != '%' {
        assert !Quotable(arg[i], true);
      }
      hide ReadArg, Ends;
      FilledFree(arg, r);
      ReadQuote(arg, true, tail);
    }
  }

  lemma {:induction false} FilledClean(name: string, r: string)
    requires Clean(name) && Harmless(r) && ('%' in name ==> ' ' !in r && '\t' !in r)
    ensures Clean(Filled(name, r))
  {
    if name != "" {
      assert Clean(name[1..]);
      FilledClean(name[1..], r);
    }
  }

  /** The parts of a safe switch, as printed and filled. */
  lemma FilledSwitch(e: string, r: string)
    requires IsSwitch(Windows, e) && Safe(e, true, true)
    ensures var name, value := SwitchName(e), SwitchValue(e);
            && Clean(name)
            && (value == "" ==> e == name && Filled(PrintEntry(e, true, true), r) == Filled(name, r))
            && (value != "" ==> Filled(e, r) == Filled(name, r) + ("=" + Filled(value, r))
                                && Filled(PrintEntry(e, true, true), r)
                                   == Filled(name, r) + ("=" + Filled(Quote(value, true), r)))
  {
    var name, value := SwitchName(e), SwitchValue(e);
    if value == "" {
      assert EqualsPosition(e) == |e|;
      assert name + "" == name;
    } else {
      assert e == name + (['='] + value);
      hide Quote;
      FilledPlus(name, "=" + value, r);
      FilledOne('=', value, r);
      FilledPlus(name, "=" + Quote(value, true), r);
      FilledOne('=', Quote(value, true), r);
    }
  }

  lemma ReadFilledSwitch(e: string, r: string, tail: string)
    requires IsSwitch(Windows, e) && Safe(e, true, true) && Ends(tail) && Harmless(r)
    requires '%' in SwitchName(e) ==> ' ' !in r && '\t' !in r
    requires KeepsRuns(SwitchValue(e), r)
    ensures ReadArg(Filled(PrintEntry(e, true, true), r) + tail, false) == Split(Filled(e, r), tail)
  {
    var name, value := SwitchName(e), SwitchValue(e);
    FilledSwitch(e, r);
    FilledClean(name, r);
    assert Survives(value, true);
    hide ReadArg, PrintEntry, Quote, Survives, SwitchName, SwitchValue, Clean, Harmless, KeepsRuns;
    if value == "" {
      ReadName(Filled(name, r), tail);
      ReadNothing(tail);
      assert Filled(name, r) + "" == Filled(name, r);
    } else {
      ReadFilledQuote(value, r, tail);
      ReadNameAndValue(Filled(name, r), Filled(value, r), Filled(Quote(value, true), r), tail);
    }
  }

  lemma ValueKeepsRuns(e: string, r: string)
    requires KeepsRuns(e, r)
    ensures KeepsRuns(SwitchValue(e), r)
  {
  }

  lemma ReadFilled(e: string, parsing: bool, r: string, tail: string)
    requires Safe(e, parsing, true) && Ends(tail) && Harmless(r) && KeepsRuns(e, r)
    requires parsing && IsSwitch(Windows, e) && '%' in SwitchName(e) ==> ' ' !in r && '\t' !in r
    ensures ReadArg(Filled(PrintEntry(e, parsing, true), r) + tail, false) == Split(Filled(e, r), tail)
  {
    hide ReadArg;
    if parsing && IsSwitch(Windows, e) {
      ValueKeepsRuns(e, r);
      ReadFilledSwitch(e, r, tail);
    } else {
      ReadFilledQuote(e, r, tail);
    }
  }

  /** The text of an entry still begins with a character that begins an argument. */
  lemma FilledStartsArgument(e: string, parsing: bool, r: string)
    requires Safe(e, parsing, true)
    ensures var text := Filled(PrintEntry(e, parsing, true), r); text != "" && !Blank(text[0])
  {
    EntryStarts(e, parsing, true);
    var text := PrintEntry(e, parsing, true);
    assert text[0] != '%' by {
      if parsing && IsSwitch(Windows, e) {
        assert text[0] == e[0];
      } else if !NeedsQuotes(e, true) {
        assert !Quotable(e[0], true);
      }
    }
    assert Filled(text, r)[0] == text[0];
  }

  /** A blank put into a switch name cuts the argument off there. */
  lemma CutInName(e: string, r: string, tail: string)
    requires IsSwitch(Windows, e) && Safe(e, true, true) && Harmless(r) && Ends(tail)
    requires '%' in SwitchName(e) && (' ' in r || '\t' in r)
    ensures ReadArg(Filled(PrintEntry(e, true, true), r) + tail, false).arg != Filled(e, r)
  {
    hide *;
    var name, value := Filled(SwitchName(e), r), SwitchValue(e);
    FilledSwitch(e, r);
    HasBlank(SwitchName(e), r);
    var quoted := "=" + Filled(Quote(value, true), r);
    if value == "" {
      CutAtBlank(name, name, tail);
    } else {
      Assoc(name, quoted, tail);
      CutAtBlank(name, Filled(e, r), quoted + tail);
    }
  }

  lemma CutAtBlank(name: string, e: string, after: string)
    requires !Clean(name) && '"' !in name && |name| <= |e|
    ensures ReadArg(name + after, false).arg != e
  {
    hide ReadArg;
    var k := FirstUnclean(name);
    assert name[k] in name;
    UncleanBlank(name, e, after, k);
  }

  lemma {:induction false} HasBlank(name: string, r: string)
    requires Clean(name) && Harmless(r)
    ensures '"' !in Filled(name, r)
    ensures '%' in name && (' ' in r || '\t' in r) ==> !Clean(Filled(name, r))
  {
    if name != "" {
      assert Clean(name[1..]);
      HasBlank(name[1..], r);
      var first, rest := if name[0] == '%' then r else [name[0]], Filled(name[1..], r);
      if '%' in name && (' ' in r || '\t' in r) {
        if name[0] == '%' {
          var i :| 0 <= i < |r| && Blank(r[i]);
          assert Blank((first + rest)[i]);
        } else {
          assert '%' in name[1..];
          var i :| 0 <= i < |rest| && (Blank(rest[i]) || rest[i] == '"');
          assert (first + rest)[1 + i] == rest[i];
        }
      }
    }
  }

  // Whole lines

  lemma FilledPrint(entries: seq<string>, parsing: bool, r: string)
    requires entries != []
    ensures var still := parsing && entries[0] != "--";
            var tail := Filled(Following(entries[1..], still, true), r);
            && Filled(Print(entries, parsing, true), r) == Filled(PrintEntry(entries[0], still, true), r) + tail
            && Ends(tail) && SplitArgs(tail) == SplitArgs(Filled(Print(entries[1..], still, true), r))
  {
    var still := parsing && entries[0] != "--";
    var rest := entries[1..];
    FilledPlus(PrintEntry(entries[0], still, true), Following(rest, still, true), r);
    if rest != [] {
      FilledOne(' ', Print(rest, still, true), r);
      var tail := Filled(Following(rest, still, true), r);
      assert tail == " " + Filled(Print(rest, still, true), r);
      assert tail[1..] == Filled(Print(rest, still, true), r);
    }
  }

  lemma SplitFirst(text: string, tail: string)
    requires text != "" && !Blank(text[0])
    ensures var s := ReadArg(text + tail, false); SplitArgs(text + tail) == [s.arg] + SplitArgs(s.rest)
  {
    assert (text + tail)[0] == text[0];
  }

  /** Print safe entries with placeholders quoted, fill each placeholder with the same text: the line
      splits into the entries so filled exactly when no blank comes into a switch name. */
  lemma {:induction false} FilledReadsBack(entries: seq<string>, parsing: bool, r: string)
    requires AllSafe(entries, parsing, true) && Harmless(r) && AllKeepRuns(entries, r)
    ensures SplitArgs(Filled(Print(entries, parsing, true), r)) == FilledAll(entries, r)
            <==> NamesKeep(entries, parsing, r)
    decreases |entries|
  {
    if entries != [] {
      var e, still := entries[0], parsing && entries[0] != "--";
      var text, tail := Filled(PrintEntry(e, still, true), r), Filled(Following(entries[1..], still, true), r);
      assert KeepsRuns(e, r) && AllKeepRuns(entries[1..], r);
      FilledPrint(entries, parsing, r);
      FilledStartsArgument(e, still, r);
      SplitFirst(text, tail);
      FilledReadsBack(entries[1..], still, r);
      hide ReadArg, SplitArgs, Filled, PrintEntry, Print, Following, KeepsRuns, Harmless, Safe, Ends;
      if still && IsSwitch(Windows, e) && '%' in SwitchName(e) && (' ' in r || '\t' in r) {
        CutInName(e, r, tail);
      } else {
        ReadFilled(e, still, r, tail);
        var rest := SplitArgs(Filled(Print(entries[1..], still, true), r));
        assert ([Filled(e, r)] + rest)[1..] == rest;
        assert ([Filled(e, r)] + FilledAll(entries[1..], r))[1..] == FilledAll(entries[1..], r);
      }
    }
  }

  /** Filled with nothing, a placeholder after a backslash leaves the backslash before the closing quote. */
  lemma NothingFilledIn()
    ensures SplitArgs(Filled(Print(["\\%"], true, true), "")) == ["\""]
  {
    var e: string := "\\%";
    assert e[1..] == "%" && "%"[1..] == "" && [e][1..] == [];
    assert Leading("%") == 0 && Leading(e) == 1 && Backslashes(1) == "\\";
    assert Escaped(e) == "\\" + Escaped("%") == "\\%";
    assert Quotable(e[0], true);
    assert Print([e], true, true) == "\"" + "\\%" + "\"" + "" == "\"\\%\"";
    NothingBetween();
    ReadsEscapedQuote();
  }

  lemma NothingBetween()
    ensures Filled("\"\\%\"", "") == "\"\\\""
  {
    FilledOne('"', "\\%\"", "");
    FilledOne('\\', "%\"", "");
    FilledOne('%', "\"", "");
    FilledFree("\"", "");
    assert "\"\\%\"" == ['"'] + "\\%\"" && "\\%\"" == ['\\'] + "%\"" && "%\"" == ['%'] + "\"";
  }

  lemma ReadsEscapedQuote()
    ensures SplitArgs("\"\\\"") == ["\""]
  {
    var text, inner: string := "\"\\\"", "\\\"";
    assert text == "\"" + inner;
    ReadQuoteMark(inner, false);
    ReadRun(1, "\"", true);
    assert Backslashes(1) + "\"" == inner && "\""[1..] == "" && Backslashes(0) == "";
    assert ReadArg(text, false) == Split("\"", "");
  }
}
