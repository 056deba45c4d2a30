/** What comments mean, with their texts written out: every verb, every form of a duration and
    every refusal (internal/commands/parser.go). */
module CommandTexts {
  import opened Options
  import opened Text
  import opened Commands
  import opened CommandLaws

  // ---- the verbs without a duration --------------------------------------------------------

  /** /delete and /unplan ignore whatever is written behind them. */
  lemma WithdrawalsIgnoreArguments(rest: string)
    ensures Parse("/delete" + rest) == Parsed(Command(Delete, 0, ""))
    ensures Parse("/unplan" + rest) == Parsed(Command(Unplan, 0, ""))
  {
    hide FindCommand, Arguments, TrimSpace, Slash;
    VerbTexts();
    VerbFound(Delete, rest);
    VerbFound(Unplan, rest);
  }

  // ---- numbers ---------------------------------------------------------------------------------

  /** The digits are the code points 48 to 57, and a number is read in base ten. */
  lemma ReadDigits(s: string, c: char)
    ensures IsDigit(c) <==> 48 <= c as int <= 57
    ensures Value("") == 0
    ensures AllDigits(s) && IsDigit(c) ==> AllDigits(s + [c]) && Value(s + [c]) == 10 * Value(s) + (c as int - 48)
  {
    assert (s + [c])[..|s|] == s;
  }

  // ---- durations as they are written ---------------------------------------------------------------

  /** A duration as written: digits before "h", then digits before "m", each of them optional. */
  function WrittenText(hours: string, minutes: string): string {
    (if hours == "" then "" else hours + "h") + (if minutes == "" then "" else minutes + "m")
  }

  predicate IsWritten(hours: string, minutes: string) {
    AllDigits(hours) && AllDigits(minutes) && (hours != "" || minutes != "")
  }

  /** What a command with such a duration and a description comes to: numbers beyond the machine
      integer are refused, hours first; the sum is that of the machine; zero is refused. */
  function Outcome(v: Verb, hours: string, minutes: string, d: string): ParseResult
    requires IsWritten(hours, minutes)
  {
    var total := Wrap(Value(hours) * 60 + Value(minutes));
    if Value(hours) > 0x7FFF_FFFF_FFFF_FFFF then Rejected(InvalidHours(hours))
    else if Value(minutes) > 0x7FFF_FFFF_FFFF_FFFF then Rejected(InvalidMinutes(minutes))
    else if total == 0 then Rejected(ZeroDuration)
    else Parsed(Command(v, total, d))
  }

  lemma WrapSum(h: int, m: int)
    ensures Wrap(Wrap(h) + m) == Wrap(h + m)
  {
    assert (Wrap(h) + m - (h + m)) % TWO_64 == 0;
    SameWrapped(Wrap(h) + m, h + m);
  }

  lemma SameWrapped(a: int, b: int)
    requires (a - b) % TWO_64 == 0
    ensures Wrap(a) == Wrap(b)
  {
    var k := (a - b) / TWO_64;
    assert a == b + k * TWO_64;
    assert (a + TWO_63) % TWO_64 == (b + TWO_63 + k * TWO_64) % TWO_64;
  }

  lemma WrittenGroups(hours: string, minutes: string, tail: string) returns (s1: string)
    requires IsWritten(hours, minutes) && BlankFollows(tail)
    ensures UnitGroup(WrittenText(hours, minutes) + tail, 'h') == (hours, s1) && UnitGroup(s1, 'm') == (minutes, tail)
  {
    hide UnitGroup, AllDigits;
    var s := WrittenText(hours, minutes) + tail;
    NoDigits();
    if hours != "" && minutes != "" {
      s1 := minutes + (['m'] + tail);
      assert s == hours + (['h'] + s1);
      UnitGroupTaken(hours, 'h', s1);
      UnitGroupTaken(minutes, 'm', tail);
    } else if hours != "" {
      s1 := tail;
      assert s == hours + (['h'] + tail);
      UnitGroupTaken(hours, 'h', tail);
      UnitGroupSkipped("", 'm', tail);
      assert "" + tail == tail;
    } else {
      s1 := minutes + (['m'] + tail);
      assert s == s1;
      UnitGroupSkipped(minutes, 'h', ['m'] + tail);
      UnitGroupTaken(minutes, 'm', tail);
    }
  }

  lemma NoDigits()
    ensures AllDigits("")
  {
  }

  lemma WrittenParses(v: Verb, hours: string, minutes: string, tail: string)
    requires IsWritten(hours, minutes) && TakesDuration(v)
    requires BlankFollows(tail) && NewlineFree(SkipRegexSpace(tail))
    ensures ParseHit(v, WrittenText(hours, minutes) + tail)
         == Outcome(v, hours, minutes, TrimSpace(SkipRegexSpace(tail)))
  {
    hide UnitGroup, SkipRegexSpace, NewlineFree, Value, AllDigits, TrimSpace, Wrap, MatchDuration;
    var s1 := WrittenGroups(hours, minutes, tail);
    GroupsGiveMatch(WrittenText(hours, minutes) + tail, hours, s1, minutes, tail);
    WrapSum(Value(hours) * 60, Value(minutes));
  }

  lemma WrittenShape(hours: string, minutes: string)
    requires IsWritten(hours, minutes)
    ensures var text := WrittenText(hours, minutes);
      text != "" && IsDigit(text[0]) && NewlineFree(text) && Trimmed(text)
  {
  }

  /** Every duration that is written as digits with units, with or without a description, behind
      every verb that takes one. */
  lemma WrittenDuration(v: Verb, hours: string, minutes: string, d: string)
    requires TakesDuration(v) && IsWritten(hours, minutes) && Trimmed(d) && NewlineFree(d)
    ensures Parse(Slash(v) + " " + WrittenText(hours, minutes)) == Outcome(v, hours, minutes, "")
    ensures Parse(Slash(v) + " " + WrittenText(hours, minutes) + " " + d) == Outcome(v, hours, minutes, d)
  {
    hide Slash, TrimSpace, FindCommand, Arguments, WrittenText, IsWritten, ParseHit, Outcome, IsSpace, SkipRegexSpace;
    var f := WrittenText(hours, minutes);
    WrittenShape(hours, minutes);
    OneBlankSkipped(f);
    OneBlankSkipped(f + " " + d);
    assert Slash(v) + " " + f == Slash(v) + (" " + f);
    assert Slash(v) + " " + f + " " + d == Slash(v) + (" " + (f + " " + d));
    VerbFound(v, " " + f);
    VerbFound(v, " " + (f + " " + d));
    TrimSpaceFixed(f);
    TrimSpaceFixed(d);
    SkipRegexSpaceShape("");
    WrittenParses(v, hours, minutes, "");
    TrimSpaceFixed("");
    assert f + "" == f;
    if d == "" {
      assert f + " " + d == "" + f + " ";
      OneBlank();
      TrimSpaceBetween("", f, " ");
    } else {
      assert f + " " + d == f + (" " + d);
      DigitIsNoSpace(f[0]);
      TrimSpaceFixed(f + (" " + d));
      RegexSpaceIsSpace(d[0]);
      SkipOneBlank(d);
      WrittenParses(v, hours, minutes, " " + d);
    }
  }

  // ---- refusals ------------------------------------------------------------------------------------

  /** A verb that takes a duration is refused when only blanks follow it to the end ... */
  lemma BareVerbRefused(v: Verb, blanks: string)
    requires TakesDuration(v) && AllRegexSpace(blanks)
    ensures Parse(Slash(v) + blanks) == Rejected(MissingDuration(v))
  {
    hide Slash, FindCommand, HasNonSpace;
    VerbFound(v, blanks);
    BareVerbMissesDuration(Slash(v) + blanks) by { OnlyBlanks(blanks); }
  }

  lemma OnlyBlanks(blanks: string)
    requires AllRegexSpace(blanks)
    ensures !HasNonSpace(blanks)
  {
  }

  /** ... and when what follows does not begin with a digit: such text has no duration, which
      counts as zero. */
  lemma NoDurationRefused(v: Verb, text: string)
    requires TakesDuration(v) && text != "" && !IsDigit(text[0]) && Trimmed(text) && NewlineFree(text)
    ensures Parse(Slash(v) + " " + text) == Rejected(ZeroDuration)
  {
    hide Slash, FindCommand, Arguments, TrimSpace, SkipRegexSpace, NewlineFree, IsSpace, UnitGroup;
    RegexSpaceIsSpace(text[0]);
    OneBlankSkipped(text);
    assert Slash(v) + " " + text == Slash(v) + (" " + text);
    VerbFound(v, " " + text);
    TrimSpaceFixed(text);
    NothingTaken(text, 'h');
    NothingTaken(text, 'm');
    SkipNewlineFree(text);
    GroupsGiveMatch(text, "", text, "", text);
    NoDigitsIsZero();
  }

  lemma NothingTaken(s: string, unit: char)
    requires s != "" && !IsDigit(s[0])
    ensures UnitGroup(s, unit) == ("", s)
  {
  }

  /** The duration pattern itself never fails: what a comment captures is one line. */
  lemma FormatNeverInvalid(body: string)
    requires Parse(body).Rejected?
    ensures !Parse(body).error.InvalidFormat?
  {
    hide FindCommand, TrimSpace, FirstLine, SkipRegexSpace, MatchDuration, Value, Wrap;
    var rest := FindCommand(body).value.rest;
    var args := TrimSpace(Arguments(rest));
    TrimmedNewlineFree(Arguments(rest));
    OneLineMatches(args);
  }

  lemma TrimmedNewlineFree(s: string)
    requires NewlineFree(s)
    ensures NewlineFree(TrimSpace(s))
  {
    hide IsSpace, TrimLeft, TrimRight, AllSpace;
    var left := TrimLeft(s);
    TrimLeftShape(s);
    TrimRightShape(left);
    assert s == s[..|s| - |left|] + left;
    NewlineFreeTail(s[..|s| - |left|], left);
    assert forall i :: 0 <= i < |TrimRight(left)| ==> TrimRight(left)[i] == left[i];
  }

  /** A text without a line feed is matched, if by nothing else then by its rest. */
  lemma OneLineMatches(s: string)
    requires NewlineFree(s)
    ensures MatchDuration(s).Some?
  {
    hide MatchDuration, NewlineFree, IsDigit;
    assert Splits(s, DurationMatch("", "", s), "") by { SplitsTrivially(s); }
    DurationMatchIsPreferred(s, DurationMatch("", "", s), "");
  }

  lemma SplitsTrivially(s: string)
    requires NewlineFree(s)
    ensures Splits(s, DurationMatch("", "", s), "")
  {
    assert s == "" + ("" + ("" + s));
  }

  // ---- some comments -----------------------------------------------------------------------------------

  lemma SmallNumbers()
    ensures forall s :: s in ["1", "2", "30", "45", "90"] ==> AllDigits(s)
    ensures Value("1") == 1 && Value("2") == 2 && Value("30") == 30 && Value("45") == 45 && Value("90") == 90
  {
    assert "30"[..1] == "3" && "45"[..1] == "4" && "90"[..1] == "9";
    assert Value("3") == 3 && Value("4") == 4 && Value("9") == 9;
  }

  lemma ExampleTexts()
    ensures Slash(Log) + " " + WrittenText("2", "") + " " + "Fixed bug" == "/log 2h Fixed bug"
    ensures Slash(Plan) + " " + WrittenText("1", "30") == "/plan 1h30m"
    ensures Slash(Log) + " " + WrittenText("1", "") == "/log 1h"
    ensures Slash(Correct) + " " + WrittenText("", "30") == "/correct 30m"
    ensures Slash(Correct) + " " + WrittenText("", "45") == "/correct 45m"
  {
  }

  /** Some comments, read. */
  lemma ExampleComments()
    ensures Parse("/log 2h Fixed bug") == Parsed(Command(Log, 120, "Fixed bug"))
    ensures Parse("/plan 1h30m") == Parsed(Command(Plan, 90, ""))
    ensures Parse("/log 1h") == Parsed(Command(Log, 60, ""))
    ensures Parse("/correct 30m") == Parsed(Command(Correct, 30, ""))
    ensures Parse("/correct 45m") == Parsed(Command(Correct, 45, ""))
  {
    hide Parse, Value, Trimmed, NewlineFree, Slash, AllDigits, WrittenText;
    SmallNumbers();
    ExampleTexts();
    NoDigits();
    NoDigitsIsZero();
    OneTrimmedLine("Fixed bug");
    OneTrimmedLine("");
    WrittenDuration(Log, "2", "", "Fixed bug");
    WrittenDuration(Plan, "1", "30", "");
    WrittenDuration(Log, "1", "", "");
    WrittenDuration(Correct, "", "30", "");
    WrittenDuration(Correct, "", "45", "");
  }

  lemma OneTrimmedLine(d: string)
    requires d in ["", "Fixed bug"]
    ensures Trimmed(d) && NewlineFree(d)
  {
  }
}
