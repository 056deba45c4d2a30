/** What the parser and the printer promise together (internal/commands/parser.go). */
module CommandLaws {
  import opened Options
  import opened Columns
  import opened Text
  import opened Commands

  // ---- both patterns against leftmost-first greedy matching --------------------

  predicate AllRegexSpace(s: string) {
    forall i :: 0 <= i < |s| ==> IsRegexSpace(s[i])
  }

  function UnitText(digits: string, unit: char): string {
    if digits == "" then "" else digits + [unit]
  }

  /** m, with ws for the `\s*`, is one way the duration pattern can match all of s. */
  predicate Splits(s: string, m: DurationMatch, ws: string) {
    && AllDigits(m.hours) && AllDigits(m.minutes) && AllRegexSpace(ws) && NewlineFree(m.rest)
    && s == UnitText(m.hours, 'h') + (UnitText(m.minutes, 'm') + (ws + m.rest))
  }

  lemma UnitGroupPreferred(s: string, unit: char, digits: string, tail: string)
    requires !IsDigit(unit) && AllDigits(digits) && s == UnitText(digits, unit) + tail
    ensures s == UnitText(UnitGroup(s, unit).0, unit) + UnitGroup(s, unit).1
    ensures digits != "" ==> UnitGroup(s, unit) == (digits, tail)
    ensures digits == "" && UnitGroup(s, unit).0 != "" ==> s == tail != "" && IsDigit(s[0])
  {
    if digits != "" {
      assert s == digits + ([unit] + tail);
      LeadingDigitsStop(digits, [unit] + tail);
    }
    var d := LeadingDigits(s);
    if d != "" && |d| < |s| && s[|d|] == unit {
      assert s == d + [unit] + s[|d| + 1..];
    }
  }

  lemma {:induction false} SkipAllBlank(ws: string, more: string)
    requires AllRegexSpace(ws)
    ensures SkipRegexSpace(ws + more) == SkipRegexSpace(more)
  {
    if ws == "" {
      assert ws + more == more;
    } else {
      assert (ws + more)[1..] == ws[1..] + more;
      SkipAllBlank(ws[1..], more);
    }
  }

  /** Whatever way a match goes, the groups the scanner takes are at least as preferred, and
      what it leaves for `.*` is a tail of what that match leaves. */
  lemma GroupsPreferred(s: string, other: DurationMatch, ws: string)
    requires Splits(s, other, ws)
    ensures var (hours, s1) := UnitGroup(s, 'h');
      var (minutes, s2) := UnitGroup(s1, 'm');
      && s == UnitText(hours, 'h') + s1 && s1 == UnitText(minutes, 'm') + s2
      && (other.hours != "" ==> hours == other.hours)
      && (hours == other.hours && other.minutes != "" ==> minutes == other.minutes)
      && (hours == other.hours && minutes == other.minutes ==> s2 == ws + other.rest)
      && (hours != other.hours ==> s == other.rest)
      && (hours == other.hours && minutes != other.minutes ==> s1 == other.rest)
  {
    var (hours, s1) := UnitGroup(s, 'h');
    var otherTail := UnitText(other.minutes, 'm') + (ws + other.rest);
    UnitGroupPreferred(s, 'h', other.hours, otherTail);
    if hours == other.hours {
      assert s1 == otherTail;
      UnitGroupPreferred(s1, 'm', other.minutes, ws + other.rest);
      if UnitGroup(s1, 'm').0 != other.minutes { DigitFirst(ws, other.rest); }
    } else {
      assert s1 == UnitText("", 'm') + s1;
      UnitGroupPreferred(s1, 'm', "", s1);
      LeadingHoursForbidMinutes(s, other, ws);
    }
  }

  lemma DigitFirst(ws: string, rest: string)
    requires AllRegexSpace(ws) && ws + rest != "" && IsDigit((ws + rest)[0])
    ensures ws == ""
  {
  }

  lemma LeadingHoursForbidMinutes(s: string, other: DurationMatch, ws: string)
    requires Splits(s, other, ws) && other.hours == "" && UnitGroup(s, 'h').0 != ""
    ensures s == other.rest
  {
    if other.minutes != "" {
      assert s == other.minutes + (['m'] + (ws + other.rest));
      LeadingDigitsStop(other.minutes, ['m'] + (ws + other.rest));
    }
    DigitFirst(ws, other.rest);
  }

  /** The scanner finds no match only when there is none, and otherwise returns the one that
      leftmost-first greedy matching prefers: take the hours group if any match takes it, then
      the minutes group likewise, then as many blanks as possible. */
  lemma DurationMatchIsPreferred(s: string, other: DurationMatch, ws: string)
    requires Splits(s, other, ws)
    ensures MatchDuration(s).Some?
    ensures var m := MatchDuration(s).value;
      && (exists blanks :: Splits(s, m, blanks))
      && (other.hours != "" ==> m.hours == other.hours)
      && (m.hours == other.hours && other.minutes != "" ==> m.minutes == other.minutes)
      && (m.hours == other.hours && m.minutes == other.minutes ==> |m.rest| <= |other.rest|)
  {
    hide UnitGroup, SkipRegexSpace, NewlineFree, AllDigits, AllRegexSpace, UnitText;
    var (hours, s1) := UnitGroup(s, 'h');
    var (minutes, s2) := UnitGroup(s1, 'm');
    GroupsPreferred(s, other, ws);
    SkipRegexSpaceShape(s2);
    SkipRegexSpaceShape(other.rest);
    if hours == other.hours && minutes == other.minutes { SkipAllBlank(ws, other.rest); }
    TailOf(s, UnitText(hours, 'h'), s1, UnitText(minutes, 'm'), s2, ws, other.rest);
    var blanks := BlanksSkipped(s2);
    SplitsInto(s, hours, s1, minutes, s2, blanks, SkipRegexSpace(s2));
  }

  lemma BlanksSkipped(s: string) returns (blanks: string)
    ensures AllRegexSpace(blanks) && s == blanks + SkipRegexSpace(s)
  {
    hide IsRegexSpace, SkipRegexSpace;
    SkipRegexSpaceShape(s);
    var rest := SkipRegexSpace(s);
    blanks := s[..|s| - |rest|];
    assert s == blanks + s[|s| - |rest|..];
  }

  /** What the scanner takes is a way to match. */
  lemma SplitsInto(s: string, hours: string, s1: string, minutes: string, s2: string, blanks: string, rest: string)
    requires s == UnitText(hours, 'h') + s1 && s1 == UnitText(minutes, 'm') + s2 && s2 == blanks + rest
    requires AllDigits(hours) && AllDigits(minutes) && AllRegexSpace(blanks) && NewlineFree(rest)
    ensures Splits(s, DurationMatch(hours, minutes, rest), blanks)
  {
    hide UnitText, AllDigits, AllRegexSpace, NewlineFree;
  }

  lemma TailOf(s: string, a: string, s1: string, b: string, s2: string, ws: string, otherRest: string)
    requires s == a + s1 && s1 == b + s2 && NewlineFree(otherRest)
    requires s == otherRest || s1 == otherRest || (AllRegexSpace(ws) && s2 == ws + otherRest)
    ensures NewlineFree(SkipRegexSpace(s2))
  {
    hide *;
    if s2 == ws + otherRest && AllRegexSpace(ws) {
      SkipAllBlank(ws, otherRest);
      SkipNewlineFree(otherRest);
    } else {
      if s == otherRest { NewlineFreeTail(a, s1); }
      NewlineFreeTail(b, s2);
      SkipNewlineFree(s2);
    }
  }

  lemma NewlineFreeTail(a: string, b: string)
    requires NewlineFree(a + b)
    ensures NewlineFree(b)
  {
    assert forall i :: 0 <= i < |b| ==> b[i] == (a + b)[|a| + i];
  }

  lemma {:induction false} SkipNewlineFree(s: string)
    requires NewlineFree(s)
    ensures NewlineFree(SkipRegexSpace(s))
  {
    if s != "" { SkipNewlineFree(s[1..]); }
  }

  predicate LineStart(s: string, i: nat) {
    i <= |s| && (i == 0 || s[i - 1] == '\n')
  }

  predicate VerbAtLine(s: string, i: nat, v: Verb) {
    LineStart(s, i) && Slash(v) <= s[i..]
  }

  /** The verbs exclude one another: none is the beginning of another. */
  lemma VerbAtUnique(s: string, v: Verb)
    ensures VerbAt(s) == Some(v) <==> Slash(v) <= s
  {
    if Slash(v) <= s {
      match v
      case Log =>
      case Correct => assert s[1] == 'c';
      case Delete => assert s[1] == 'd';
      case Plan => assert s[1] == 'p';
      case Unplan => assert s[1] == 'u';
    }
  }

  lemma NoVerbOnFirstLine(s: string, i: nat, w: Verb)
    requires VerbAt(s).None? && VerbAtLine(s, i, w)
    ensures |FirstLine(s)| < i
    ensures VerbAtLine(s[|FirstLine(s)| + 1..], i - |FirstLine(s)| - 1, w)
  {
    hide VerbAt, VerbText, FirstLine;
    var line := FirstLine(s);
    assert s[0..] == s;
    VerbAtUnique(s, w);
    assert forall k :: 0 <= k < |line| ==> line[k] == s[k] && line[k] != '\n';
    assert s[|line| + 1..][i - |line| - 1..] == s[i..];
  }

  /** v is the verb of the leftmost command of s, which starts at i and is followed by rest. */
  ghost predicate LeftmostAt(s: string, i: nat, v: Verb, rest: string) {
    && VerbAtLine(s, i, v) && s[i..] == Slash(v) + rest
    && forall j: nat, w :: VerbAtLine(s, j, w) ==> i <= j
  }

  /** The scanner finds a command exactly when some line starts with a verb, and then the
      first such line, with everything behind the verb. */
  lemma {:induction false} CommandMatchIsLeftmost(s: string)
    ensures FindCommand(s).None? ==> forall i: nat, v :: !VerbAtLine(s, i, v)
    ensures FindCommand(s).Some? ==>
      exists i: nat :: LeftmostAt(s, i, FindCommand(s).value.verb, FindCommand(s).value.rest)
    decreases |s|
  {
    hide VerbAt, VerbText, FirstLine;
    var line := FirstLine(s);
    if VerbAt(s).Some? {
      assert s[0..] == s;
      assert LeftmostAt(s, 0, VerbAt(s).value, s[|Slash(VerbAt(s).value)|..]);
    } else {
      forall i: nat, w | VerbAtLine(s, i, w)
        ensures |line| < i && VerbAtLine(s[|line| + 1..], i - |line| - 1, w)
      {
        NoVerbOnFirstLine(s, i, w);
      }
      if |line| < |s| {
        var tail := s[|line| + 1..];
        CommandMatchIsLeftmost(tail);
        if FindCommand(tail).Some? {
          var Hit(v, rest) := FindCommand(tail).value;
          var i: nat :| LeftmostAt(tail, i, v, rest);
          assert s[i + |line| + 1..] == tail[i..];
          assert LeftmostAt(s, i + |line| + 1, v, rest);
        }
      }
    }
  }

  // ---- the whole command pattern ---------------------------------------------------

  /** One way for `\s*(.*)$` to match from the start of rest: ws for the blanks, args for the
      capture, which ends at a line feed or with the text. */
  predicate Captures(rest: string, ws: string, args: string) {
    && AllRegexSpace(ws) && NewlineFree(args) && ws + args <= rest
    && (|ws + args| == |rest| || rest[|ws + args|] == '\n')
  }

  /** One way for the command pattern to match: verb v at the line start i, then ws and args. */
  predicate MatchesAt(s: string, i: nat, v: Verb, ws: string, args: string) {
    VerbAtLine(s, i, v) && Captures(s[i + |Slash(v)|..], ws, args)
  }

  /** The scanner takes the most blanks any match can take, and then all of the line. */
  lemma ArgumentsPreferred(rest: string, ws: string, args: string)
    requires Captures(rest, ws, args)
    ensures |ws| + |SkipRegexSpace(rest)| <= |rest|
    ensures |ws| + |SkipRegexSpace(rest)| == |rest| ==> args == Arguments(rest)
  {
    hide IsRegexSpace, SkipRegexSpace, FirstLine;
    var more := rest[|ws|..];
    assert rest == ws + more;
    SkipAllBlank(ws, more);
    SkipRegexSpaceShape(more);
    if |SkipRegexSpace(rest)| == |more| {
      assert SkipRegexSpace(rest) == more[|more| - |more|..];
      LineTaken(rest, ws, args, more);
      FirstLineStops(args, more[|args|..]);
    }
  }

  lemma LineTaken(rest: string, ws: string, args: string, more: string)
    requires Captures(rest, ws, args) && rest == ws + more
    ensures |args| <= |more| && more == args + more[|args|..]
    ensures more[|args|..] == "" || more[|args|..][0] == '\n'
  {
    assert forall k :: 0 <= k < |args| ==> more[k] == rest[|ws| + k] == (ws + args)[|ws| + k];
  }

  lemma ArgumentsCapture(rest: string) returns (blanks: string)
    ensures Captures(rest, blanks, Arguments(rest)) && |blanks| + |SkipRegexSpace(rest)| == |rest|
  {
    hide IsRegexSpace, SkipRegexSpace, FirstLine;
    blanks := BlanksSkipped(rest);
    var args := Arguments(rest);
    assert rest == blanks + SkipRegexSpace(rest);
  }

  /** If the command pattern can match s in any way, the scanner finds a match, and the one that
      leftmost-first greedy matching prefers: it starts no later, with the same verb if it starts
      there too, then takes as many blanks as possible, and then as much of the line. */
  lemma CommandMatchIsPreferred(s: string, i: nat, v: Verb, ws: string, args: string)
    requires MatchesAt(s, i, v, ws, args)
    ensures FindCommand(s).Some?
    ensures var Hit(verb, rest) := FindCommand(s).value;
      exists j: nat, blanks :: Preferred(s, j, verb, blanks, Arguments(rest), i, v, ws, args)
  {
    hide *;
    MatchBegins(s, i, v, ws, args);
    CommandMatchIsLeftmost(s);
    var Hit(verb, rest) := FindCommand(s).value;
    var j: nat :| LeftmostAt(s, j, verb, rest);
    var blanks := ArgumentsCapture(rest);
    HitMatches(s, j, verb, rest, blanks);
    if j == i {
      SameVerb(s, i, v, verb);
      ArgumentsPreferred(rest, ws, args);
    }
    PreferredWhen(s, j, verb, blanks, Arguments(rest), i, v, ws, args);
  }

  lemma MatchBegins(s: string, i: nat, v: Verb, ws: string, args: string)
    requires MatchesAt(s, i, v, ws, args)
    ensures VerbAtLine(s, i, v) && i + |Slash(v)| <= |s| && Captures(s[i + |Slash(v)|..], ws, args)
  {
  }

  lemma PreferredWhen(s: string, j: nat, verb: Verb, blanks: string, taken: string, i: nat, v: Verb, ws: string,
        args: string)
    requires MatchesAt(s, j, verb, blanks, taken) && j <= i
    requires j == i ==> verb == v && |ws| <= |blanks| && (|ws| == |blanks| ==> args == taken)
    ensures Preferred(s, j, verb, blanks, taken, i, v, ws, args)
  {
    hide MatchesAt;
  }

  /** The match (j, verb, blanks, taken) is at least as preferred as the match (i, v, ws, args). */
  predicate Preferred(s: string, j: nat, verb: Verb, blanks: string, taken: string, i: nat, v: Verb, ws: string,
        args: string) {
    && MatchesAt(s, j, verb, blanks, taken) && j <= i
    && (j == i ==> verb == v && |ws| <= |blanks| && (|ws| == |blanks| ==> args == taken))
  }

  lemma HitMatches(s: string, j: nat, verb: Verb, rest: string, blanks: string)
    requires LeftmostAt(s, j, verb, rest) && Captures(rest, blanks, Arguments(rest))
    ensures MatchesAt(s, j, verb, blanks, Arguments(rest)) && s[j + |Slash(verb)|..] == rest
    ensures j + |Slash(verb)| <= |s|
    ensures forall i: nat, v :: VerbAtLine(s, i, v) ==> j <= i
    ensures VerbAtLine(s, j, verb)
  {
    hide Captures, Arguments, Slash;
    assert s[j..][|Slash(verb)|..] == rest;
  }

  lemma SameVerb(s: string, i: nat, v: Verb, w: Verb)
    requires VerbAtLine(s, i, v) && VerbAtLine(s, i, w)
    ensures v == w
  {
    hide VerbAt, Slash;
    VerbAtUnique(s[i..], v);
    VerbAtUnique(s[i..], w);
  }

  // ---- text around the command -------------------------------------------------

  lemma PrefixEndsBeforeNewline(w: string, pre: string, more: string)
    requires NewlineFree(w) && w <= pre + "\n" + more
    ensures w <= pre
  {
    var whole := pre + "\n" + more;
    assert whole[|pre|] == '\n';
    assert forall i :: 0 <= i < |w| ==> w[i] == whole[i] != '\n';
    assert forall i :: 0 <= i < |w| ==> w[i] == pre[i];
  }

  lemma VerbAtBeforeNewline(pre: string, more: string)
    ensures VerbAt(pre + "\n" + more) == VerbAt(pre)
  {
    var whole := pre + "\n" + more;
    forall v: Verb
      ensures Slash(v) <= whole <==> Slash(v) <= pre
    {
      if Slash(v) <= whole { PrefixEndsBeforeNewline(Slash(v), pre, more); }
    }
  }

  lemma {:induction false} FindSkipsLines(pre: string, body: string)
    requires FindCommand(pre).None?
    ensures FindCommand(pre + "\n" + body) == FindCommand(body)
    decreases |pre|
  {
    hide VerbAt, VerbText, FirstLine;
    var whole := pre + "\n" + body;
    var line := FirstLine(pre);
    VerbAtBeforeNewline(pre, body);
    FirstLineAppend(pre, body);
    if |line| < |pre| {
      var tail := pre[|line| + 1..];
      assert whole[|line| + 1..] == tail + "\n" + body;
      FindSkipsLines(tail, body);
    } else {
      assert whole[|line| + 1..] == body;
    }
  }

  /** Command-free lines in front of a comment do not change what it means. */
  lemma ParseIgnoresLinesBefore(pre: string, body: string)
    requires FindCommand(pre).None?
    ensures Parse(pre + "\n" + body) == Parse(body)
  {
    hide FindCommand, ParseHit;
    FindSkipsLines(pre, body);
  }

  lemma {:induction false} FindKeepsLinesAfter(body: string, post: string)
    requires FindCommand(body).Some?
    ensures FindCommand(body + "\n" + post)
         == Some(Hit(FindCommand(body).value.verb, FindCommand(body).value.rest + "\n" + post))
    decreases |body|
  {
    hide VerbAt, FirstLine, VerbText;
    var whole := body + "\n" + post;
    var line := FirstLine(body);
    VerbAtBeforeNewline(body, post);
    FirstLineAppend(body, post);
    if VerbAt(body).Some? {
      var v := VerbAt(body).value;
      assert whole[|Slash(v)|..] == body[|Slash(v)|..] + "\n" + post;
    } else {
      var tail := body[|line| + 1..];
      assert whole[|line| + 1..] == tail + "\n" + post;
      FindKeepsLinesAfter(tail, post);
    }
  }

  lemma ArgumentsKept(rest: string, post: string)
    requires HasNonSpace(rest)
    ensures Arguments(rest + "\n" + post) == Arguments(rest)
  {
    hide FirstLine, SkipRegexSpace;
    assert rest + "\n" + post == rest + ("\n" + post);
    SkipRegexSpaceAppend(rest, "\n" + post);
    assert SkipRegexSpace(rest) + ("\n" + post) == SkipRegexSpace(rest) + "\n" + post;
    FirstLineAppend(SkipRegexSpace(rest), post);
  }

  /** Lines behind the command change nothing when the verb takes no argument, or as soon as
      some non-blank follows the verb (on its own line, in particular). */
  lemma ParseIgnoresLinesAfter(body: string, post: string)
    requires FindCommand(body).Some?
    requires Complete(FindCommand(body).value)
    ensures Parse(body + "\n" + post) == Parse(body)
  {
    hide FindCommand, Arguments, ParseDuration, TrimSpace;
    FindKeepsLinesAfter(body, post);
    var Hit(v, rest) := FindCommand(body).value;
    if HasNonSpace(rest) { ArgumentsKept(rest, post); }
  }

  /** Otherwise the argument is looked for on the lines behind: a bare `/log` takes its duration
      from the next line, because `\s*` runs across line feeds. */
  lemma BareVerbReadsOn(body: string, post: string)
    requires FindCommand(body).Some? && !HasNonSpace(FindCommand(body).value.rest)
    ensures Parse(body + "\n" + post)
         == ParseHit(FindCommand(body).value.verb, TrimSpace(FirstLine(SkipRegexSpace(post))))
  {
    hide FindCommand, FirstLine, SkipRegexSpace, ParseHit, TrimSpace;
    FindKeepsLinesAfter(body, post);
    var rest := FindCommand(body).value.rest;
    SkipAllBlank(rest + "\n", post);
  }

  /** The verb takes no argument, or some non-blank follows it. */
  predicate Complete(hit: Hit) {
    hit.verb.Delete? || hit.verb.Unplan? || HasNonSpace(hit.rest)
  }

  /** What comes behind the command is ignored, whatever it is, if and only if the verb takes no
      argument or some non-blank follows it. */
  lemma LinesAfterIgnoredIff(body: string)
    requires FindCommand(body).Some?
    ensures (forall post :: Parse(body + "\n" + post) == Parse(body)) <==> Complete(FindCommand(body).value)
  {
    hide Parse, FindCommand, HasNonSpace, ParseHit;
    if Complete(FindCommand(body).value) {
      forall post
        ensures Parse(body + "\n" + post) == Parse(body)
      {
        ParseIgnoresLinesAfter(body, post);
      }
    } else {
      BareVerbReadsOn(body, "x");
      LetterIsArgument();
      BareVerbMissesDuration(body);
      NeverMissing(FindCommand(body).value.verb);
    }
  }

  lemma LetterIsArgument()
    ensures TrimSpace(FirstLine(SkipRegexSpace("x"))) == "x"
  {
    assert FirstLine("x") == "x";
    TrimSpaceFixed("x");
  }

  lemma BareVerbMissesDuration(body: string)
    requires FindCommand(body).Some? && !Complete(FindCommand(body).value)
    ensures Parse(body) == Rejected(MissingDuration(FindCommand(body).value.verb))
  {
    hide FindCommand, FirstLine, SkipRegexSpace, TrimSpace, ParseDuration;
    var rest := FindCommand(body).value.rest;
    SkipAllBlank(rest, "");
    assert rest + "" == rest;
    SkipRegexSpaceShape("");
    TrimSpaceFixed("");
  }

  lemma NeverMissing(v: Verb)
    requires !v.Delete? && !v.Unplan?
    ensures ParseHit(v, "x") != Rejected(MissingDuration(v))
  {
    hide MatchDuration, TrimSpace, Wrap, Value;
  }

  // ---- the number of minutes -----------------------------------------------------

  predicate TakesDuration(v: Verb) {
    v.Log? || v.Correct? || v.Plan?
  }

  /** The number the digits of a matched duration denote. */
  function Written(m: DurationMatch): nat
    requires AllDigits(m.hours) && AllDigits(m.minutes)
  {
    Value(m.hours) * 60 + Value(m.minutes)
  }

  /** An accepted duration is never zero, and it is the number written exactly when
      hours*60 + minutes fits the machine integer; then it is at least one minute. */
  lemma AcceptedMinutes(s: string)
    requires ParseDuration(s).Accepted?
    ensures MatchDuration(s).Some?
    ensures var n := ParseDuration(s).minutes;
      var written := Written(MatchDuration(s).value);
      && n != 0 && IsInt(n)
      && (n == written <==> written <= MAX_INT)
      && (written <= MAX_INT ==> n >= 1)
  {
    hide MatchDuration, Value, TrimSpace;
  }

  /** A command that carries a duration never carries zero minutes. */
  lemma ParsedMinutes(body: string)
    requires Parse(body).Parsed?
    ensures TakesDuration(Parse(body).command.verb) ==> Parse(body).command.minutes != 0
  {
    hide MatchDuration, Value, TrimSpace, FindCommand, Wrap, Arguments;
  }

  /** The unchecked product does overflow: 153722867280912931 hours are accepted as a negative
      number of minutes. */
  lemma OverflowAccepted()
    ensures ParseDuration(Decimal(153722867280912931) + "h") == Accepted(-9223372036854775756, "")
  {
    hide Decimal, Value, TrimSpace, MatchDuration;
    HoursOnly(153722867280912931);
    TrimSpaceFixed("");
    NoDigitsIsZero();
  }

  /** And it can wrap to a number that is stored: 3381903080180084463 hours are logged as 4 minutes. */
  lemma OverflowStored()
    ensures Parse("/log " + (Decimal(3381903080180084463) + "h")) == Parsed(Command(Log, 4, ""))
    ensures FitsInt4(4)
  {
    hide Parse, Slash;
    OverflowLogged();
    VerbTexts();
  }

  lemma OverflowLogged()
    ensures Parse(Slash(Log) + " " + (Decimal(3381903080180084463) + "h")) == Parsed(Command(Log, 4, ""))
  {
    hide Decimal, Value, TrimSpace, MatchDuration, FindCommand, Arguments, Slash, ParseDuration, NewlineFree, IsSpace;
    var digits := Decimal(3381903080180084463);
    var text := digits + "h";
    assert Slash(Log) + " " + text == Slash(Log) + (" " + text);
    VerbFound(Log, " " + text);
    HoursText(digits);
    OneBlankSkipped(text);
    TrimSpaceFixed(text);
    WrapsToFour();
  }

  lemma HoursText(digits: string)
    requires digits != "" && AllDigits(digits)
    ensures !IsRegexSpace((digits + "h")[0]) && NewlineFree(digits + "h") && Trimmed(digits + "h")
  {
  }

  lemma WrapsToFour()
    ensures ParseDuration(Decimal(3381903080180084463) + "h") == Accepted(4, "")
  {
    hide Decimal, Value, TrimSpace, MatchDuration;
    HoursOnly(3381903080180084463);
    TrimSpaceFixed("");
    NoDigitsIsZero();
  }

  lemma NoDigitsIsZero()
    ensures Value("") == 0
  {
  }

  lemma HoursOnly(h: nat)
    ensures MatchDuration(Decimal(h) + "h") == Some(DurationMatch(Decimal(h), "", ""))
  {
    hide Decimal, Value;
    assert Decimal(h) + "h" == Decimal(h) + (['h'] + "");
    UnitGroupTaken(Decimal(h), 'h', "");
    assert UnitGroup("", 'm') == ("", "");
  }

  // ---- print, then parse -----------------------------------------------------------

  /** A group is taken when its digits and unit come first ... */
  lemma UnitGroupTaken(digits: string, unit: char, tail: string)
    requires digits != "" && AllDigits(digits) && !IsDigit(unit)
    ensures UnitGroup(digits + ([unit] + tail), unit) == (digits, tail)
  {
    var s := digits + ([unit] + tail);
    LeadingDigitsStop(digits, [unit] + tail);
    assert s[|digits| + 1..] == tail;
  }

  /** ... and skipped when the digits come with another unit, or there are none. */
  lemma UnitGroupSkipped(digits: string, unit: char, tail: string)
    requires AllDigits(digits) && (tail == "" || (!IsDigit(tail[0]) && tail[0] != unit))
    ensures UnitGroup(digits + tail, unit) == ("", digits + tail)
  {
    LeadingDigitsStop(digits, tail);
  }

  /** Nothing, or a blank that ends the duration. */
  predicate BlankFollows(tail: string) {
    tail == "" || tail[0] == ' '
  }

  /** FormatDuration, in every case: a negative number prints the minutes Go's remainder leaves. */
  lemma PrintedText(n: int)
    ensures FormatDuration(n)
      == if n >= 60 && n % 60 > 0 then Decimal(n / 60) + "h" + Decimal(n % 60) + "m"
         else if n >= 60 then Decimal(n / 60) + "h"
         else if n >= 0 then Decimal(n) + "m"
         else if -n % 60 == 0 then "0m"
         else "-" + Decimal(-n % 60) + "m"
  {
    hide Decimal;
    if n >= 0 { assert Rem(n, 60) == n % 60; } else { assert Rem(n, 60) == -(-n % 60); }
    ZeroPrints();
  }

  lemma ZeroPrints()
    ensures Decimal(0) == "0"
  {
  }

  /** The groups a printed duration matches, with what the hours group leaves. */
  lemma PrintedGroups(n: int, tail: string) returns (hours: string, s1: string, minutes: string)
    requires 1 <= n <= MAX_INT
    requires BlankFollows(tail)
    ensures UnitGroup(FormatDuration(n) + tail, 'h') == (hours, s1) && UnitGroup(s1, 'm') == (minutes, tail)
    ensures AllDigits(hours) && AllDigits(minutes) && Value(hours) * 60 + Value(minutes) == n
  {
    hide UnitGroup, Decimal, Value, FormatDuration, AllDigits;
    var h, m := n / 60, n % 60;
    NoDigitsIsZero();
    PrintedText(n);
    if h > 0 && m > 0 {
      hours, s1, minutes := Decimal(h), Decimal(m) + (['m'] + tail), Decimal(m);
      assert FormatDuration(n) + tail == Decimal(h) + (['h'] + s1);
      UnitGroupTaken(hours, 'h', s1);
      UnitGroupTaken(minutes, 'm', tail);
    } else if h > 0 {
      hours, s1, minutes := Decimal(h), tail, "";
      assert FormatDuration(n) + tail == Decimal(h) + (['h'] + tail);
      UnitGroupTaken(hours, 'h', tail);
      UnitGroupSkipped("", 'm', tail);
      assert "" + tail == tail;
    } else {
      hours, s1, minutes := "", Decimal(m) + (['m'] + tail), Decimal(m);
      assert FormatDuration(n) + tail == s1;
      UnitGroupSkipped(minutes, 'h', ['m'] + tail);
      UnitGroupTaken(minutes, 'm', tail);
    }
  }

  lemma PrintedDurationShape(n: int)
    requires n >= 0
    ensures FormatDuration(n) != "" && IsDigit(FormatDuration(n)[0])
    ensures NewlineFree(FormatDuration(n)) && Trimmed(FormatDuration(n))
  {
    hide Decimal, Value;
    var h, m := n / 60, n % 60;
    assert NewlineFree(Decimal(h)) && NewlineFree(Decimal(m));
  }

  /** What the two groups leave decides the whole match. */
  lemma GroupsGiveMatch(s: string, hours: string, s1: string, minutes: string, tail: string)
    requires UnitGroup(s, 'h') == (hours, s1) && UnitGroup(s1, 'm') == (minutes, tail)
    requires NewlineFree(SkipRegexSpace(tail))
    ensures AllDigits(hours) && AllDigits(minutes)
    ensures MatchDuration(s) == Some(DurationMatch(hours, minutes, SkipRegexSpace(tail)))
    ensures Written(MatchDuration(s).value) == Value(hours) * 60 + Value(minutes)
  {
    hide UnitGroup, SkipRegexSpace, NewlineFree, Value, AllDigits;
  }

  lemma PrintedDurationMatch(n: int, tail: string)
    requires 1 <= n <= MAX_INT
    requires BlankFollows(tail) && NewlineFree(SkipRegexSpace(tail))
    ensures var m := MatchDuration(FormatDuration(n) + tail);
      m.Some? && m.value.rest == SkipRegexSpace(tail) && Written(m.value) == n
  {
    hide *;
    var hours, s1, minutes := PrintedGroups(n, tail);
    GroupsGiveMatch(FormatDuration(n) + tail, hours, s1, minutes, tail);
  }

  /** A match whose number is positive and fits is accepted as that number. */
  lemma FittingAccepted(s: string, m: DurationMatch)
    requires AllDigits(m.hours) && AllDigits(m.minutes)
    requires MatchDuration(s) == Some(m) && 1 <= Written(m) <= MAX_INT
    ensures ParseDuration(s) == Accepted(Written(m), TrimSpace(m.rest))
  {
    hide MatchDuration, Value, TrimSpace, Wrap, AllDigits;
    assert Wrap(Value(m.hours) * 60) == Value(m.hours) * 60;
  }

  lemma PrintedDurationAccepted(n: int, tail: string)
    requires 1 <= n <= MAX_INT
    requires BlankFollows(tail) && NewlineFree(SkipRegexSpace(tail))
    ensures ParseDuration(FormatDuration(n) + tail) == Accepted(n, TrimSpace(SkipRegexSpace(tail)))
  {
    hide *;
    PrintedDurationMatch(n, tail);
    FittingAccepted(FormatDuration(n) + tail, MatchDuration(FormatDuration(n) + tail).value);
  }

  /** A printed duration, with or without a description behind it, parses to the same minutes
      and description, whatever the description looks like. */
  lemma PrintedDurationParses(n: int, d: string)
    requires 1 <= n <= MAX_INT && Trimmed(d) && NewlineFree(d)
    ensures ParseDuration(TrimSpace(FormatDuration(n) + " " + d)) == Accepted(n, d)
  {
    hide FormatDuration, ParseDuration, TrimSpace, NewlineFree, IsSpace, IsDigit, SkipRegexSpace;
    var f := FormatDuration(n);
    PrintedDurationShape(n);
    TrimSpaceFixed(d);
    if d == "" {
      assert f + " " + d == "" + f + " ";
      OneBlank();
      TrimSpaceBetween("", f, " ");
      SkipRegexSpaceShape("");
      PrintedDurationAccepted(n, "");
      assert f + "" == f;
    } else {
      assert f + " " + d == f + (" " + d);
      DigitIsNoSpace(f[0]);
      TrimSpaceFixed(f + (" " + d));
      RegexSpaceIsSpace(d[0]);
      SkipOneBlank(d);
      PrintedDurationAccepted(n, " " + d);
    }
  }

  lemma OneBlank()
    ensures AllSpace(" ")
  {
  }

  lemma DigitIsNoSpace(c: char)
    requires IsDigit(c)
    ensures !IsSpace(c)
  {
  }

  lemma RegexSpaceIsSpace(c: char)
    ensures IsRegexSpace(c) ==> IsSpace(c)
  {
  }

  lemma SkipOneBlank(d: string)
    requires d != "" && !IsRegexSpace(d[0])
    ensures SkipRegexSpace(" " + d) == SkipRegexSpace(d) == d
  {
    assert (" " + d)[1..] == d;
  }

  lemma OneBlankSkipped(text: string)
    requires text != "" && !IsRegexSpace(text[0]) && NewlineFree(text)
    ensures Arguments(" " + text) == text
  {
    hide SkipRegexSpace, FirstLine, IsRegexSpace, NewlineFree;
    SkipOneBlank(text);
    assert text + "" == text;
    FirstLineStops(text, "");
  }

  /** Print/parse round trip for the three verbs that take a duration. */
  lemma PrintParseRoundTrip(n: int, d: string)
    requires 1 <= n <= MAX_INT && Trimmed(d) && NewlineFree(d)
    ensures Parse("/log " + FormatDuration(n) + " " + d) == Parsed(Command(Log, n, d))
    ensures Parse("/correct " + FormatDuration(n) + " " + d) == Parsed(Command(Correct, n, d))
    ensures Parse("/plan " + FormatDuration(n) + " " + d) == Parsed(Command(Plan, n, d))
  {
    hide Parse, FormatDuration, Trimmed, NewlineFree;
    VerbTexts();
    VerbRoundTrip(Log, n, d);
    VerbRoundTrip(Correct, n, d);
    VerbRoundTrip(Plan, n, d);
  }

  /** The texts of the verbs. */
  lemma VerbTexts()
    ensures Slash(Log) == "/log" && Slash(Correct) == "/correct" && Slash(Delete) == "/delete"
    ensures Slash(Plan) == "/plan" && Slash(Unplan) == "/unplan"
    ensures Slash(Log) + " " == "/log " && Slash(Correct) + " " == "/correct " && Slash(Plan) + " " == "/plan "
  {
  }

  lemma VerbRoundTrip(v: Verb, n: int, d: string)
    requires TakesDuration(v) && 1 <= n <= MAX_INT && Trimmed(d) && NewlineFree(d)
    ensures Parse(Slash(v) + " " + FormatDuration(n) + " " + d) == Parsed(Command(v, n, d))
  {
    hide FormatDuration, ParseDuration, TrimSpace, FindCommand, Arguments, Slash;
    var text := FormatDuration(n) + " " + d;
    PrintedDurationShape(n);
    assert Slash(v) + " " + FormatDuration(n) + " " + d == Slash(v) + (" " + text);
    VerbFound(v, " " + text);
    OneBlankSkipped(text);
    PrintedDurationParses(n, d);
    EmptyDurationRefused();
  }

  lemma EmptyDurationRefused()
    ensures ParseDuration("").Refused?
  {
    assert MatchDuration("") == Some(DurationMatch("", "", ""));
    assert Value("") == 0;
  }

  lemma VerbFound(v: Verb, rest: string)
    ensures FindCommand(Slash(v) + rest) == Some(Hit(v, rest))
  {
    var s := Slash(v) + rest;
    assert s[|Slash(v)|..] == rest;
    VerbAtUnique(s, v);
  }

  /** Two non-negative durations that print alike are equal. */
  lemma FormatDurationInjective(a: int, b: int)
    requires 0 <= a <= MAX_INT && 0 <= b <= MAX_INT && FormatDuration(a) == FormatDuration(b)
    ensures a == b
  {
    hide FormatDuration, ParseDuration, TrimSpace;
    if a > 0 { PrintedDurationParses(a, ""); } else { ZeroRefused(); }
    if b > 0 { PrintedDurationParses(b, ""); } else { ZeroRefused(); }
    TrimSpaceFixed("");
  }

  lemma ZeroRefused()
    ensures ParseDuration(TrimSpace(FormatDuration(0) + " " + "")).Refused?
  {
    hide Value, TrimSpace, ParseDuration, FormatDuration, IsSpace;
    var f := FormatDuration(0);
    PrintedDurationShape(0);
    assert f + " " + "" == "" + f + " ";
    OneBlank();
    TrimSpaceBetween("", f, " ");
    ZeroMinutesRefused();
  }

  lemma ZeroMinutesRefused()
    ensures ParseDuration(FormatDuration(0)).Refused?
  {
    hide Value, TrimSpace, MatchDuration;
    assert FormatDuration(0) == Decimal(0) + "m";
    MinutesOnly(0);
    NoDigitsIsZero();
  }

  lemma MinutesOnly(m: nat)
    ensures MatchDuration(Decimal(m) + "m") == Some(DurationMatch("", Decimal(m), ""))
  {
    hide Decimal, Value, UnitGroup;
    assert Decimal(m) + "m" == Decimal(m) + (['m'] + "");
    UnitGroupSkipped(Decimal(m), 'h', ['m'] + "");
    UnitGroupTaken(Decimal(m), 'm', "");
  }
}
