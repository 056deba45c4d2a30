/** The slash-command parser and the duration printer (internal/commands/parser.go).

    The two regular expressions are written out as scanners. `CommandMatchIsLeftmost` and
    `DurationMatchIsPreferred` state, independently of the scanners, what Go's leftmost-first
    greedy matching promises. */
module Commands {
  import opened Options
  import opened Text

  datatype Verb = Log | Correct | Delete | Plan | Unplan

  datatype Command = Command(verb: Verb, minutes: int, description: string)

  datatype ParseError =
    | MissingDuration(verb: Verb)
    | InvalidFormat(text: string)
    | InvalidHours(digits: string)
    | InvalidMinutes(digits: string)
    | ZeroDuration

  /** `Parse` returns (nil, nil), (cmd, nil) or (nil, err). */
  datatype ParseResult = NoCommand | Parsed(command: Command) | Rejected(error: ParseError)

  datatype DurationResult = Accepted(minutes: int, description: string) | Refused(error: ParseError)

  // ---- machine integers -------------------------------------------------------

  const MAX_INT: int := 0x7FFF_FFFF_FFFF_FFFF

  const TWO_63: int := 0x8000_0000_0000_0000
  const TWO_64: int := 0x1_0000_0000_0000_0000

  predicate IsInt(n: int) {
    -TWO_63 <= n < TWO_63
  }

  /** The value a 64-bit Go `int` holds after an operation whose exact result is n. */
  function Wrap(n: int): (r: int)
    ensures IsInt(r) && (r - n) % TWO_64 == 0
    ensures IsInt(n) ==> r == n
  {
    (n + TWO_63) % TWO_64 - TWO_63
  }

  /** Go's `/` truncates toward zero. */
  function Quot(a: int, b: int): int
    requires b > 0
  {
    if a >= 0 then a / b else -((-a) / b)
  }

  /** Go's `%` takes the sign of its left operand. */
  function Rem(a: int, b: int): int
    requires b > 0
  {
    a - b * Quot(a, b)
  }

  // ---- decimal digits ---------------------------------------------------------

  predicate IsDigit(c: char) {
    '0' <= c <= '9'
  }

  predicate AllDigits(s: string) {
    forall i :: 0 <= i < |s| ==> IsDigit(s[i])
  }

  /** The number a string of decimal digits denotes. */
  function Value(s: string): nat
    requires AllDigits(s)
  {
    if s == "" then 0 else Value(s[..|s| - 1]) * 10 + (s[|s| - 1] - '0') as int
  }

  /** `strconv.Atoi` on a string of digits: an error when the number exceeds the int range. */
  function Atoi(s: string): Option<nat>
    requires AllDigits(s)
  {
    if Value(s) <= MAX_INT then Some(Value(s)) else None
  }

  /** `%d` of a non-negative number. */
  function Decimal(n: nat): (s: string)
    ensures s != "" && AllDigits(s) && Value(s) == n
    ensures s[0] == '0' ==> n == 0 && s == "0"
  {
    var last := [(n % 10) as char + '0'];
    if n < 10 then last else Decimal(n / 10) + last
  }

  function FormatInt(n: int): string {
    if n < 0 then "-" + Decimal(-n) else Decimal(n)
  }

  /** The longest run of digits s starts with: a greedy `\d+`, or "" when there is none. */
  function LeadingDigits(s: string): (r: string)
    ensures r <= s && AllDigits(r)
    ensures |r| < |s| ==> !IsDigit(s[|r|])
  {
    if s == "" || !IsDigit(s[0]) then "" else [s[0]] + LeadingDigits(s[1..])
  }

  lemma {:induction false} LeadingDigitsStop(d: string, tail: string)
    requires AllDigits(d) && (tail == "" || !IsDigit(tail[0]))
    ensures LeadingDigits(d + tail) == d
  {
    if d == "" {
      assert d + tail == tail;
    } else {
      assert (d + tail)[1..] == d[1..] + tail;
      LeadingDigitsStop(d[1..], tail);
    }
  }

  // ---- the duration pattern ---------------------------------------------------

  /** The captures of the duration pattern; "" for a group that took no part. */
  datatype DurationMatch = DurationMatch(hours: string, minutes: string, rest: string)

  /** One optional group `(?:(\d+)u)?` at the start of s: its capture and what follows. */
  function UnitGroup(s: string, unit: char): (r: (string, string))
    ensures AllDigits(r.0)
  {
    var digits := LeadingDigits(s);
    if digits != "" && |digits| < |s| && s[|digits|] == unit
    then (digits, s[|digits| + 1..])
    else ("", s)
  }

  /** `^(?:(\d+)h)?(?:(\d+)m)?\s*(.*)$` */
  function MatchDuration(s: string): (r: Option<DurationMatch>)
    ensures r.Some? ==> AllDigits(r.value.hours) && AllDigits(r.value.minutes)
  {
    var (hours, afterHours) := UnitGroup(s, 'h');
    var (minutes, afterMinutes) := UnitGroup(afterHours, 'm');
    var rest := SkipRegexSpace(afterMinutes);
    if NewlineFree(rest) then Some(DurationMatch(hours, minutes, rest)) else None
  }

  function ParseDuration(s: string): DurationResult {
    match MatchDuration(s)
    case None => Refused(InvalidFormat(s))
    case Some(m) =>
      if Atoi(m.hours).None? then Refused(InvalidHours(m.hours))
      else if Atoi(m.minutes).None? then Refused(InvalidMinutes(m.minutes))
      else
        var total := Wrap(Wrap(Value(m.hours) * 60) + Value(m.minutes));
        if total == 0 then Refused(ZeroDuration)
        else Accepted(total, TrimSpace(m.rest))
  }

  // ---- the command pattern ----------------------------------------------------

  function VerbText(v: Verb): (r: string)
    ensures NewlineFree(r)
  {
    match v
    case Log => "log"
    case Correct => "correct"
    case Delete => "delete"
    case Plan => "plan"
    case Unplan => "unplan"
  }

  function Slash(v: Verb): string {
    "/" + VerbText(v)
  }

  /** The alternation `/(log|correct|delete|plan|unplan)` tried at the start of s. */
  function VerbAt(s: string): (r: Option<Verb>)
    ensures r.Some? ==> Slash(r.value) <= s
  {
    if Slash(Log) <= s then Some(Log)
    else if Slash(Correct) <= s then Some(Correct)
    else if Slash(Delete) <= s then Some(Delete)
    else if Slash(Plan) <= s then Some(Plan)
    else if Slash(Unplan) <= s then Some(Unplan)
    else None
  }

  /** A verb found at the start of a line, and all the text behind it. */
  datatype Hit = Hit(verb: Verb, rest: string)

  /** The leftmost line start that holds a verb; s itself begins at a line start. */
  function FindCommand(s: string): Option<Hit>
    decreases |s|
  {
    match VerbAt(s)
    case Some(v) => Some(Hit(v, s[|Slash(v)|..]))
    case None =>
      var line := FirstLine(s);
      if |line| < |s| then FindCommand(s[|line| + 1..]) else None
  }

  /** What `\s*(.*)$` captures behind the verb; the blanks may span line feeds. */
  function Arguments(rest: string): string {
    FirstLine(SkipRegexSpace(rest))
  }

  /** Parse once a verb is found: the verbs without a duration ignore their arguments. */
  function ParseHit(v: Verb, args: string): ParseResult {
    if v.Delete? || v.Unplan? then Parsed(Command(v, 0, ""))
    else if args == "" then Rejected(MissingDuration(v))
    else
      match ParseDuration(args)
      case Refused(e) => Rejected(e)
      case Accepted(minutes, description) => Parsed(Command(v, minutes, description))
  }

  function Parse(body: string): ParseResult {
    match FindCommand(body)
    case None => NoCommand
    case Some(hit) => ParseHit(hit.verb, TrimSpace(Arguments(hit.rest)))
  }

  /** FormatDuration: e.g. 90 prints as 1h30m. */
  function FormatDuration(minutes: int): string {
    var h := Quot(minutes, 60);
    var m := Rem(minutes, 60);
    if h > 0 && m > 0 then FormatInt(h) + "h" + FormatInt(m) + "m"
    else if h > 0 then FormatInt(h) + "h"
    else FormatInt(m) + "m"
  }
}
