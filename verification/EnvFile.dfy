/** mergeEnvFile: a line-oriented update of a .env file (cmd/billbird/init.go). */
module EnvFile {
  import opened Options
  import opened Text

  // ---- reading and writing lines ---------------------------------------------------------

  /** bufio.ScanLines drops one carriage return from the end of each line. */
  function DropCR(line: string): string {
    if line != "" && line[|line| - 1] == '\r' then line[..|line| - 1] else line
  }

  function ScanLines(text: string): seq<string>
    decreases |text|
  {
    if text == "" then []
    else
      var line := FirstLine(text);
      [DropCR(line)] + (if |line| < |text| then ScanLines(text[|line| + 1..]) else [])
  }

  /** The lines with line feeds between them. */
  function Join(lines: seq<string>): string {
    if lines == [] then ""
    else if |lines| == 1 then lines[0]
    else lines[0] + "\n" + Join(lines[1..])
  }

  function Render(lines: seq<string>): string {
    Join(lines) + "\n"
  }

  // ---- one line ---------------------------------------------------------------------------------

  /** The text without leading spaces and tabs. */
  function TrimBlanks(s: string): string {
    if s != "" && (s[0] == ' ' || s[0] == '\t') then TrimBlanks(s[1..]) else s
  }

  function IndexOf(s: string, c: char): (r: Option<nat>)
    ensures r.Some? ==> r.value < |s| && s[r.value] == c && c !in s[..r.value]
    ensures r.None? ==> c !in s
  {
    if s == "" then None
    else if s[0] == c then Some(0)
    else
      match IndexOf(s[1..], c)
      case None => None
      case Some(k) => assert s[..k + 1] == [s[0]] + s[1..][..k]; Some(k + 1)
  }

  datatype Assignment = Assignment(key: string, value: string)

  /** The assignment on a line; none on a blank line, a comment or a line without '='. */
  function Parsed(line: string): Option<Assignment> {
    var trimmed := TrimBlanks(line);
    if trimmed == "" || trimmed[0] == '#' then None
    else
      match IndexOf(trimmed, '=')
      case None => None
      case Some(eq) => Some(Assignment(TrimSpace(trimmed[..eq]), TrimSpace(trimmed[eq + 1..])))
  }

  /** The update key a line assigns, if it does. */
  function Target(line: string, updates: map<string, string>): Option<string> {
    match Parsed(line)
    case None => None
    case Some(a) => if a.key in updates then Some(a.key) else None
  }

  /** A line that already gives an update key a value, which a merge without force respects. */
  predicate Protected(line: string, updates: map<string, string>, force: bool) {
    Target(line, updates).Some? && Parsed(line).value.value != "" && !force
  }

  predicate Replaced(line: string, updates: map<string, string>, force: bool) {
    Target(line, updates).Some? && !Protected(line, updates, force)
  }

  function AssignmentLine(key: string, updates: map<string, string>): string
    requires key in updates
  {
    key + "=" + updates[key]
  }

  // ---- the whole merge --------------------------------------------------------------------------------

  /** Update keys that some line assigns. */
  function SeenKeys(lines: seq<string>, updates: map<string, string>): set<string> {
    set i | 0 <= i < |lines| && Target(lines[i], updates).Some? :: Target(lines[i], updates).value
  }

  /** Some line assigns the key and keeps its value. */
  predicate KeptSomewhere(lines: seq<string>, updates: map<string, string>, force: bool, key: string) {
    exists i :: 0 <= i < |lines| && Target(lines[i], updates) == Some(key) && Protected(lines[i], updates, force)
  }

  /** Some line assigns the key and is replaced. */
  predicate ReplacedSomewhere(lines: seq<string>, updates: map<string, string>, force: bool, key: string) {
    exists i :: 0 <= i < |lines| && Target(lines[i], updates) == Some(key) && Replaced(lines[i], updates, force)
  }

  predicate Distinct(keys: seq<string>) {
    forall i, j :: 0 <= i < j < |keys| ==> keys[i] != keys[j]
  }

  /** The lines of the existing file; none when there is no file. */
  function LinesOf(existing: Option<string>): seq<string> {
    match existing case None => [] case Some(text) => ScanLines(text)
  }

  lemma SeenKeysSnoc(lines: seq<string>, line: string, updates: map<string, string>, force: bool)
    ensures SeenKeys(lines + [line], updates)
      == SeenKeys(lines, updates) + (match Target(line, updates) case None => {} case Some(k) => {k})
    ensures forall k :: KeptSomewhere(lines + [line], updates, force, k) <==>
      (KeptSomewhere(lines, updates, force, k) || (Target(line, updates) == Some(k) && Protected(line, updates, force)))
    ensures forall k :: ReplacedSomewhere(lines + [line], updates, force, k) <==>
      (ReplacedSomewhere(lines, updates, force, k) ||
        (Target(line, updates) == Some(k) && Replaced(line, updates, force)))
  {
    hide Target, Protected, Replaced;
    var longer := lines + [line];
    assert longer[|lines|] == line;
    assert forall i :: 0 <= i < |lines| ==> longer[i] == lines[i];
  }

  /** The update loop over the lines of the existing file. */
  method MergeLines(input: seq<string>, updates: map<string, string>, force: bool)
    returns (lines: seq<string>, written: seq<string>, skipped: seq<string>, seen: set<string>)
    ensures IsMergeOfLines(input, updates, force, lines)
    ensures seen == SeenKeys(input, updates)
    ensures forall k :: k in skipped <==> KeptSomewhere(input, updates, force, k)
    ensures forall k :: k in written <==> ReplacedSomewhere(input, updates, force, k)
  {
    hide Parsed, KeptSomewhere, ReplacedSomewhere, SeenKeys, IsMergeOfLines;
    lines, written, skipped, seen := [], [], [], {};
    NothingYet(updates, force);
    for n := 0 to |input|
      invariant IsMergeOfLines(input[..n], updates, force, lines)
      invariant seen == SeenKeys(input[..n], updates)
      invariant forall k :: k in skipped <==> KeptSomewhere(input[..n], updates, force, k)
      invariant forall k :: k in written <==> ReplacedSomewhere(input[..n], updates, force, k)
    {
      var line := input[n];
      assert input[..n + 1] == input[..n] + [line];
      SeenKeysSnoc(input[..n], line, updates, force);
      ghost var before := lines;
      var parsed := Parsed(line);
      if parsed.None? || parsed.value.key !in updates {
        lines := lines + [line];
      } else {
        var key := parsed.value.key;
        seen := seen + {key};
        if parsed.value.value != "" && !force {
          skipped := skipped + [key];
          lines := lines + [line];
        } else {
          lines := lines + [key + "=" + updates[key]];
          written := written + [key];
        }
      }
      MergeSnoc(input[..n], line, updates, force, before, lines[|before|]);
      assert lines == before + [lines[|before|]];
    }
    assert input[..|input|] == input;
  }

  /** The existing lines, each kept or replaced where it stands. */
  predicate IsMergeOfLines(input: seq<string>, updates: map<string, string>, force: bool, lines: seq<string>) {
    && |lines| == |input|
    && forall i :: 0 <= i < |input| ==> IsMergeOfLine(input[i], updates, force, lines[i])
  }

  predicate IsMergeOfLine(line: string, updates: map<string, string>, force: bool, merged: string) {
    if Replaced(line, updates, force) then merged == AssignmentLine(Target(line, updates).value, updates)
    else merged == line
  }

  lemma NothingYet(updates: map<string, string>, force: bool)
    ensures SeenKeys([], updates) == {} && IsMergeOfLines([], updates, force, [])
    ensures forall k :: !KeptSomewhere([], updates, force, k) && !ReplacedSomewhere([], updates, force, k)
  {
  }

  lemma MergeSnoc(input: seq<string>, line: string, updates: map<string, string>, force: bool, lines: seq<string>,
        merged: string)
    requires IsMergeOfLines(input, updates, force, lines) && IsMergeOfLine(line, updates, force, merged)
    ensures IsMergeOfLines(input + [line], updates, force, lines + [merged])
  {
    hide IsMergeOfLine;
  }

  ghost predicate Covers(keys: seq<string>, s: set<string>) {
    forall k :: k in keys <==> k in s
  }

  predicate AreAssignments(keys: seq<string>, updates: map<string, string>, lines: seq<string>) {
    && |lines| == |keys|
    && forall i :: 0 <= i < |keys| ==> keys[i] in updates && lines[i] == AssignmentLine(keys[i], updates)
  }

  /** The keys nobody assigned yet; Go ranges over the updates in no particular order. */
  method AppendMissing(updates: map<string, string>, seen: set<string>) returns (keys: seq<string>, lines: seq<string>)
    ensures Distinct(keys) && Covers(keys, updates.Keys - seen)
    ensures AreAssignments(keys, updates, lines)
  {
    keys, lines := [], [];
    var missing := updates.Keys - seen;
    while missing != {}
      invariant missing <= updates.Keys - seen && Distinct(keys)
      invariant Covers(keys, updates.Keys - seen - missing)
      invariant AreAssignments(keys, updates, lines)
      decreases |missing|
    {
      var k :| k in missing;
      missing := missing - {k};
      keys := keys + [k];
      lines := lines + [k + "=" + updates[k]];
    }
  }

  /** `out` is what a merge of `lines` may leave in the file: each line kept or replaced in
      place, then one assignment for every key no line assigns, in some order. */
  ghost predicate IsMerge(lines: seq<string>, updates: map<string, string>, force: bool, out: seq<string>) {
    exists keys, added :: MergedWith(lines, updates, force, out, keys, added)
  }

  ghost predicate MergedWith(lines: seq<string>, updates: map<string, string>, force: bool, out: seq<string>,
        keys: seq<string>, added: seq<string>) {
    && Distinct(keys) && Covers(keys, updates.Keys - SeenKeys(lines, updates)) && AreAssignments(keys, updates, added)
    && |lines| <= |out| && IsMergeOfLines(lines, updates, force, out[..|lines|]) && out[|lines|..] == added
  }

  /** `text` is what a merge may leave of the file: its lines merged and written. */
  ghost predicate IsMergedFile(existing: Option<string>, updates: map<string, string>, force: bool, text: string) {
    exists out :: IsMerge(LinesOf(existing), updates, force, out) && text == Render(out)
  }

  lemma SeenIsKeptOrReplaced(lines: seq<string>, updates: map<string, string>, force: bool)
    ensures forall k :: k in SeenKeys(lines, updates) <==>
      (KeptSomewhere(lines, updates, force, k) || ReplacedSomewhere(lines, updates, force, k))
    ensures SeenKeys(lines, updates) <= updates.Keys
  {
    hide Parsed;
  }

  /** The merge, with the new contents of the file. Skipped are the keys that kept a value,
      written those that were replaced somewhere or appended. */
  method MergeEnvFile(existing: Option<string>, updates: map<string, string>, force: bool)
    returns (text: string, written: seq<string>, skipped: seq<string>)
    ensures IsMergedFile(existing, updates, force, text)
    ensures forall k :: k in skipped <==> KeptSomewhere(LinesOf(existing), updates, force, k)
    ensures forall k :: k in written <==>
      && k in updates
      && (ReplacedSomewhere(LinesOf(existing), updates, force, k) || k !in SeenKeys(LinesOf(existing), updates))
    ensures forall k :: k in updates <==> (k in written || k in skipped)
  {
    var input := LinesOf(existing);
    var lines, seen;
    lines, written, skipped, seen := MergeLines(input, updates, force);
    var keys, added := AppendMissing(updates, seen);
    ghost var out := lines + added;
    assert out[..|input|] == lines && out[|input|..] == added;
    assert MergedWith(input, updates, force, out, keys, added);
    text := Render(lines + added);
    SeenIsKeptOrReplaced(input, updates, force);
    written := written + keys;
  }
}
