/** The .env merge line by line, told by what stands on a line (cmd/billbird/init.go). */
module EnvFileLines {
  import opened Options
  import opened Text
  import opened EnvFile
  import opened EnvFileLaws

  // ---- what a line assigns -----------------------------------------------------------------

  predicate SpacesAndTabs(s: string) {
    forall i :: 0 <= i < |s| ==> s[i] == ' ' || s[i] == '\t'
  }

  /** The line is indented by spaces and tabs, then comes left, the first '=' and right; left begins
      with neither a blank nor '#'; key and value are what is written there, less the white space
      around them. */
  predicate AssignsAs(line: string, indent: string, left: string, right: string, key: string, value: string) {
    && line == indent + (left + "=" + right) && SpacesAndTabs(indent)
    && '=' !in left && (left != "" ==> left[0] != ' ' && left[0] != '\t' && left[0] != '#')
    && key == TrimSpace(left) && value == TrimSpace(right)
  }

  ghost predicate Assigns(line: string, key: string, value: string) {
    exists indent, left, right :: AssignsAs(line, indent, left, right, key, value)
  }

  /** The first character behind the indentation is '#'. */
  ghost predicate IsComment(line: string) {
    exists indent, rest :: line == indent + ("#" + rest) && SpacesAndTabs(indent)
  }

  lemma {:induction false} TrimBlanksAfter(indent: string, s: string)
    requires SpacesAndTabs(indent) && (s == "" || (s[0] != ' ' && s[0] != '\t'))
    ensures TrimBlanks(indent + s) == s
  {
    if indent == "" {
      assert indent + s == s;
    } else {
      assert (indent + s)[1..] == indent[1..] + s;
      TrimBlanksAfter(indent[1..], s);
    }
  }

  lemma {:induction false} Indentation(s: string) returns (indent: string)
    ensures s == indent + TrimBlanks(s) && SpacesAndTabs(indent)
    ensures TrimBlanks(s) == "" || (TrimBlanks(s)[0] != ' ' && TrimBlanks(s)[0] != '\t')
  {
    if s != "" && (s[0] == ' ' || s[0] == '\t') {
      var more := Indentation(s[1..]);
      indent := [s[0]] + more;
    } else {
      indent := "";
    }
  }

  /** The code reads an assignment off a line exactly when the line has that form. */
  lemma ParsedExactly(line: string, key: string, value: string)
    ensures Parsed(line) == Some(Assignment(key, value)) <==> Assigns(line, key, value)
  {
    hide TrimSpace, IndexOf, TrimBlanks;
    if Parsed(line) == Some(Assignment(key, value)) {
      var indent := Indentation(line);
      var trimmed := TrimBlanks(line);
      var eq := IndexOf(trimmed, '=').value;
      var left, right := trimmed[..eq], trimmed[eq + 1..];
      assert trimmed == left + "=" + right;
      assert AssignsAs(line, indent, left, right, key, value);
    }
    if indent, left, right :| AssignsAs(line, indent, left, right, key, value) {
      var trimmed := left + "=" + right;
      TrimBlanksAfter(indent, trimmed);
      assert trimmed == left + ['='] + right;
      IndexOfFirst(left, '=', right);
      assert trimmed[..|left|] == left && trimmed[|left| + 1..] == right;
    }
  }

  /** A comment assigns nothing, whatever it says. */
  lemma CommentAssignsNothing(line: string, key: string, value: string)
    requires IsComment(line)
    ensures !Assigns(line, key, value)
  {
    hide TrimSpace, TrimBlanks;
    var indent, rest :| line == indent + ("#" + rest) && SpacesAndTabs(indent);
    TrimBlanksAfter(indent, "#" + rest);
    ParsedExactly(line, key, value);
  }

  // ---- what the merge does to a line ------------------------------------------------------------

  ghost predicate AssignsNone(line: string, updates: map<string, string>) {
    forall key, value :: Assigns(line, key, value) ==> key !in updates
  }

  /** A line that assigns none of the updates stands as it is; one that assigns an update key is
      kept when it has a value and the merge is not forced, and rewritten otherwise. */
  lemma LineMerged(line: string, updates: map<string, string>, force: bool, merged: string)
    requires IsMergeOfLine(line, updates, force, merged)
    ensures AssignsNone(line, updates) ==> merged == line
    ensures forall key, value :: Assigns(line, key, value) && key in updates ==>
      merged == if value != "" && !force then line else key + "=" + updates[key]
  {
    hide Parsed, Assigns;
    if Parsed(line).Some? { ParsedExactly(line, Parsed(line).value.key, Parsed(line).value.value); }
    forall key, value | Assigns(line, key, value) && key in updates
      ensures merged == if value != "" && !force then line else key + "=" + updates[key]
    {
      ParsedExactly(line, key, value);
    }
  }

  lemma CommentAssignsNone(line: string, updates: map<string, string>)
    requires IsComment(line)
    ensures AssignsNone(line, updates)
  {
    hide IsComment, Assigns;
    forall key, value
      ensures !Assigns(line, key, value)
    {
      CommentAssignsNothing(line, key, value);
    }
  }

  /** Some line assigns the key. */
  ghost predicate AssignedIn(lines: seq<string>, key: string) {
    exists i, value :: 0 <= i < |lines| && Assigns(lines[i], key, value)
  }

  lemma SeenExactly(lines: seq<string>, updates: map<string, string>, key: string)
    requires key in updates
    ensures key in SeenKeys(lines, updates) <==> AssignedIn(lines, key)
  {
    hide Parsed, Assigns;
    if key in SeenKeys(lines, updates) {
      var i :| 0 <= i < |lines| && Target(lines[i], updates).Some? && Target(lines[i], updates).value == key;
      ParsedExactly(lines[i], key, Parsed(lines[i]).value.value);
      assert Assigns(lines[i], key, Parsed(lines[i]).value.value);
    }
    if i, value :| 0 <= i < |lines| && Assigns(lines[i], key, value) {
      ParsedExactly(lines[i], key, value);
      assert Target(lines[i], updates) == Some(key);
    }
  }

  /** The whole merge: every comment and every line that assigns none of the updates stands where it
      was; a line that assigns one is kept or rewritten in place; behind them comes one line for each
      key that no line assigns, be it only commented out, and nothing else. */
  lemma MergeSpelled(lines: seq<string>, updates: map<string, string>, force: bool, out: seq<string>)
      returns (keys: seq<string>)
    requires IsMerge(lines, updates, force, out)
    ensures |out| == |lines| + |keys|
    ensures forall i :: 0 <= i < |lines| && (IsComment(lines[i]) || AssignsNone(lines[i], updates)) ==>
      out[i] == lines[i]
    ensures forall i, key, value :: 0 <= i < |lines| && Assigns(lines[i], key, value) && key in updates ==>
      out[i] == if value != "" && !force then lines[i] else key + "=" + updates[key]
    ensures forall key :: key in keys <==> key in updates && !AssignedIn(lines, key)
    ensures forall i, j :: 0 <= i < j < |keys| ==> keys[i] != keys[j]
    ensures forall i :: 0 <= i < |keys| ==> out[|lines| + i] == keys[i] + "=" + updates[keys[i]]
  {
    hide IsMergeOfLine, Assigns, AssignsNone, AssignedIn, IsComment, SeenKeys;
    var added;
    keys, added :| MergedWith(lines, updates, force, out, keys, added);
    forall i | 0 <= i < |lines|
      ensures IsComment(lines[i]) || AssignsNone(lines[i], updates) ==> out[i] == lines[i]
      ensures forall key, value :: Assigns(lines[i], key, value) && key in updates ==>
        out[i] == if value != "" && !force then lines[i] else key + "=" + updates[key]
    {
      assert out[..|lines|][i] == out[i];
      LineMerged(lines[i], updates, force, out[i]);
      if IsComment(lines[i]) { CommentAssignsNone(lines[i], updates); }
    }
    forall key | key in updates
      ensures key in SeenKeys(lines, updates) <==> AssignedIn(lines, key)
    {
      SeenExactly(lines, updates, key);
    }
    forall i | 0 <= i < |keys|
      ensures out[|lines| + i] == keys[i] + "=" + updates[keys[i]]
    {
      assert added[i] == out[|lines|..][i];
    }
  }

  // ---- reading the file --------------------------------------------------------------------------

  /** One carriage return at the end of a line is dropped, and nothing else. */
  lemma CarriageReturnDropped(line: string)
    ensures DropCR(line + "\r") == line
    ensures line == "" || line[|line| - 1] != '\r' ==> DropCR(line) == line
  {
    assert (line + "\r")[..|line|] == line;
  }

  /** The text: lines that line feeds end, and one more that nothing ends. */
  function Unended(lines: seq<string>, last: string): string {
    if lines == [] then last else Render(lines) + last
  }

  lemma ScanLast(last: string)
    requires NewlineFree(last) && last != ""
    ensures ScanLines(last) == [DropCR(last)]
  {
    hide DropCR;
    assert last == last + "";
    FirstLineStops(last, "");
  }

  lemma UnendedFirst(lines: seq<string>, last: string)
    requires lines != []
    ensures Unended(lines, last) == lines[0] + ("\n" + Unended(lines[1..], last))
  {
  }

  /** A last line counts whether or not a line feed ends it. */
  lemma {:induction false} ScanUnended(lines: seq<string>, last: string)
    requires AllNewlineFree(lines) && NewlineFree(last) && last != ""
    ensures ScanLines(Unended(lines, last)) == DropCRs(lines) + [DropCR(last)]
  {
    hide DropCR, NewlineFree, ScanLines, Render;
    if lines == [] {
      ScanLast(last);
    } else {
      UnendedFirst(lines, last);
      hide Unended;
      ScanFirst(lines[0], Unended(lines[1..], last));
      ScanUnended(lines[1..], last);
    }
  }
}
