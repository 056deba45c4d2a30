/** What mergeEnvFile leaves behind, read back (cmd/billbird/init.go). */
module EnvFileLaws {
  import opened Options
  import opened Text
  import opened EnvFile

  // ---- writing lines and reading them again ---------------------------------------------------

  function DropCRs(lines: seq<string>): (r: seq<string>)
    ensures |r| == |lines| && forall i :: 0 <= i < |lines| ==> r[i] == DropCR(lines[i])
  {
    if lines == [] then [] else [DropCR(lines[0])] + DropCRs(lines[1..])
  }

  predicate AllNewlineFree(lines: seq<string>) {
    forall i :: 0 <= i < |lines| ==> NewlineFree(lines[i])
  }

  lemma ScanFirst(first: string, more: string)
    requires NewlineFree(first)
    ensures ScanLines(first + ("\n" + more)) == [DropCR(first)] + ScanLines(more)
  {
    hide DropCR, FirstLine, NewlineFree;
    FirstLineStops(first, "\n" + more);
    assert (first + ("\n" + more))[|first| + 1..] == more;
  }

  /** Reading a rendered file gives its lines back, less one carriage return at each end. */
  lemma {:induction false} ScanRendered(lines: seq<string>)
    requires lines != [] && AllNewlineFree(lines)
    ensures ScanLines(Render(lines)) == DropCRs(lines)
  {
    hide DropCR, NewlineFree, ScanLines;
    var first := lines[0];
    if |lines| == 1 {
      assert Render(lines) == first + ("\n" + "");
      ScanFirst(first, "");
      assert ScanLines("") == [] by { ScanNothing(); }
      assert DropCRs(lines) == [DropCR(first)] + DropCRs([]);
    } else {
      assert Render(lines) == first + ("\n" + Render(lines[1..]));
      ScanFirst(first, Render(lines[1..]));
      ScanRendered(lines[1..]);
    }
  }

  lemma ScanNothing()
    ensures ScanLines("") == []
  {
  }

  lemma {:induction false} ScannedNewlineFree(text: string)
    ensures AllNewlineFree(ScanLines(text))
    decreases |text|
  {
    if text == "" {
    } else {
      var line := FirstLine(text);
      if |line| < |text| { ScannedNewlineFree(text[|line| + 1..]); }
    }
  }

  predicate EndsInCR(line: string) {
    line != "" && line[|line| - 1] == '\r'
  }

  predicate SomeEndsInCR(lines: seq<string>) {
    exists i :: 0 <= i < |lines| && EndsInCR(lines[i])
  }

  lemma {:induction false} JoinShrinks(lines: seq<string>)
    ensures |Join(DropCRs(lines))| <= |Join(lines)|
    ensures SomeEndsInCR(lines) ==> |Join(DropCRs(lines))| < |Join(lines)|
  {
    if lines == [] {
    } else {
      JoinShrinks(lines[1..]);
      assert DropCRs(lines)[1..] == DropCRs(lines[1..]);
      if SomeEndsInCR(lines) && !EndsInCR(lines[0]) {
        var i :| 0 <= i < |lines| && EndsInCR(lines[i]);
        assert lines[1..][i - 1] == lines[i];
      }
    }
  }

  // ---- parsing what was written --------------------------------------------------------------------

  /** A key the way the callers use them: no blanks around it, no '=', not a comment. */
  predicate WellFormedKey(key: string) {
    Trimmed(key) && '=' !in key && NewlineFree(key) && (key != "" ==> key[0] != '#')
  }

  lemma {:induction false} IndexOfFirst(a: string, c: char, b: string)
    requires c !in a
    ensures IndexOf(a + [c] + b, c) == Some(|a|)
  {
    if a == "" {
    } else {
      assert (a + [c] + b)[1..] == a[1..] + [c] + b;
      IndexOfFirst(a[1..], c, b);
    }
  }

  lemma AssignmentParses(key: string, value: string)
    requires WellFormedKey(key)
    ensures Parsed(key + "=" + value) == Some(Assignment(key, TrimSpace(value)))
  {
    var line := key + "=" + value;
    assert line == key + ['='] + value;
    IndexOfFirst(key, '=', value);
    assert line[0] == if key == "" then '=' else key[0];
    assert TrimBlanks(line) == line;
    hide TrimSpace, TrimBlanks, IndexOf, IsSpace;
    assert line[..|key|] == key && line[|key| + 1..] == value;
    TrimSpaceFixed(key);
  }

  lemma {:induction false} TrimBlanksCR(s: string)
    ensures TrimBlanks(s + "\r") == TrimBlanks(s) + "\r"
  {
    if s != "" && (s[0] == ' ' || s[0] == '\t') {
      assert (s + "\r")[1..] == s[1..] + "\r";
      TrimBlanksCR(s[1..]);
    }
  }

  lemma TrimSpaceCR(s: string)
    ensures TrimSpace(s + "\r") == TrimSpace(s)
  {
    hide IsSpace, TrimLeft, TrimRight;
    var left := TrimLeft(s);
    var core := TrimRight(left);
    TrimLeftShape(s);
    TrimRightShape(left);
    var a, b := s[..|s| - |left|], left[|core|..];
    assert s + "\r" == a + core + (b + "\r");
    TrimSpaceTrims(s);
    assert Trimmed(core);
    CRIsSpace(b);
    TrimSpaceBetween(a, core, b + "\r");
  }

  lemma CRIsSpace(b: string)
    requires AllSpace(b)
    ensures AllSpace(b + "\r")
  {
  }

  lemma {:induction false} IndexOfKept(s: string, c: char, d: char)
    requires c != d
    ensures IndexOf(s + [d], c) == IndexOf(s, c)
  {
    if s == "" {
      assert (s + [d])[1..] == "";
    } else {
      assert (s + [d])[1..] == s[1..] + [d];
      IndexOfKept(s[1..], c, d);
    }
  }

  /** A carriage return at the end of a line changes nothing about its assignment. */
  lemma ParsedWithoutCR(line: string)
    ensures Parsed(DropCR(line)) == Parsed(line)
  {
    if EndsInCR(line) {
      var s := line[..|line| - 1];
      assert line == s + "\r";
      TrimBlanksCR(s);
      var t := TrimBlanks(s);
      IndexOfKept(t, '=', '\r');
      var eq := IndexOf(t, '=');
      if eq.Some? {
        assert (t + "\r")[..eq.value] == t[..eq.value];
        assert (t + "\r")[eq.value + 1..] == t[eq.value + 1..] + "\r";
        TrimSpaceCR(t[eq.value + 1..]);
      } else if t == "" {
        assert IndexOf("\r", '=') == None;
      }
    }
  }

  // ---- after a merge ------------------------------------------------------------------------------------

  predicate WellFormed(updates: map<string, string>) {
    forall k :: k in updates ==> WellFormedKey(k) && NewlineFree(updates[k])
  }

  predicate NonBlank(updates: map<string, string>) {
    forall k :: k in updates ==> TrimSpace(updates[k]) != ""
  }

  /** Each line of a merge: an update's own assignment, or an existing line that is not one the
      merge replaces. */
  predicate Settled(line: string, updates: map<string, string>, force: bool) {
    || (exists k :: k in updates && line == AssignmentLine(k, updates))
    || (!Replaced(line, updates, force) && NewlineFree(line))
  }

  lemma MergeSettles(lines: seq<string>, updates: map<string, string>, force: bool, out: seq<string>, i: nat)
    requires AllNewlineFree(lines) && IsMerge(lines, updates, force, out) && i < |out|
    ensures Settled(out[i], updates, force)
  {
    hide Replaced;
    var keys, added :| MergedWith(lines, updates, force, out, keys, added);
    if i < |lines| {
      assert out[i] == out[..|lines|][i];
      if Replaced(lines[i], updates, force) { TargetPresent(lines[i], updates, force); }
    } else {
      assert out[i] == added[i - |lines|];
    }
  }

  lemma TargetPresent(line: string, updates: map<string, string>, force: bool)
    requires Replaced(line, updates, force)
    ensures Target(line, updates).Some? && Target(line, updates).value in updates
  {
  }

  /** After a merge with force, every line that assigns an update key assigns the new value. */
  lemma ForceSetsValues(lines: seq<string>, updates: map<string, string>, out: seq<string>, i: nat, key: string)
    requires AllNewlineFree(lines) && WellFormed(updates) && IsMerge(lines, updates, true, out)
    requires i < |out| && Target(out[i], updates) == Some(key)
    ensures Parsed(out[i]).value.value == TrimSpace(updates[key])
  {
    MergeSettles(lines, updates, true, out, i);
    if k :| k in updates && out[i] == AssignmentLine(k, updates) { AssignmentParses(k, updates[k]); }
  }

  lemma MergedLineTarget(line: string, updates: map<string, string>, force: bool, merged: string, key: string)
    requires WellFormed(updates) && IsMergeOfLine(line, updates, force, merged) && Target(line, updates) == Some(key)
    ensures Target(merged, updates) == Some(key)
  {
    hide Parsed;
    if Replaced(line, updates, force) { AssignmentTarget(updates, key); }
  }

  lemma AssignmentTarget(updates: map<string, string>, key: string)
    requires WellFormed(updates) && key in updates
    ensures Target(AssignmentLine(key, updates), updates) == Some(key)
  {
    hide Parsed, TrimSpace;
    AssignmentParses(key, updates[key]);
  }

  /** After any merge, every update key is assigned by some line. */
  lemma MergeAssignsAll(lines: seq<string>, updates: map<string, string>, force: bool, out: seq<string>, key: string)
    requires WellFormed(updates) && IsMerge(lines, updates, force, out) && key in updates
    ensures exists i :: 0 <= i < |out| && Target(out[i], updates) == Some(key)
  {
    hide Target, IsMergeOfLine, WellFormed;
    var keys, added :| MergedWith(lines, updates, force, out, keys, added);
    if key in SeenKeys(lines, updates) {
      var i :| 0 <= i < |lines| && Target(lines[i], updates).Some? && Target(lines[i], updates).value == key;
      assert out[..|lines|][i] == out[i];
      MergedLineTarget(lines[i], updates, force, out[i], key);
    } else {
      assert key in keys;
      var i :| 0 <= i < |keys| && keys[i] == key;
      assert added[i] == out[|lines| + i];
      AssignmentTarget(updates, key);
    }
  }

  /** Read back, no line of a merge with non-blank values is one a merge without force replaces. */
  lemma SettledStays(line: string, updates: map<string, string>, force: bool)
    requires WellFormed(updates) && NonBlank(updates) && Settled(line, updates, force)
    ensures !Replaced(DropCR(line), updates, false) && NewlineFree(line)
    ensures Target(DropCR(line), updates) == Target(line, updates)
  {
    hide Parsed, TrimSpace;
    ParsedWithoutCR(line);
    if k :| k in updates && line == AssignmentLine(k, updates) { AssignmentParses(k, updates[k]); }
  }

  lemma HeadIn(keys: seq<string>)
    ensures keys != [] ==> keys[0] in keys
  {
  }

  lemma NothingToDo(lines: seq<string>, updates: map<string, string>, out: seq<string>)
    requires IsMerge(lines, updates, false, out)
    requires forall i :: 0 <= i < |lines| ==> !Replaced(lines[i], updates, false)
    requires updates.Keys <= SeenKeys(lines, updates)
    ensures out == lines
  {
    hide Parsed, Target;
    var keys, added :| MergedWith(lines, updates, false, out, keys, added);
    HeadIn(keys);
    assert out == out[..|lines|] + out[|lines|..];
  }

  /** The file as the second merge reads it. */
  lemma SecondMergeKeepsLines(lines: seq<string>, updates: map<string, string>, force: bool, out: seq<string>,
        again: seq<string>)
    requires AllNewlineFree(lines) && WellFormed(updates) && NonBlank(updates)
    requires IsMerge(lines, updates, force, out) && out != [] && IsMerge(ScanLines(Render(out)), updates, false, again)
    ensures again == DropCRs(out) && AllNewlineFree(out)
  {
    hide Parsed, Settled, Replaced, IsMerge, Target, ScanLines, Render;
    forall i | 0 <= i < |out|
      ensures NewlineFree(out[i]) && !Replaced(DropCR(out[i]), updates, false)
      ensures Target(DropCR(out[i]), updates) == Target(out[i], updates)
    {
      MergeSettles(lines, updates, force, out, i);
      SettledStays(out[i], updates, force);
    }
    ScanRendered(out);
    forall k | k in updates
      ensures k in SeenKeys(DropCRs(out), updates)
    {
      MergeAssignsAll(lines, updates, force, out, k);
      var i :| 0 <= i < |out| && Target(out[i], updates) == Some(k);
      assert Target(DropCRs(out)[i], updates) == Some(k);
    }
    NothingToDo(DropCRs(out), updates, again);
  }

  /** For non-blank, newline-free values a second merge without force reproduces the file
      exactly when no line of it ends in a carriage return; otherwise the line scanner eats it. */
  lemma SecondMergeReproduces(lines: seq<string>, updates: map<string, string>, force: bool, out: seq<string>,
        again: seq<string>)
    requires AllNewlineFree(lines) && WellFormed(updates) && NonBlank(updates)
    requires IsMerge(lines, updates, force, out) && IsMerge(ScanLines(Render(out)), updates, false, again)
    ensures Render(again) == Render(out) <==> !SomeEndsInCR(out)
  {
    hide Parsed, IsMerge, WellFormed, NonBlank, Join;
    if out == [] {
      EmptyMerge(lines, updates, force, again);
    } else {
      SecondMergeKeepsLines(lines, updates, force, out, again);
      JoinShrinks(out);
      if !SomeEndsInCR(out) { assert DropCRs(out) == out; }
    }
  }

  /** A carriage return right before a line feed. */
  predicate HasCRLF(text: string) {
    exists i :: 0 <= i < |text| - 1 && text[i] == '\r' && text[i + 1] == '\n'
  }

  lemma FirstLineCRLF(first: string, more: string)
    requires NewlineFree(first)
    ensures HasCRLF(first + ("\n" + more)) <==> EndsInCR(first) || HasCRLF(more)
  {
    var text, n := first + ("\n" + more), |first|;
    assert forall i :: 0 <= i < n ==> text[i] == first[i] && first[i] != '\n';
    assert text[n] == '\n' && forall i :: 0 <= i < |more| ==> text[n + 1 + i] == more[i];
    if EndsInCR(first) {
      assert text[n - 1] == '\r' && text[n - 1 + 1] == '\n';
    } else if j :| 0 <= j < |more| - 1 && more[j] == '\r' && more[j + 1] == '\n' {
      assert text[n + 1 + j] == '\r' && text[n + 1 + j + 1] == '\n';
    }
    if i :| 0 <= i < |text| - 1 && text[i] == '\r' && text[i + 1] == '\n' {
      if i > n {
        assert more[i - n - 1] == '\r' && more[i - n - 1 + 1] == '\n';
      }
    }
  }

  lemma {:induction false} RenderedCRLF(lines: seq<string>)
    requires AllNewlineFree(lines)
    ensures HasCRLF(Render(lines)) <==> SomeEndsInCR(lines)
  {
    if lines == [] {
      assert Render(lines) == "\n";
    } else {
      hide HasCRLF, EndsInCR, NewlineFree;
      var rest := if |lines| == 1 then "" else Render(lines[1..]);
      assert Render(lines) == lines[0] + ("\n" + rest);
      FirstLineCRLF(lines[0], rest);
      EmptyHasNoCRLF();
      if |lines| > 1 { RenderedCRLF(lines[1..]); }
      FirstOrLaterEnds(lines);
    }
  }

  lemma EmptyHasNoCRLF()
    ensures !HasCRLF("")
  {
  }

  lemma FirstOrLaterEnds(lines: seq<string>)
    requires lines != []
    ensures SomeEndsInCR(lines) <==> EndsInCR(lines[0]) || SomeEndsInCR(lines[1..])
  {
    hide EndsInCR;
    assert forall i :: 0 < i < |lines| ==> lines[i] == lines[1..][i - 1];
    if SomeEndsInCR(lines[1..]) {
      var i :| 0 <= i < |lines[1..]| && EndsInCR(lines[1..][i]);
      assert EndsInCR(lines[i + 1]);
    }
  }

  /** From file to file: whatever file was there, running the merge again without force leaves the
      merged file as it is if and only if that file holds no carriage return before a line feed. */
  lemma SecondRunReproduces(existing: Option<string>, updates: map<string, string>, force: bool, text: string,
        again: string)
    requires WellFormed(updates) && NonBlank(updates)
    requires IsMergedFile(existing, updates, force, text) && IsMergedFile(Some(text), updates, false, again)
    ensures again == text <==> !HasCRLF(text)
  {
    hide WellFormed, NonBlank, HasCRLF, SomeEndsInCR, IsMerge, Render, ScanLines;
    var out :| IsMerge(LinesOf(existing), updates, force, out) && text == Render(out);
    var out' :| IsMerge(LinesOf(Some(text)), updates, false, out') && again == Render(out');
    if existing.Some? { ScannedNewlineFree(existing.value); }
    SecondMergeReproduces(LinesOf(existing), updates, force, out, out');
    if out != [] { SecondMergeKeepsLines(LinesOf(existing), updates, force, out, out'); }
    RenderedCRLF(out);
  }

  lemma EmptyMerge(lines: seq<string>, updates: map<string, string>, force: bool, again: seq<string>)
    requires WellFormed(updates) && IsMerge(lines, updates, force, [])
    requires IsMerge(ScanLines(Render([])), updates, false, again)
    ensures Render(again) == Render([])
  {
    if k :| k in updates { MergeAssignsAll(lines, updates, force, [], k); }
    assert Render([]) == "\n" && ScanLines("\n") == [""];
    assert Parsed("") == None;
    NothingToDo([""], updates, again);
  }

  /** For instance, written to a new file, a value that ends in a carriage return loses it: the
      line K=v with a carriage return behind it comes back as K=v. */
  lemma CarriageReturnLost(key: string, v: string, again: seq<string>)
    requires WellFormedKey(key) && Trimmed(v) && v != "" && NewlineFree(v)
    requires var updates := map[key := v + "\r"];
      IsMerge(ScanLines(Render([AssignmentLine(key, updates)])), updates, false, again)
    ensures var updates := map[key := v + "\r"];
      && IsMerge([], updates, false, [AssignmentLine(key, updates)])
      && Render(again) != Render([AssignmentLine(key, updates)])
  {
    hide IsMerge, TrimSpace, ScanLines, Render, Trimmed, WellFormed, NonBlank;
    var updates := map[key := v + "\r"];
    OneAppended(updates, key);
    OneUpdateOk(key, v);
    assert EndsInCR([AssignmentLine(key, updates)][0]);
    SecondMergeReproduces([], updates, false, [AssignmentLine(key, updates)], again);
  }

  lemma OneUpdateOk(key: string, v: string)
    requires WellFormedKey(key) && Trimmed(v) && v != "" && NewlineFree(v)
    ensures WellFormed(map[key := v + "\r"]) && NonBlank(map[key := v + "\r"])
  {
    hide TrimSpace, Trimmed;
    TrimSpaceCR(v);
    TrimSpaceFixed(v);
  }

  lemma OneAppended(updates: map<string, string>, key: string)
    requires updates.Keys == {key}
    ensures IsMerge([], updates, false, [AssignmentLine(key, updates)])
  {
    var out := [AssignmentLine(key, updates)];
    assert SeenKeys([], updates) == {};
    assert out[0..] == out && out[..0] == [];
    assert MergedWith([], updates, false, out, [key], out);
  }
}
