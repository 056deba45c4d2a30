/** The filter-to-SQL builders of both List methods (internal/timeentry/store.go and
    internal/planentry/store.go): a growing WHERE clause with numbered placeholders and a growing
    list of arguments. */
module Listing {
  import opened Options
  import opened Text

  // ---- LIKE ------------------------------------------------------------------------------

  /** SQL LIKE with the default escape character: % any run, _ any one, \ the next literally. */
  predicate Like(pattern: string, s: string)
    decreases |pattern| + |s|
  {
    if pattern == "" then s == ""
    else if pattern[0] == '%' then Like(pattern[1..], s) || (s != "" && Like(pattern, s[1..]))
    else if pattern[0] == '_' then s != "" && Like(pattern[1..], s[1..])
    else if pattern[0] == '\\' then
      |pattern| > 1 && s != "" && s[0] == pattern[1] && Like(pattern[2..], s[1..])
    else s != "" && s[0] == pattern[0] && Like(pattern[1..], s[1..])
  }

  predicate IsWild(c: char) {
    c == '%' || c == '_' || c == '\\'
  }

  predicate Plain(s: string) {
    forall i :: 0 <= i < |s| ==> !IsWild(s[i])
  }

  lemma {:induction false} PercentMatchesAll(s: string)
    ensures Like("%", s)
  {
    if s == "" {
    } else {
      PercentMatchesAll(s[1..]);
    }
  }

  lemma {:induction false} PlainPrefix(p: string, s: string)
    requires Plain(p)
    ensures Like(p + "%", s) <==> p <= s
  {
    if p == "" {
      assert p + "%" == "%";
      PercentMatchesAll(s);
    } else {
      assert (p + "%")[1..] == p[1..] + "%";
      if s != "" {
        PlainPrefix(p[1..], s[1..]);
        assert s[0] == p[0] && p[1..] <= s[1..] ==> p <= s by {
          assert p == [p[0]] + p[1..] && s == [s[0]] + s[1..];
        }
      }
    }
  }

  /** A shortest kind of text that the pattern p followed by % matches. */
  function Witness(p: string): (w: string)
    ensures |w| <= |p|
    ensures |p| == 1 && p[0] == '\\' ==> w == "%"
  {
    if p == "" then ""
    else if p[0] == '%' then Witness(p[1..])
    else if p[0] == '_' then "a" + Witness(p[1..])
    else if p[0] == '\\' then (if |p| == 1 then "%" else [p[1]] + Witness(p[2..]))
    else [p[0]] + Witness(p[1..])
  }

  lemma {:induction false} WitnessMatches(p: string)
    ensures Like(p + "%", Witness(p))
    decreases |p|
  {
    if p == "" {
      assert p + "%" == "%";
      PercentMatchesAll("");
    } else if p[0] == '\\' {
      if |p| == 1 {
        assert (p + "%")[2..] == "";
        assert ("%")[1..] == "";
      } else {
        assert (p + "%")[2..] == p[2..] + "%";
        WitnessMatches(p[2..]);
        assert Witness(p)[1..] == Witness(p[2..]);
      }
    } else {
      assert (p + "%")[1..] == p[1..] + "%";
      WitnessMatches(p[1..]);
      if p[0] != '%' { assert Witness(p)[1..] == Witness(p[1..]); }
    }
  }

  lemma {:induction false} LikeAfterPlain(q: string, pattern: string, s: string)
    requires Plain(q)
    ensures Like(q + pattern, q + s) <==> Like(pattern, s)
  {
    if q == "" {
      assert q + pattern == pattern && q + s == s;
    } else {
      assert (q + pattern)[1..] == q[1..] + pattern && (q + s)[1..] == q[1..] + s;
      LikeAfterPlain(q[1..], pattern, s);
    }
  }

  /** How many characters p starts with before its first wildcard. */
  function PlainLength(p: string): (k: nat)
    ensures k <= |p| && Plain(p[..k]) && (k < |p| ==> IsWild(p[k]))
  {
    if p == "" || IsWild(p[0]) then 0
    else
      var k := 1 + PlainLength(p[1..]);
      assert p[..k] == [p[0]] + p[1..][..k - 1];
      k
  }

  /** A text that a pattern starting with a wildcard matches although it does not start with the
      wildcard text itself. */
  lemma WildMismatch(r: string) returns (s: string)
    requires r != "" && IsWild(r[0])
    ensures Like(r + "%", s) && !(r <= s)
  {
    var rest := r[1..];
    assert (r + "%")[1..] == rest + "%";
    if r[0] == '_' {
      WitnessMatches(rest);
      s := "a" + Witness(rest);
      assert s[1..] == Witness(rest);
    } else if r[0] == '%' {
      WitnessMatches(rest);
      s := Witness(rest);
    } else {
      WitnessMatches(r);
      s := Witness(r);
      if |r| > 1 { assert |s| == 1 + |Witness(r[2..])|; }
    }
  }

  /** The LIKE clause means "starts with the prefix", for all labels, exactly when the prefix
      holds none of %, _ and \. */
  lemma PrefixClauseExactly(p: string)
    ensures (forall s :: Like(p + "%", s) <==> p <= s) <==> Plain(p)
  {
    if Plain(p) {
      forall s
        ensures Like(p + "%", s) <==> p <= s
      {
        PlainPrefix(p, s);
      }
    } else {
      var k := PlainLength(p);
      var q, r := p[..k], p[k..];
      assert p == q + r;
      var t := WildMismatch(r);
      assert p + "%" == q + (r + "%");
      LikeAfterPlain(q, r + "%", t);
      PrefixCancel(q, r, t);
      assert Like(p + "%", q + t) && !(p <= q + t);
    }
  }

  lemma PrefixCancel(q: string, r: string, t: string)
    ensures q + r <= q + t <==> r <= t
  {
    if q + r <= q + t {
      assert forall i :: 0 <= i < |r| ==> r[i] == (q + r)[|q| + i] == (q + t)[|q| + i] == t[i];
    }
  }

  // ---- filters and what they mean ------------------------------------------------------------

  /** A row as the WHERE clause sees it. */
  datatype Columns = Columns(status: string, repo: string, issue: int, clientId: Option<int>,
                             username: string, createdAt: int, labels: seq<string>)

  datatype TimeFilter = TimeFilter(status: string, repo: string, clientId: Option<int>, username: string,
                                   dateFrom: Option<int>, dateTo: Option<int>, labels: seq<string>, labelPrefix: string)

  datatype PlanFilter = PlanFilter(repo: string, issue: Option<int>, status: string,
                                   dateFrom: Option<int>, dateTo: Option<int>, labels: seq<string>, labelPrefix: string)

  predicate ContainsAll(labels: seq<string>, wanted: seq<string>) {
    forall l :: l in wanted ==> l in labels
  }

  predicate SomeLabelLike(labels: seq<string>, pattern: string) {
    exists l :: l in labels && Like(pattern, l)
  }

  /** Date range and labels, which both stores filter alike. */
  predicate MatchesShared(row: Columns, dateFrom: Option<int>, dateTo: Option<int>, labels: seq<string>,
        labelPrefix: string) {
    && (dateFrom.Some? ==> row.createdAt >= dateFrom.value)
    && (dateTo.Some? ==> row.createdAt < dateTo.value)
    && ContainsAll(row.labels, labels)
    && (TrimSpace(labelPrefix) != "" ==> SomeLabelLike(row.labels, TrimSpace(labelPrefix) + "%"))
  }

  /** Only "" and "active" restrict the status of time entries; anything else means all. */
  predicate TimeMatches(f: TimeFilter, row: Columns) {
    && (f.status == "" || f.status == "active" ==> row.status == "active")
    && (f.repo != "" ==> row.repo == f.repo)
    && (f.clientId.Some? ==> row.clientId == f.clientId)
    && (f.username != "" ==> row.username == f.username)
    && MatchesShared(row, f.dateFrom, f.dateTo, f.labels, f.labelPrefix)
  }

  /** Plans know "all", and take any other status literally. */
  predicate PlanMatches(f: PlanFilter, row: Columns) {
    && (f.status != "all" ==> row.status == (if f.status == "" then "active" else f.status))
    && (f.repo != "" ==> row.repo == f.repo)
    && (f.issue.Some? ==> row.issue == f.issue.value)
    && MatchesShared(row, f.dateFrom, f.dateTo, f.labels, f.labelPrefix)
  }

  lemma TimeMeans(f: TimeFilter)
    ensures forall row :: TimeMatches(f, row) <==>
      && (f.status == "" || f.status == "active" ==> row.status == "active")
      && (f.repo != "" ==> row.repo == f.repo)
      && (f.clientId.Some? ==> row.clientId == f.clientId)
      && (f.username != "" ==> row.username == f.username)
      && (f.dateFrom.Some? ==> row.createdAt >= f.dateFrom.value)
      && (f.dateTo.Some? ==> row.createdAt < f.dateTo.value)
      && (forall l :: l in f.labels ==> l in row.labels)
      && (TrimSpace(f.labelPrefix) != "" ==> exists l :: l in row.labels && Like(TrimSpace(f.labelPrefix) + "%", l))
  {
    hide TrimSpace, Like;
  }

  lemma PlanMeans(f: PlanFilter)
    ensures forall row :: PlanMatches(f, row) <==>
      && (f.status != "all" ==> row.status == (if f.status == "" then "active" else f.status))
      && (f.repo != "" ==> row.repo == f.repo)
      && (f.issue.Some? ==> row.issue == f.issue.value)
      && (f.dateFrom.Some? ==> row.createdAt >= f.dateFrom.value)
      && (f.dateTo.Some? ==> row.createdAt < f.dateTo.value)
      && (forall l :: l in f.labels ==> l in row.labels)
      && (TrimSpace(f.labelPrefix) != "" ==> exists l :: l in row.labels && Like(TrimSpace(f.labelPrefix) + "%", l))
  {
    hide TrimSpace, Like;
  }

  // ---- the built query --------------------------------------------------------------------------

  datatype Column =
    | StatusIs | RepoIs | IssueIs | ClientIs | UsernameIs
    | CreatedFrom | CreatedBefore | LabelsContain | SomeLabelIs

  /** One test of a column against a numbered placeholder. */
  datatype Clause = Clause(column: Column, placeholder: nat)

  datatype Arg = Str(text: string) | Num(number: int) | Time(time: int) | List(items: seq<string>)

  predicate Holds(column: Column, arg: Arg, row: Columns) {
    match (column, arg)
    case (StatusIs, Str(s)) => row.status == s
    case (RepoIs, Str(s)) => row.repo == s
    case (IssueIs, Num(n)) => row.issue == n
    case (ClientIs, Num(n)) => row.clientId == Some(n)
    case (UsernameIs, Str(s)) => row.username == s
    case (CreatedFrom, Time(t)) => row.createdAt >= t
    case (CreatedBefore, Time(t)) => row.createdAt < t
    case (LabelsContain, List(items)) => ContainsAll(row.labels, items)
    case (SomeLabelIs, Str(pattern)) => SomeLabelLike(row.labels, pattern)
    case _ => false
  }

  /** Placeholders are numbered 1, 2, ... in order, and each is bound by exactly one argument. */
  predicate Numbered(clauses: seq<Clause>, args: seq<Arg>) {
    && |clauses| == |args|
    && forall i :: 0 <= i < |clauses| ==> clauses[i].placeholder == i + 1
  }

  /** The row satisfies the clause, with its argument bound to the placeholder. */
  predicate ClauseHolds(clause: Clause, args: seq<Arg>, row: Columns) {
    1 <= clause.placeholder <= |args| && Holds(clause.column, args[clause.placeholder - 1], row)
  }

  /** The row satisfies every clause. */
  predicate Selects(clauses: seq<Clause>, args: seq<Arg>, row: Columns) {
    forall i :: 0 <= i < |clauses| ==> ClauseHolds(clauses[i], args, row)
  }

  /** The values of the status enums (migrations/000003 and 000007). */
  predicate IsStatus(s: string) {
    s == "active" || s == "superseded" || s == "deleted"
  }

  /** Postgres refuses to compare a status with anything else. */
  predicate BadStatus(column: Column, arg: Arg) {
    column.StatusIs? && !(arg.Str? && IsStatus(arg.text))
  }

  predicate Refused(clauses: seq<Clause>, args: seq<Arg>) {
    exists i :: 0 <= i < |clauses| && i < |args| && BadStatus(clauses[i].column, args[i])
  }

  /** The query so far, as the two builders grow it. */
  datatype Query = Query(clauses: seq<Clause>, args: seq<Arg>, argN: nat)

  ghost predicate Ok(q: Query) {
    Numbered(q.clauses, q.args) && q.argN == |q.args| + 1
  }

  function And(q: Query, column: Column, arg: Arg): Query {
    Query(q.clauses + [Clause(column, q.argN)], q.args + [arg], q.argN + 1)
  }

  ghost predicate SelectedBy(q: Query, row: Columns) {
    Selects(q.clauses, q.args, row)
  }

  ghost predicate RefusedBy(q: Query) {
    Refused(q.clauses, q.args)
  }

  lemma AndRefused(q: Query, column: Column, arg: Arg)
    requires Ok(q)
    ensures RefusedBy(And(q, column, arg)) <==> RefusedBy(q) || BadStatus(column, arg)
  {
    hide BadStatus;
    var r, n := And(q, column, arg), |q.clauses|;
    assert r.clauses[n].column == column && r.args[n] == arg;
    assert forall i :: 0 <= i < n ==> r.clauses[i] == q.clauses[i] && r.args[i] == q.args[i];
  }

  lemma AndMeansRow(q: Query, column: Column, arg: Arg, row: Columns)
    requires Ok(q)
    ensures SelectedBy(And(q, column, arg), row) <==> SelectedBy(q, row) && Holds(column, arg, row)
  {
    hide Holds, ClauseHolds;
    var r := And(q, column, arg);
    var n := |q.clauses|;
    OldClausesSame(q, arg, row);
    assert ClauseHolds(r.clauses[n], r.args, row) == Holds(column, arg, row) by { NewClause(q, column, arg, row); }
    assert forall i :: 0 <= i < n ==> r.clauses[i] == q.clauses[i];
    if SelectedBy(r, row) {
      forall i | 0 <= i < n
        ensures ClauseHolds(q.clauses[i], q.args, row)
      {
        assert ClauseHolds(r.clauses[i], r.args, row);
      }
    }
  }

  lemma OldClausesSame(q: Query, arg: Arg, row: Columns)
    requires Ok(q)
    ensures forall i :: 0 <= i < |q.clauses| ==>
      ClauseHolds(q.clauses[i], q.args + [arg], row) == ClauseHolds(q.clauses[i], q.args, row)
  {
    hide Holds;
  }

  lemma NewClause(q: Query, column: Column, arg: Arg, row: Columns)
    requires Ok(q)
    ensures ClauseHolds(Clause(column, q.argN), q.args + [arg], row) == Holds(column, arg, row)
  {
    hide Holds;
  }

  lemma AndMeans(q: Query, column: Column, arg: Arg)
    requires Ok(q)
    ensures Ok(And(q, column, arg))
    ensures forall row :: SelectedBy(And(q, column, arg), row) <==> SelectedBy(q, row) && Holds(column, arg, row)
  {
    hide Holds;
    forall row
      ensures SelectedBy(And(q, column, arg), row) <==> SelectedBy(q, row) && Holds(column, arg, row)
    {
      AndMeansRow(q, column, arg, row);
    }
  }

  /** One more clause, numbered with the next placeholder, and one more argument. */
  method Adding(q: Query, column: Column, arg: Arg) returns (r: Query)
    requires Ok(q)
    ensures Ok(r) && (RefusedBy(r) <==> RefusedBy(q) || BadStatus(column, arg))
    ensures forall row :: SelectedBy(r, row) <==> SelectedBy(q, row) && Holds(column, arg, row)
  {
    hide SelectedBy, RefusedBy, Ok;
    AndMeans(q, column, arg);
    AndRefused(q, column, arg);
    r := And(q, column, arg);
  }

  /** The tail both builders share: date range, labels, label prefix. */
  method AddShared(q0: Query, dateFrom: Option<int>, dateTo: Option<int>, labels: seq<string>, labelPrefix: string)
    returns (q: Query)
    requires Ok(q0)
    ensures Ok(q) && (RefusedBy(q) <==> RefusedBy(q0))
    ensures forall row :: SelectedBy(q, row) <==>
      SelectedBy(q0, row) && MatchesShared(row, dateFrom, dateTo, labels, labelPrefix)
  {
    hide Ok, SelectedBy, RefusedBy, And, TrimSpace, SomeLabelLike;
    q := q0;
    if dateFrom.Some? { q := Adding(q, CreatedFrom, Time(dateFrom.value)); }
    if dateTo.Some? { q := Adding(q, CreatedBefore, Time(dateTo.value)); }
    if |labels| > 0 { q := Adding(q, LabelsContain, List(labels)); }
    var prefix := TrimSpace(labelPrefix);
    if prefix != "" { q := Adding(q, SomeLabelIs, Str(prefix + "%")); }
  }

  const EMPTY := Query([], [], 1)

  lemma EmptySelectsAll()
    ensures Ok(EMPTY) && !RefusedBy(EMPTY) && forall row :: SelectedBy(EMPTY, row)
  {
  }

  lemma OkMeans(q: Query)
    requires Ok(q)
    ensures Numbered(q.clauses, q.args) && RefusedBy(q) == Refused(q.clauses, q.args)
    ensures forall row :: SelectedBy(q, row) == Selects(q.clauses, q.args, row)
  {
    hide Selects, Refused;
  }

  /** For every combination of fields the time query selects exactly the rows the filter means. */
  method BuildTimeQuery(f: TimeFilter) returns (clauses: seq<Clause>, args: seq<Arg>)
    ensures Numbered(clauses, args) && !Refused(clauses, args)
    ensures forall row :: Selects(clauses, args, row) <==> TimeMatches(f, row)
    ensures forall row :: Selects(clauses, args, row) <==>
      && (f.status == "" || f.status == "active" ==> row.status == "active")
      && (f.repo != "" ==> row.repo == f.repo)
      && (f.clientId.Some? ==> row.clientId == f.clientId)
      && (f.username != "" ==> row.username == f.username)
      && (f.dateFrom.Some? ==> row.createdAt >= f.dateFrom.value)
      && (f.dateTo.Some? ==> row.createdAt < f.dateTo.value)
      && (forall l :: l in f.labels ==> l in row.labels)
      && (TrimSpace(f.labelPrefix) != "" ==> exists l :: l in row.labels && Like(TrimSpace(f.labelPrefix) + "%", l))
  {
    hide TrimSpace, SomeLabelLike, SelectedBy, RefusedBy, Refused, Ok, MatchesShared, Selects, Like;
    var q := EMPTY;
    EmptySelectsAll();
    if f.status == "" || f.status == "active" { q := Adding(q, StatusIs, Str("active")); }
    if f.repo != "" { q := Adding(q, RepoIs, Str(f.repo)); }
    if f.clientId.Some? { q := Adding(q, ClientIs, Num(f.clientId.value)); }
    if f.username != "" { q := Adding(q, UsernameIs, Str(f.username)); }
    q := AddShared(q, f.dateFrom, f.dateTo, f.labels, f.labelPrefix);
    clauses, args := q.clauses, q.args;
    OkMeans(q);
    TimeMeans(f);
  }

  /** Likewise for plans; the query is refused exactly when the filter's status is none. */
  method BuildPlanQuery(f: PlanFilter) returns (clauses: seq<Clause>, args: seq<Arg>)
    ensures Numbered(clauses, args)
    ensures Refused(clauses, args) <==> f.status !in ["", "all", "active", "superseded", "deleted"]
    ensures forall row :: Selects(clauses, args, row) <==> PlanMatches(f, row)
    ensures forall row :: Selects(clauses, args, row) <==>
      && (f.status != "all" ==> row.status == (if f.status == "" then "active" else f.status))
      && (f.repo != "" ==> row.repo == f.repo)
      && (f.issue.Some? ==> row.issue == f.issue.value)
      && (f.dateFrom.Some? ==> row.createdAt >= f.dateFrom.value)
      && (f.dateTo.Some? ==> row.createdAt < f.dateTo.value)
      && (forall l :: l in f.labels ==> l in row.labels)
      && (TrimSpace(f.labelPrefix) != "" ==> exists l :: l in row.labels && Like(TrimSpace(f.labelPrefix) + "%", l))
  {
    hide TrimSpace, SomeLabelLike, SelectedBy, RefusedBy, Refused, Ok, MatchesShared, Selects, Like;
    var q := EMPTY;
    EmptySelectsAll();
    if f.status == "" || f.status == "active" {
      q := Adding(q, StatusIs, Str("active"));
    } else if f.status != "all" {
      q := Adding(q, StatusIs, Str(f.status));
    }
    if f.repo != "" { q := Adding(q, RepoIs, Str(f.repo)); }
    if f.issue.Some? { q := Adding(q, IssueIs, Num(f.issue.value)); }
    q := AddShared(q, f.dateFrom, f.dateTo, f.labels, f.labelPrefix);
    clauses, args := q.clauses, q.args;
    OkMeans(q);
    PlanMeans(f);
  }

  // ---- the listing ------------------------------------------------------------------------------

  const LIMIT := 500

  function Where(table: seq<Columns>, keep: Columns -> bool): seq<Columns> {
    if table == [] then []
    else (if keep(table[0]) then [table[0]] else []) + Where(table[1..], keep)
  }

  /** What the ordered, limited query may give of the matching rows: the newest first, and
      nothing left over is newer than what is given. */
  ghost predicate Newest(matching: seq<Columns>, rows: seq<Columns>) {
    && |rows| == (if |matching| < LIMIT then |matching| else LIMIT)
    && (forall i, j :: 0 <= i < j < |rows| ==> rows[i].createdAt >= rows[j].createdAt)
    && exists rest: seq<Columns> :: multiset(rows) + multiset(rest) == multiset(matching) && NoneNewer(rows, rest)
  }

  predicate NoneNewer(rows: seq<Columns>, rest: seq<Columns>) {
    forall r, x :: r in rows && x in rest ==> x.createdAt <= r.createdAt
  }

  /** None is the database's refusal. */
  ghost predicate MayAnswer(clauses: seq<Clause>, args: seq<Arg>, table: seq<Columns>, answer: Option<seq<Columns>>) {
    if Refused(clauses, args) then answer.None?
    else answer.Some? && Newest(Where(table, row => Selects(clauses, args, row)), answer.value)
  }

  /** The matching rows, each as often as the table holds it. */
  lemma {:induction false} WhereCounts(table: seq<Columns>, keep: Columns -> bool, row: Columns)
    ensures multiset(Where(table, keep))[row] == if keep(row) then multiset(table)[row] else 0
  {
    if table == [] {
    } else {
      WhereCounts(table[1..], keep, row);
      var head := if keep(table[0]) then [table[0]] else [];
      assert multiset(head + Where(table[1..], keep)) == multiset(head) + multiset(Where(table[1..], keep));
      assert table == [table[0]] + table[1..];
      assert multiset(table) == multiset([table[0]]) + multiset(table[1..]);
    }
  }

  /** What the ordered, limited query gives, without the functions above: at most 500 rows of the
      table that match, newest first, and a matching row is missing only if the limit is used up by
      rows that are no older. */
  lemma NewestMeans(table: seq<Columns>, keep: Columns -> bool, rows: seq<Columns>)
    requires Newest(Where(table, keep), rows)
    ensures |rows| <= 500 && forall i, j :: 0 <= i < j < |rows| ==> rows[i].createdAt >= rows[j].createdAt
    ensures forall r :: r in rows ==> keep(r) && multiset(rows)[r] <= multiset(table)[r]
    ensures forall x :: keep(x) && multiset(rows)[x] < multiset(table)[x] ==>
      |rows| == 500 && forall r :: r in rows ==> x.createdAt <= r.createdAt
  {
    hide Where;
    var matching := Where(table, keep);
    var rest: seq<Columns> :| multiset(rows) + multiset(rest) == multiset(matching) && NoneNewer(rows, rest);
    assert |multiset(rows) + multiset(rest)| == |rows| + |rest| && |multiset(matching)| == |matching|;
    forall r | r in rows
      ensures keep(r) && multiset(rows)[r] <= multiset(table)[r]
    {
      WhereCounts(table, keep, r);
      assert r in multiset(rows) && multiset(rows)[r] + multiset(rest)[r] == multiset(matching)[r];
    }
    forall x | keep(x) && multiset(rows)[x] < multiset(table)[x]
      ensures |rows| == 500 && forall r :: r in rows ==> x.createdAt <= r.createdAt
    {
      WhereCounts(table, keep, x);
      assert multiset(rows)[x] + multiset(rest)[x] == multiset(matching)[x];
      assert x in rest;
    }
  }

  /** With the query BuildTimeQuery builds, List answers at most 500 rows that match the filter,
      newest first, and leaves out a matching row only for 500 that are no older. */
  lemma TimeListing(f: TimeFilter, clauses: seq<Clause>, args: seq<Arg>, table: seq<Columns>,
        answer: Option<seq<Columns>>)
    requires !Refused(clauses, args) && forall row :: Selects(clauses, args, row) <==> TimeMatches(f, row)
    requires MayAnswer(clauses, args, table, answer)
    ensures answer.Some? && |answer.value| <= 500
    ensures forall i, j :: 0 <= i < j < |answer.value| ==> answer.value[i].createdAt >= answer.value[j].createdAt
    ensures forall r :: r in answer.value ==> TimeMatches(f, r) && multiset(answer.value)[r] <= multiset(table)[r]
    ensures forall x :: TimeMatches(f, x) && multiset(answer.value)[x] < multiset(table)[x] ==>
      |answer.value| == 500 && forall r :: r in answer.value ==> x.createdAt <= r.createdAt
  {
    hide Selects, TimeMatches, Refused, Newest;
    NewestMeans(table, row => Selects(clauses, args, row), answer.value);
  }

  /** Likewise for plans, or the list fails, exactly on a status that is none. */
  lemma PlanListing(f: PlanFilter, clauses: seq<Clause>, args: seq<Arg>, table: seq<Columns>,
        answer: Option<seq<Columns>>)
    requires Refused(clauses, args) <==> f.status !in ["", "all", "active", "superseded", "deleted"]
    requires forall row :: Selects(clauses, args, row) <==> PlanMatches(f, row)
    requires MayAnswer(clauses, args, table, answer)
    ensures answer.None? <==> f.status !in ["", "all", "active", "superseded", "deleted"]
    ensures answer.Some? ==> |answer.value| <= 500
    ensures answer.Some? ==>
      forall i, j :: 0 <= i < j < |answer.value| ==> answer.value[i].createdAt >= answer.value[j].createdAt
    ensures answer.Some? ==>
      forall r :: r in answer.value ==> PlanMatches(f, r) && multiset(answer.value)[r] <= multiset(table)[r]
    ensures answer.Some? ==>
      forall x :: PlanMatches(f, x) && multiset(answer.value)[x] < multiset(table)[x] ==>
        |answer.value| == 500 && forall r :: r in answer.value ==> x.createdAt <= r.createdAt
  {
    hide Selects, PlanMatches, Refused, Newest;
    if answer.Some? { NewestMeans(table, row => Selects(clauses, args, row), answer.value); }
  }

  /** Up to 500 matching rows are all listed. */
  lemma ShortListingComplete(matching: seq<Columns>, rows: seq<Columns>)
    requires Newest(matching, rows) && |matching| <= LIMIT
    ensures multiset(rows) == multiset(matching)
  {
    var rest: seq<Columns> :| multiset(rows) + multiset(rest) == multiset(matching) && NoneNewer(rows, rest);
    assert |multiset(rows) + multiset(rest)| == |rows| + |rest| && |multiset(matching)| == |matching|;
    assert rest == [];
  }
}
