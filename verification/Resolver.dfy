/** Client attribution from issue labels (internal/client/resolver.go). */
module Resolver {
  import opened Options

  /** A row of label_mappings, with whether its client is active. */
  datatype Mapping = Mapping(clientId: int, pattern: string, repo: Option<string>, createdAt: int, clientActive: bool)

  predicate Matches(m: Mapping, labels: seq<string>) {
    m.clientActive && m.pattern in labels
  }

  function Filter(table: seq<Mapping>, labels: seq<string>): (r: seq<Mapping>)
    ensures forall m :: m in r <==> m in table && Matches(m, labels)
  {
    if table == [] then []
    else (if Matches(table[0], labels) then [table[0]] else []) + Filter(table[1..], labels)
  }

  /** Mappings scoped to a repository come first, and older ones before younger ones. */
  predicate Ordered(m: Mapping, next: Mapping) {
    || (m.repo.Some? && next.repo.None?)
    || (m.repo.Some? == next.repo.Some? && m.createdAt <= next.createdAt)
  }

  /** What the query may return: the matching rows, in an order the query allows. */
  predicate IsAnswer(table: seq<Mapping>, labels: seq<string>, rows: seq<Mapping>) {
    && multiset(rows) == multiset(Filter(table, labels))
    && forall i, j :: 0 <= i < j < |rows| ==> Ordered(rows[i], rows[j])
  }

  // ---- the documented precedence --------------------------------------------------------------

  /** A mapping in force for the labels that is scoped to the repository itself ... */
  predicate Own(table: seq<Mapping>, labels: seq<string>, repo: string, m: Mapping) {
    m in table && Matches(m, labels) && m.repo == Some(repo)
  }

  /** ... to every repository ... */
  predicate Global(table: seq<Mapping>, labels: seq<string>, m: Mapping) {
    m in table && Matches(m, labels) && m.repo.None?
  }

  /** ... or to another one. */
  predicate Foreign(table: seq<Mapping>, labels: seq<string>, repo: string, m: Mapping) {
    m in table && Matches(m, labels) && m.repo.Some? && m.repo.value != repo
  }

  ghost predicate OldestOwn(table: seq<Mapping>, labels: seq<string>, repo: string, m: Mapping) {
    Own(table, labels, repo, m) && forall o :: Own(table, labels, repo, o) ==> m.createdAt <= o.createdAt
  }

  ghost predicate OldestGlobal(table: seq<Mapping>, labels: seq<string>, m: Mapping) {
    Global(table, labels, m) && forall o :: Global(table, labels, o) ==> m.createdAt <= o.createdAt
  }

  /** The oldest mapping of this repository wins; otherwise the oldest global one; otherwise
      there is no client. */
  ghost predicate Documented(table: seq<Mapping>, labels: seq<string>, repo: string, chosen: Option<Mapping>) {
    if exists m :: Own(table, labels, repo, m) then chosen.Some? && OldestOwn(table, labels, repo, chosen.value)
    else if exists m :: Global(table, labels, m) then chosen.Some? && OldestGlobal(table, labels, chosen.value)
    else chosen.None?
  }

  /** The choice of the code: a mapping of the repository itself before one that is scoped to another
      repository, that before a global one, and the oldest of each kind. */
  ghost predicate Preferred(table: seq<Mapping>, labels: seq<string>, repo: string, c: Mapping) {
    && c in table && Matches(c, labels)
    && forall m :: m in table && Matches(m, labels) ==>
      && (m.repo == Some(repo) ==> c.repo == Some(repo) && c.createdAt <= m.createdAt)
      && (m.repo.Some? && c.repo != Some(repo) ==> c.repo.Some? && c.createdAt <= m.createdAt)
      && (c.repo.None? ==> c.createdAt <= m.createdAt)
  }

  /** `answer` is what the query returned. The mapping chosen is the first one of the repository,
      or else simply the first. */
  method ResolveClient(ghost table: seq<Mapping>, labels: seq<string>, answer: seq<Mapping>, repo: string)
    returns (chosen: Option<Mapping>)
    requires IsAnswer(table, labels, answer)
    ensures chosen.None? <==> forall m :: m in table ==> !(m.clientActive && m.pattern in labels)
    ensures chosen.Some? ==>
      var c := chosen.value;
      && c in table && c.clientActive && c.pattern in labels
      && forall m :: m in table && m.clientActive && m.pattern in labels ==>
        && (m.repo == Some(repo) ==> c.repo == Some(repo) && c.createdAt <= m.createdAt)
        && (m.repo.Some? && c.repo != Some(repo) ==> c.repo.Some? && c.createdAt <= m.createdAt)
        && (c.repo.None? ==> c.createdAt <= m.createdAt)
    ensures Documented(table, labels, repo, chosen) <==>
      (exists m :: Own(table, labels, repo, m)) || (forall m :: !Foreign(table, labels, repo, m))
  {
    hide IsAnswer, Preferred, Documented, Own, Foreign;
    AnswerRows(table, labels, answer);
    if |labels| == 0 {
      NothingDocumented(table, labels, repo);
      return None;
    }
    var matches: seq<Mapping> := [];
    for i := 0 to |answer|
      invariant matches == answer[..i]
    {
      matches := matches + [answer[i]];
    }
    assert matches == answer;
    if |matches| == 0 {
      NothingDocumented(table, labels, repo);
      return None;
    }
    for i := 0 to |matches|
      invariant forall j :: 0 <= j < i ==> matches[j].repo != Some(repo)
    {
      if matches[i].repo == Some(repo) {
        FirstOwnIsOldest(table, labels, repo, answer, i);
        OwnPreferred(table, labels, repo, matches[i]);
        PreferredSpelled(table, labels, repo, matches[i]);
        return Some(matches[i]);
      }
    }
    FirstWithoutOwn(table, labels, repo, answer);
    PreferredSpelled(table, labels, repo, matches[0]);
    chosen := Some(matches[0]);
  }

  lemma PreferredSpelled(table: seq<Mapping>, labels: seq<string>, repo: string, c: Mapping)
    requires Preferred(table, labels, repo, c)
    ensures c in table && c.clientActive && c.pattern in labels
    ensures forall m :: m in table && m.clientActive && m.pattern in labels ==>
      && (m.repo == Some(repo) ==> c.repo == Some(repo) && c.createdAt <= m.createdAt)
      && (m.repo.Some? && c.repo != Some(repo) ==> c.repo.Some? && c.createdAt <= m.createdAt)
      && (c.repo.None? ==> c.createdAt <= m.createdAt)
  {
  }

  lemma NothingDocumented(table: seq<Mapping>, labels: seq<string>, repo: string)
    requires forall m :: m in table ==> !Matches(m, labels)
    ensures Documented(table, labels, repo, None)
    ensures forall m :: !Own(table, labels, repo, m) && !Foreign(table, labels, repo, m)
  {
  }

  /** The oldest mapping of the repository itself is preferred, and the documented choice. */
  lemma OwnPreferred(table: seq<Mapping>, labels: seq<string>, repo: string, c: Mapping)
    requires OldestOwn(table, labels, repo, c)
    ensures Preferred(table, labels, repo, c) && Documented(table, labels, repo, Some(c))
    ensures exists m :: Own(table, labels, repo, m)
  {
  }

  lemma AnswerRows(table: seq<Mapping>, labels: seq<string>, answer: seq<Mapping>)
    requires IsAnswer(table, labels, answer)
    ensures forall m :: m in answer <==> m in table && Matches(m, labels)
  {
    assert forall m :: m in answer <==> m in multiset(answer);
    assert forall m :: m in Filter(table, labels) <==> m in multiset(Filter(table, labels));
  }

  lemma FirstOwnIsOldest(table: seq<Mapping>, labels: seq<string>, repo: string, answer: seq<Mapping>, i: nat)
    requires IsAnswer(table, labels, answer) && i < |answer| && answer[i].repo == Some(repo)
    requires forall j :: 0 <= j < i ==> answer[j].repo != Some(repo)
    ensures OldestOwn(table, labels, repo, answer[i])
  {
    AnswerRows(table, labels, answer);
    assert answer[i] in answer;
    forall o | Own(table, labels, repo, o)
      ensures answer[i].createdAt <= o.createdAt
    {
      var j :| 0 <= j < |answer| && answer[j] == o;
    }
  }

  /** Without a mapping of its own, the repository gets the very first row: the oldest one scoped to
      another repository if any is, and otherwise the oldest global one. */
  lemma FirstWithoutOwn(table: seq<Mapping>, labels: seq<string>, repo: string, answer: seq<Mapping>)
    requires IsAnswer(table, labels, answer) && answer != []
    requires forall j :: 0 <= j < |answer| ==> answer[j].repo != Some(repo)
    ensures Preferred(table, labels, repo, answer[0])
    ensures forall m :: !Own(table, labels, repo, m)
    ensures (exists m :: Foreign(table, labels, repo, m)) ==> Foreign(table, labels, repo, answer[0])
    ensures Documented(table, labels, repo, Some(answer[0])) <==> forall m :: !Foreign(table, labels, repo, m)
  {
    AnswerRows(table, labels, answer);
    assert answer[0] in answer;
    forall m | m in table && Matches(m, labels)
      ensures m.repo != Some(repo)
      ensures m == answer[0] || Ordered(answer[0], m)
    {
      var j :| 0 <= j < |answer| && answer[j] == m;
    }
    if m :| Foreign(table, labels, repo, m) {
      assert !Global(table, labels, answer[0]);
    } else {
      assert !Foreign(table, labels, repo, answer[0]);
      assert OldestGlobal(table, labels, answer[0]);
    }
  }

  // ---- the documentation's own example -----------------------------------------------------

  const AMSTERDAM := Mapping(1, "client:amsterdam", None, 10, true)
  const AMSTERDAM_IT := Mapping(2, "client:amsterdam", Some("org/internal-tools"), 20, true)
  const ROTTERDAM := Mapping(3, "client:rotterdam", None, 30, true)

  /** docs/reference/client-attribution.md promises an issue of org/website labelled
      client:amsterdam to the global client; the code gives it to the client of
      org/internal-tools. */
  lemma ExampleMisattributed(answer: seq<Mapping>)
    requires IsAnswer([AMSTERDAM, AMSTERDAM_IT, ROTTERDAM], ["client:amsterdam"], answer)
    ensures answer != [] && answer[0] == AMSTERDAM_IT
    ensures Documented([AMSTERDAM, AMSTERDAM_IT, ROTTERDAM], ["client:amsterdam"], "org/website", Some(AMSTERDAM))
    ensures !Documented([AMSTERDAM, AMSTERDAM_IT, ROTTERDAM], ["client:amsterdam"], "org/website", Some(answer[0]))
  {
    var table, labels := [AMSTERDAM, AMSTERDAM_IT, ROTTERDAM], ["client:amsterdam"];
    AnswerRows(table, labels, answer);
    assert AMSTERDAM_IT in table && AMSTERDAM in table && AMSTERDAM_IT in answer;
    assert Foreign(table, labels, "org/website", AMSTERDAM_IT) && Global(table, labels, AMSTERDAM);
    forall j | 0 <= j < |answer|
      ensures answer[j].repo != Some("org/website")
    {
      assert answer[j] in answer && answer[j] in table;
    }
    FirstWithoutOwn(table, labels, "org/website", answer);
    assert Foreign(table, labels, "org/website", answer[0]);
  }
}
