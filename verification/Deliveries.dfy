/** Webhook deliveries and the claim that gates them (internal/webhook/handler.go, delivery.go). */
module Deliveries {
  import opened Options
  import Commands
  import TimeEntries
  import PlanEntries

  datatype EventType = IssueComment | ReviewComment | OtherEvent

  /** A decoded comment event; `issue` is the issue number or the pull request number. */
  datatype Event = Event(action: string, commentId: int, body: string, commentUrl: string,
                         userId: int, login: string, repo: string, issue: int)

  /** `payload` is None when the JSON does not decode. */
  datatype Delivery = Delivery(id: string, signatureOk: bool, eventType: EventType, payload: Option<Event>)

  /** What the outside answers while one delivery is processed: the membership policy (None when
      none is configured), the issue's labels (None on an error), the client the labels resolve
      to, and the database clock. */
  datatype Answers = Answers(allowed: Option<bool>, labels: Option<seq<string>>, client: Option<int>, now: int)

  /** The comment event a delivery is dispatched with. */
  function EventOf(d: Delivery): Option<Event> {
    if d.eventType.OtherEvent? then None else d.payload
  }

  /** What a comment with this action and this text commands: only one just created is parsed. */
  function CommandIn(action: string, text: string): Option<Commands.Command> {
    if action != "created" then None
    else match Commands.Parse(text)
      case Parsed(cmd) => Some(cmd)
      case _ => None
  }

  /** The command of a delivery: its event is a comment just created whose body parses. */
  function CommandOf(d: Delivery): (r: Option<Commands.Command>)
    ensures r.Some? ==> EventOf(d).Some?
  {
    match EventOf(d)
    case None => None
    case Some(event) => CommandIn(event.action, event.body)
  }

  function LabelsOf(a: Answers): seq<string> {
    match a.labels case None => [] case Some(labels) => labels
  }

  function KeyOf(event: Event): TimeEntries.Key {
    TimeEntries.Key(event.userId, event.repo, event.issue)
  }

  function IssueOf(event: Event): PlanEntries.Issue {
    PlanEntries.Issue(event.repo, event.issue)
  }

  /** What FindLatestActive may return. */
  predicate TimeAnswer(t: TimeEntries.Table, key: TimeEntries.Key, found: Option<nat>) {
    match found
    case None => forall i :: 0 <= i < |t| ==> !TimeEntries.ActiveAt(t, i, key)
    case Some(id) => TimeEntries.IsLatestActive(t, key, id)
  }

  /** What FindActive may return. */
  predicate PlanAnswer(t: PlanEntries.Table, issue: PlanEntries.Issue, found: Option<nat>) {
    match found
    case None => forall i :: 0 <= i < |t| ==> !PlanEntries.ActiveAt(t, i, issue)
    case Some(id) => PlanEntries.ActiveAt(t, id, issue)
  }

  /** The time entry a /log or /correct writes. */
  function TimeEntryFor(event: Event, cmd: Commands.Command, labels: seq<string>,
        client: Option<int>): TimeEntries.Entry {
    TimeEntries.Entry(event.userId, event.login, event.repo, event.issue, cmd.minutes, cmd.description,
                      client, event.commentId, event.commentUrl, "user", labels)
  }

  function PlanEntryFor(event: Event, cmd: Commands.Command, labels: seq<string>): PlanEntries.Entry {
    PlanEntries.Entry(event.userId, event.login, event.repo, event.issue, cmd.minutes, cmd.description,
                      event.commentId, event.commentUrl, "user", labels)
  }

  function ClosingFor(event: Event): PlanEntries.Closing {
    PlanEntries.Closing(event.commentId, event.commentUrl)
  }

  /** webhook_deliveries, whose unique index makes the claim atomic. */
  class DeliveryStore {
    var claimed: set<string>

    constructor ()
      ensures claimed == {}
    {
      claimed := {};
    }

    /** One statement inserts the id or skips it; true for the caller whose row went in. */
    method Claim(id: string) returns (won: bool)
      modifies this
      ensures won <==> id !in old(claimed)
      ensures claimed == old(claimed) + {id}
    {
      won := id !in claimed;
      claimed := claimed + {id};
    }
  }
}
