/** The work-tracking tables and what each transaction does to them. */
module WorkModel {

  datatype Option<+T> = None | Some(value: T) {
    /** `COALESCE(this, default)` */
    function OrElse<U>(default: T): Option<T> { if Some? then this else Some(default) }
  }

  type EmailId = nat
  type UserId = nat
  type RoutingId = nat
  type Account = nat
  type Time = int

  datatype Status = Assigned | Acknowledged | InProgress | Responded | Completed

  datatype WorkItem = WorkItem(
    routing: RoutingId, assignee: UserId, status: Status,
    assignedAt: Time, dueAt: Time,
    acknowledgedAt: Option<Time>, replyInitiatedAt: Option<Time>,
    firstRespondedAt: Option<Time>, respondedAt: Option<Time>, completedAt: Option<Time>,
    lastActivityAt: Time, updatedAt: Time)

  datatype Kind = AssignedTo | AcknowledgedBy | InProgressOn | InProgressOff | ReplyInitiated | ResponseDetected |
      CompletedBy

  /**
   * A row of work_events. `holder` is the assignee once the event has happened; the table reaches it through the
   * routing assignment it references.
   */
  datatype Event = Event(
    kind: Kind, item: EmailId, routing: RoutingId, actor: Option<UserId>,
    messageId: string, threadId: string, sentAt: Option<Time>, at: Time, holder: UserId)

  datatype Outbound = Outbound(threadId: string, sentAt: Time, linked: Option<EmailId>)

  /** Work items by email message (unique index), the event log, and sent mail by account and provider message id. */
  datatype Db = Db(items: map<EmailId, WorkItem>, events: seq<Event>, outbound: map<(Account, string), Outbound>)

  /** `overdue` is the configured delay; `threads` the Gmail thread of each message that has one. */
  datatype Config = Config(overdue: Time, threads: map<EmailId, string>)

  datatype Sent = Sent(messageId: string, threadId: string, sentAt: Option<Time>) {
    /** An unreadable date counts as the time of the sync. */
    function At(now: Time): Time { if sentAt.Some? then sentAt.value else now }
  }

  datatype Error = NoWork | NotAssignee | NotToggleable | NoThread | RoutingTaken
  datatype Outcome = Row(row: Option<WorkItem>) | Failed(error: Error) | Synced(outboundCount: nat, linkedCount: nat)

  datatype Op =
    | Ensure(email: EmailId, routing: RoutingId, assignee: Option<UserId>, assignedAt: Option<Time>,
      assignedBy: Option<UserId>)
    | Acknowledge(email: EmailId, viewer: Option<UserId>)
    | SetInProgress(email: EmailId, actor: UserId, active: bool)
    | InitiateReply(email: EmailId, actor: UserId)
    | Complete(email: EmailId, actor: UserId)
    | Sync(account: Account, messages: seq<Sent>)

  // ----- the event log and its unique index -----

  /** The partial unique index on (work item, provider message id) of response_detected events. */
  predicate Duplicates(a: Event, b: Event) {
    && a.kind == ResponseDetected && b.kind == ResponseDetected
    && a.item == b.item && a.messageId == b.messageId && a.messageId != ""
  }

  /** `INSERT ... ON CONFLICT DO NOTHING` */
  function Append(events: seq<Event>, e: Event): seq<Event> {
    if exists i :: 0 <= i < |events| && Duplicates(events[i], e) then events else events + [e]
  }

  function Plain(kind: Kind, email: EmailId, w: WorkItem, actor: Option<UserId>, now: Time): Event {
    Event(kind, email, w.routing, actor, "", "", None, now, w.assignee)
  }

  // ----- the updates of one row -----

  /** The inserted row, or the row after `ON CONFLICT (email_message_id) DO UPDATE`. */
  function Assign(cfg: Config, old_: Option<WorkItem>, routing: RoutingId, assignee: UserId, at: Time,
      now: Time): WorkItem {
    var created := WorkItem(routing, assignee, Assigned, at, at + cfg.overdue, None, None, None, None, None, at, now);
    if old_.None? || old_.value.assignee != assignee then created
    else old_.value.(routing := routing, assignedAt := at, dueAt := at + cfg.overdue, lastActivityAt := at,
      updatedAt := now)
  }

  function Touch(w: WorkItem, now: Time): WorkItem { w.(lastActivityAt := now, updatedAt := now) }

  function MarkAcknowledged(w: WorkItem, now: Time): WorkItem {
    Touch(w, now).(status := if w.status == Assigned then Acknowledged else w.status,
                   acknowledgedAt := w.acknowledgedAt.OrElse<Time>(now))
  }

  function MarkProgress(w: WorkItem, status: Status, now: Time): WorkItem {
    Touch(w, now).(status := status, acknowledgedAt := w.acknowledgedAt.OrElse<Time>(now))
  }

  function MarkReply(w: WorkItem, now: Time): WorkItem {
    Touch(w, now).(status := if w.status == Assigned || w.status == Acknowledged then InProgress else w.status,
                   acknowledgedAt := w.acknowledgedAt.OrElse<Time>(now), replyInitiatedAt := Some(now))
  }

  function MarkCompleted(w: WorkItem, now: Time): WorkItem {
    Touch(w, now).(status := Completed, completedAt := w.completedAt.OrElse<Time>(now))
  }

  function MarkResponded(w: WorkItem, sentAt: Time, now: Time): WorkItem {
    w.(status := if w.status == Completed then Completed else Responded,
       firstRespondedAt := w.firstRespondedAt.OrElse<Time>(sentAt), respondedAt := Some(sentAt),
       lastActivityAt := sentAt, updatedAt := now)
  }

  // ----- the linker's query -----

  predicate Eligible(cfg: Config, items: map<EmailId, WorkItem>, e: EmailId, threadId: string, sentAt: Time) {
    && e in items && e in cfg.threads && cfg.threads[e] == threadId
    && items[e].replyInitiatedAt.Some? && items[e].replyInitiatedAt.value <= sentAt
    && items[e].status != Completed
  }

  /** `ORDER BY reply_initiated_at DESC, updated_at DESC`; the id only breaks what SQL leaves open. */
  predicate Before(items: map<EmailId, WorkItem>, a: EmailId, b: EmailId) {
    && a in items && b in items && items[a].replyInitiatedAt.Some? && items[b].replyInitiatedAt.Some?
    && var x, y := items[a], items[b];
       || x.replyInitiatedAt.value > y.replyInitiatedAt.value
       || (x.replyInitiatedAt == y.replyInitiatedAt
         && (x.updatedAt > y.updatedAt || (x.updatedAt == y.updatedAt && a <= b)))
  }

  predicate Best(cfg: Config, items: map<EmailId, WorkItem>, e: EmailId, threadId: string, sentAt: Time) {
    && Eligible(cfg, items, e, threadId, sentAt)
    && forall o :: o in items && Eligible(cfg, items, o, threadId, sentAt) ==> Before(items, e, o)
  }

  /** `LIMIT 1` */
  function Pick(cfg: Config, items: map<EmailId, WorkItem>, threadId: string, sentAt: Time): (r: Option<EmailId>)
    ensures r.Some? ==> Best(cfg, items, r.value, threadId, sentAt)
    ensures r.None? ==> forall e :: e in items ==> !Best(cfg, items, e, threadId, sentAt)
  {
    if exists e :: e in items && Best(cfg, items, e, threadId, sentAt) then
      var e :| e in items && Best(cfg, items, e, threadId, sentAt);
      Some(e)
    else None
  }

  /** A row is found exactly when some row is eligible. */
  lemma PickFinds(cfg: Config, items: map<EmailId, WorkItem>, threadId: string, sentAt: Time)
    ensures Pick(cfg, items, threadId, sentAt).None?
      <==> forall e :: e in items ==> !Eligible(cfg, items, e, threadId, sentAt)
  {
    if e :| e in items && Eligible(cfg, items, e, threadId, sentAt) {
      var candidates := set o | o in items && Eligible(cfg, items, o, threadId, sentAt);
      assert e in candidates;
      var best := Maximal(cfg, items, threadId, sentAt, candidates);
      assert Best(cfg, items, best, threadId, sentAt);
    }
  }

  lemma {:induction false} Maximal(cfg: Config, items: map<EmailId, WorkItem>, threadId: string, sentAt: Time,
      s: set<EmailId>)
    returns (best: EmailId)
    requires s != {} && forall o :: o in s ==> Eligible(cfg, items, o, threadId, sentAt)
    ensures best in s && forall o :: o in s ==> Before(items, best, o)
    decreases |s|
  {
    var x :| x in s;
    if s == {x} { return x; }
    assert s == (s - {x}) + {x};
    var y := Maximal(cfg, items, threadId, sentAt, s - {x});
    best := if Before(items, x, y) then x else y;
    forall o | o in s ensures Before(items, best, o) {
      assert o == x || o in s - {x};
    }
  }

  // ----- transactions -----

  function Write(db: Db, email: EmailId, w: WorkItem, e: Event): Db {
    db.(items := db.items[email := w], events := Append(db.events, e))
  }

  /** Another item already holds this routing assignment (unique constraint). */
  predicate Taken(db: Db, email: EmailId, routing: RoutingId) {
    exists e :: e in db.items && e != email && db.items[e].routing == routing
  }

  function Lookup(db: Db, email: EmailId): Option<WorkItem> {
    if email in db.items then Some(db.items[email]) else None
  }

  function ApplyEnsure(cfg: Config, db: Db, op: Op, now: Time): (Db, Outcome)
    requires op.Ensure?
  {
    if op.assignee.None? then (db, Row(None))
    else if Taken(db, op.email, op.routing) then (db, Failed(RoutingTaken))
    else
      var at := if op.assignedAt.Some? then op.assignedAt.value else now;
      var w := Assign(cfg, Lookup(db, op.email), op.routing, op.assignee.value, at, now);
      (Write(db, op.email, w, Plain(AssignedTo, op.email, w, op.assignedBy, now)), Row(Some(w)))
  }

  function ApplyAcknowledge(db: Db, op: Op, now: Time): (Db, Outcome)
    requires op.Acknowledge?
  {
    var found := Lookup(db, op.email);
    if op.viewer.None? || found.None? || found.value.assignee != op.viewer.value then (db, Row(found))
    else if found.value.status != Assigned && found.value.acknowledgedAt.Some? then (db, Row(found))
    else
      var w := MarkAcknowledged(found.value, now);
      (Write(db, op.email, w, Plain(AcknowledgedBy, op.email, w, op.viewer, now)), Row(Some(w)))
  }

  /** Why the row of `email` may not be changed by `actor`, if it may not. */
  function Denied(db: Db, email: EmailId, actor: UserId): Option<Error> {
    if email !in db.items then Some(NoWork)
    else if db.items[email].assignee != actor then Some(NotAssignee)
    else None
  }

  function ApplySetInProgress(db: Db, op: Op, now: Time): (Db, Outcome)
    requires op.SetInProgress?
  {
    var denied := Denied(db, op.email, op.actor);
    if denied.Some? then (db, Failed(denied.value)) else
    var w := db.items[op.email];
    if w.status == Responded || w.status == Completed then (db, Failed(NotToggleable)) else
    var next := if op.active then InProgress else if w.status == InProgress then Acknowledged else w.status;
    if w.status == next then (db, Row(Some(w))) else
    var w' := MarkProgress(w, next, now);
    var kind := if op.active then InProgressOn else InProgressOff;
    (Write(db, op.email, w', Plain(kind, op.email, w', Some(op.actor), now)), Row(Some(w')))
  }

  function ApplyInitiateReply(cfg: Config, db: Db, op: Op, now: Time): (Db, Outcome)
    requires op.InitiateReply?
  {
    var denied := Denied(db, op.email, op.actor);
    if denied.Some? then (db, Failed(denied.value)) else
    var threadId := if op.email in cfg.threads then cfg.threads[op.email] else "";
    if threadId == "" then (db, Failed(NoThread)) else
    var w := MarkReply(db.items[op.email], now);
    (Write(db, op.email, w, Plain(ReplyInitiated, op.email, w, Some(op.actor), now).(threadId := threadId)),
      Row(Some(w)))
  }

  function ApplyComplete(db: Db, op: Op, now: Time): (Db, Outcome)
    requires op.Complete?
  {
    var denied := Denied(db, op.email, op.actor);
    if denied.Some? then (db, Failed(denied.value)) else
    var w := MarkCompleted(db.items[op.email], now);
    (Write(db, op.email, w, Plain(CompletedBy, op.email, w, Some(op.actor), now)), Row(Some(w)))
  }

  // ----- outbound mail -----

  /** Insert or refresh the row of a sent message; an existing link is kept. */
  function Upsert(db: Db, key: (Account, string), threadId: string, sentAt: Time): Db {
    var linked := if key in db.outbound then db.outbound[key].linked else None;
    db.(outbound := db.outbound[key := Outbound(threadId, sentAt, linked)])
  }

  function Response(e: EmailId, w: WorkItem, m: Sent, sentAt: Time, now: Time): Event {
    Event(ResponseDetected, e, w.routing, Some(w.assignee), m.messageId, m.threadId, Some(sentAt), now, w.assignee)
  }

  /** Link an outbound row to a work item. */
  function Link(db: Db, key: (Account, string), e: EmailId, m: Sent, sentAt: Time, now: Time): Db
    requires key in db.outbound && e in db.items
  {
    var w := MarkResponded(db.items[e], sentAt, now);
    Write(db.(outbound := db.outbound[key := db.outbound[key].(linked := Some(e))]), e, w,
      Response(e, db.items[e], m, sentAt, now))
  }

  function SyncOne(cfg: Config, db: Db, account: Account, m: Sent, now: Time): (Db, nat) {
    var key, sentAt := (account, m.messageId), m.At(now);
    var db1 := Upsert(db, key, m.threadId, sentAt);
    if db1.outbound[key].linked.Some? then (db1, 0)
    else match Pick(cfg, db1.items, m.threadId, sentAt)
      case None => (db1, 0)
      case Some(e) => (Link(db1, key, e, m, sentAt, now), 1)
  }

  function SyncAll(cfg: Config, db: Db, account: Account, messages: seq<Sent>, now: Time): (Db, nat) {
    if messages == [] then (db, 0) else
    var before := SyncAll(cfg, db, account, messages[..|messages| - 1], now);
    var last := SyncOne(cfg, before.0, account, messages[|messages| - 1], now);
    (last.0, before.1 + last.1)
  }

  function ApplySync(cfg: Config, db: Db, op: Op, now: Time): (Db, Outcome)
    requires op.Sync?
  {
    var r := SyncAll(cfg, db, op.account, op.messages, now);
    (r.0, Synced(|op.messages|, r.1))
  }

  function Apply(cfg: Config, db: Db, op: Op, now: Time): (Db, Outcome) {
    match op
    case Ensure(_, _, _, _, _) => ApplyEnsure(cfg, db, op, now)
    case Acknowledge(_, _) => ApplyAcknowledge(db, op, now)
    case SetInProgress(_, _, _) => ApplySetInProgress(db, op, now)
    case InitiateReply(_, _) => ApplyInitiateReply(cfg, db, op, now)
    case Complete(_, _) => ApplyComplete(db, op, now)
    case Sync(_, _) => ApplySync(cfg, db, op, now)
  }

  // ----- runs -----

  datatype Tick = Tick(op: Op, now: Time)

  const Empty := Db(map[], [], map[])

  function Run(cfg: Config, db: Db, ticks: seq<Tick>): Db {
    if ticks == [] then db else
    var last := ticks[|ticks| - 1];
    Apply(cfg, Run(cfg, db, ticks[..|ticks| - 1]), last.op, last.now).0
  }

  /** Each transaction reads a later clock than the one before, and than `after`. */
  ghost predicate Clocked(ticks: seq<Tick>, after: Time) {
    && (forall i :: 0 <= i < |ticks| ==> ticks[i].now > after)
    && (forall i, j :: 0 <= i < j < |ticks| ==> ticks[i].now < ticks[j].now)
  }
}
