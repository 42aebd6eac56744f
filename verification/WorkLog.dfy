/**
 * The event log determines the rows: every column of a work item is a fold of its events since the last reassignment.
 */
module WorkLog {
  import opened WorkModel

  // ----- reading the log -----

  /** The events of one item, in order. */
  function History(events: seq<Event>, e: EmailId): seq<Event> {
    if events == [] then [] else
    var before, last := History(events[..|events| - 1], e), events[|events| - 1];
    if last.item == e then before + [last] else before
  }

  /** The part of a history since the item last changed hands. */
  function Tenure(h: seq<Event>): seq<Event> {
    if h == [] then [] else
    var n := |h| - 1;
    if n > 0 && h[n - 1].holder == h[n].holder then Tenure(h[..n]) + [h[n]] else [h[n]]
  }

  /** When the first event of one of these kinds happened. */
  function FirstAt(h: seq<Event>, kinds: set<Kind>): Option<Time> {
    if h == [] then None else if h[0].kind in kinds then Some(h[0].at) else FirstAt(h[1..], kinds)
  }

  /** The last event of one of these kinds. */
  function Last(h: seq<Event>, kinds: set<Kind>): Option<Event> {
    if h == [] then None else
    var n := |h| - 1;
    if h[n].kind in kinds then Some(h[n]) else Last(h[..n], kinds)
  }

  function FirstSent(h: seq<Event>): Option<Time> {
    if h == [] then None else if h[0].kind == ResponseDetected then h[0].sentAt else FirstSent(h[1..])
  }

  function LastSent(h: seq<Event>): Option<Time> {
    var last := Last(h, {ResponseDetected});
    if last.Some? then last.value.sentAt else None
  }

  function LastAt(h: seq<Event>, kinds: set<Kind>): Option<Time> {
    var last := Last(h, kinds);
    if last.Some? then Some(last.value.at) else None
  }

  /** Completion outranks a response, a response outranks the progress toggles, and of those the last one counts. */
  function StatusOf(t: seq<Event>): Status {
    if Last(t, {CompletedBy}).Some? then Completed
    else if Last(t, {ResponseDetected}).Some? then Responded
    else
      var last := Last(t, {AcknowledgedBy, InProgressOn, InProgressOff, ReplyInitiated});
      if last.None? then Assigned
      else if last.value.kind == InProgressOn || last.value.kind == ReplyInitiated then InProgress
      else Acknowledged
  }

  /** The columns that no response touches. */
  ghost predicate AgreesOnActions(w: WorkItem, t: seq<Event>) {
    && t != [] && w.assignee == t[|t| - 1].holder
    && w.acknowledgedAt == FirstAt(t, {AcknowledgedBy, InProgressOn, ReplyInitiated})
    && w.replyInitiatedAt == LastAt(t, {ReplyInitiated})
    && w.completedAt == FirstAt(t, {CompletedBy})
  }

  ghost predicate AgreesOnResponses(w: WorkItem, t: seq<Event>) {
    w.status == StatusOf(t) && w.firstRespondedAt == FirstSent(t) && w.respondedAt == LastSent(t)
  }

  /**
   * The row agrees with its events since the last change of assignee: always on the columns of its holder's actions,
   * and on the columns of its responses as long as every response was logged, in particular while there is none.
   */
  ghost predicate Agrees(w: WorkItem, t: seq<Event>, logged: bool) {
    AgreesOnActions(w, t) && (logged || w.respondedAt.None? ==> AgreesOnResponses(w, t))
  }

  // ----- the row invariant -----

  ghost predicate Consistent(cfg: Config, w: WorkItem) {
    && (w.status == Completed <==> w.completedAt.Some?)
    && (w.status == Assigned ==> w.acknowledgedAt.None? && w.replyInitiatedAt.None? && w.respondedAt.None?
                                 && w.completedAt.None?)
    && (w.status in {Acknowledged, InProgress, Responded} ==> w.acknowledgedAt.Some?)
    && (w.respondedAt.Some? ==> w.replyInitiatedAt.Some? && w.status in {Responded, Completed})
    && (w.status == Responded ==> w.replyInitiatedAt.Some? && w.respondedAt.Some?)
    && (w.replyInitiatedAt.Some? ==> w.acknowledgedAt.Some?
                                     && w.status in {InProgress, Acknowledged, Responded, Completed})
    && (w.firstRespondedAt.Some? <==> w.respondedAt.Some?)
    && w.dueAt - w.assignedAt == cfg.overdue
  }

  // ----- lemmas about appending one event -----

  lemma {:induction false} FirstAtSnoc(h: seq<Event>, e: Event, kinds: set<Kind>)
    ensures FirstAt(h + [e], kinds) == if FirstAt(h, kinds).Some? then FirstAt(h, kinds) else if e.kind in kinds
      then Some(e.at) else None
  {
    if h != [] {
      assert (h + [e])[1..] == h[1..] + [e];
      FirstAtSnoc(h[1..], e, kinds);
    } else {
      assert (h + [e])[1..] == [];
    }
  }

  lemma {:induction false} FirstSentSnoc(h: seq<Event>, e: Event)
    requires forall i :: 0 <= i < |h| && h[i].kind == ResponseDetected ==> h[i].sentAt.Some?
    ensures FirstSent(h + [e]) == if FirstSent(h).Some? then FirstSent(h) else if e.kind == ResponseDetected
      then e.sentAt else None
  {
    if h != [] {
      assert (h + [e])[1..] == h[1..] + [e];
      FirstSentSnoc(h[1..], e);
    } else {
      assert (h + [e])[1..] == [];
    }
  }

  lemma LastSnoc(h: seq<Event>, e: Event, kinds: set<Kind>)
    ensures Last(h + [e], kinds) == if e.kind in kinds then Some(e) else Last(h, kinds)
  {
    assert (h + [e])[..|h|] == h;
  }

  lemma {:induction false} LastKind(h: seq<Event>, kinds: set<Kind>)
    ensures Last(h, kinds).Some? ==> Last(h, kinds).value in h && Last(h, kinds).value.kind in kinds
  {
    if h != [] { LastKind(h[..|h| - 1], kinds); }
  }

  lemma HistorySnoc(events: seq<Event>, e: Event, x: EmailId)
    ensures History(events + [e], x) == if e.item == x then History(events, x) + [e] else History(events, x)
  {
    assert (events + [e])[..|events|] == events;
  }

  lemma TenureSnoc(h: seq<Event>, e: Event)
    ensures Tenure(h + [e]) == if h != [] && h[|h| - 1].holder == e.holder then Tenure(h) + [e] else [e]
  {
    assert (h + [e])[..|h|] == h;
  }

  /** Every event of a kind that carries a sent date has one. */
  ghost predicate Dated(h: seq<Event>) {
    forall i :: 0 <= i < |h| && h[i].kind == ResponseDetected ==> h[i].sentAt.Some?
  }

  lemma {:induction false} TenureSuffix(h: seq<Event>)
    ensures |Tenure(h)| <= |h| && Tenure(h) == h[|h| - |Tenure(h)|..]
    ensures h != [] ==> Tenure(h) != []
  {
    if h != [] {
      var n := |h| - 1;
      if n > 0 && h[n - 1].holder == h[n].holder {
        TenureSuffix(h[..n]);
        SuffixSnoc(h, n - |Tenure(h[..n])|);
      }
    }
  }

  lemma SuffixSnoc(h: seq<Event>, k: nat)
    requires k < |h|
    ensures h[k..] == h[..|h| - 1][k..] + [h[|h| - 1]]
  {
  }

  /** One more event of the same tenure, measured by all the folds at once. */
  lemma Extend(t: seq<Event>, e: Event)
    requires Dated(t)
    ensures FirstAt(t + [e], {AcknowledgedBy, InProgressOn, ReplyInitiated})
         == if FirstAt(t, {AcknowledgedBy, InProgressOn, ReplyInitiated}).Some?
           then FirstAt(t, {AcknowledgedBy, InProgressOn, ReplyInitiated})
            else if e.kind in {AcknowledgedBy, InProgressOn, ReplyInitiated} then Some(e.at) else None
    ensures LastAt(t + [e], {ReplyInitiated}) == if e.kind == ReplyInitiated then Some(e.at)
      else LastAt(t, {ReplyInitiated})
    ensures FirstSent(t + [e]) == if FirstSent(t).Some? then FirstSent(t) else if e.kind == ResponseDetected
      then e.sentAt else None
    ensures LastSent(t + [e]) == if e.kind == ResponseDetected then e.sentAt else LastSent(t)
    ensures FirstAt(t + [e], {CompletedBy}) == if FirstAt(t, {CompletedBy}).Some? then FirstAt(t, {CompletedBy})
      else if e.kind == CompletedBy then Some(e.at) else None
    ensures StatusOf(t + [e]) ==
      if StatusOf(t) == Completed || e.kind == CompletedBy then Completed
      else if StatusOf(t) == Responded || e.kind == ResponseDetected then Responded
      else if e.kind == InProgressOn || e.kind == ReplyInitiated then InProgress
      else if e.kind == AcknowledgedBy || e.kind == InProgressOff then Acknowledged
      else StatusOf(t)
  {
    FirstAtSnoc(t, e, {AcknowledgedBy, InProgressOn, ReplyInitiated});
    FirstAtSnoc(t, e, {CompletedBy});
    FirstSentSnoc(t, e);
    LastSnoc(t, e, {ReplyInitiated});
    LastSnoc(t, e, {ResponseDetected});
    LastSnoc(t, e, {CompletedBy});
    LastSnoc(t, e, {AcknowledgedBy, InProgressOn, InProgressOff, ReplyInitiated});
  }

  /** Nothing of a kind happened first if and only if nothing of it happened last. */
  lemma {:induction false} FirstIffLast(h: seq<Event>, kinds: set<Kind>)
    ensures FirstAt(h, kinds).None? <==> Last(h, kinds).None?
  {
    if h != [] {
      var n := |h| - 1;
      FirstIffLast(h[..n], kinds);
      assert h == h[..n] + [h[n]];
      FirstAtSnoc(h[..n], h[n], kinds);
    }
  }

  // ----- links that leave no event -----

  /** The item already has a response to this message id. */
  predicate Repeats(events: seq<Event>, e: EmailId, messageId: string) {
    messageId != "" && exists i :: 0 <= i < |events| && events[i].kind == ResponseDetected && events[i].item == e
                         && events[i].messageId == messageId
  }

  /** The response a link of `m` should log but does not, because its item already has one to this message id. */
  function UnloggedOne(cfg: Config, db: Db, account: Account, m: Sent, now: Time): seq<Event> {
    var key := (account, m.messageId);
    if key in db.outbound && db.outbound[key].linked.Some? then []
    else match Pick(cfg, db.items, m.threadId, m.At(now))
      case None => []
      case Some(e) => if Repeats(db.events, e, m.messageId) then [Response(e, db.items[e], m, m.At(now), now)] else []
  }

  function UnloggedAll(cfg: Config, db: Db, account: Account, messages: seq<Sent>, now: Time): seq<Event> {
    if messages == [] then [] else
    var n := |messages| - 1;
    UnloggedAll(cfg, db, account, messages[..n], now)
    + UnloggedOne(cfg, SyncAll(cfg, db, account, messages[..n], now).0, account, messages[n], now)
  }

  function UnloggedBy(cfg: Config, db: Db, op: Op, now: Time): seq<Event> {
    if op.Sync? then UnloggedAll(cfg, db, op.account, op.messages, now) else []
  }

  /** All responses a run left out of the log. */
  function Unlogged(cfg: Config, db: Db, ticks: seq<Tick>): seq<Event> {
    if ticks == [] then [] else
    var n := |ticks| - 1;
    Unlogged(cfg, db, ticks[..n]) + UnloggedBy(cfg, Run(cfg, db, ticks[..n]), ticks[n].op, ticks[n].now)
  }

  function ItemsOf(events: seq<Event>): set<EmailId> { set i | 0 <= i < |events| :: events[i].item }

  /** The transaction gives the item a new holder. */
  predicate Reassigns(cfg: Config, db: Db, op: Op, now: Time) {
    op.Ensure? && op.email in db.items && op.email in Apply(cfg, db, op, now).0.items
    && Apply(cfg, db, op, now).0.items[op.email].assignee != db.items[op.email].assignee
  }

  /** The items with a response left out of the log since they last changed hands. */
  function Lost(cfg: Config, db: Db, ticks: seq<Tick>): set<EmailId> {
    if ticks == [] then {} else
    var n := |ticks| - 1;
    LostAfter(cfg, Run(cfg, db, ticks[..n]), ticks[n].op, ticks[n].now, Lost(cfg, db, ticks[..n]))
  }

  function LostAfter(cfg: Config, db: Db, op: Op, now: Time, lost: set<EmailId>): set<EmailId> {
    (if Reassigns(cfg, db, op, now) then lost - {op.email} else lost) + ItemsOf(UnloggedBy(cfg, db, op, now))
  }

  // ----- the invariant of the tables -----

  ghost predicate ItemInv(cfg: Config, db: Db, e: EmailId, lost: set<EmailId>) {
    var h := History(db.events, e);
    if e in db.items then
      && Consistent(cfg, db.items[e])
      && h != [] && h[|h| - 1].holder == db.items[e].assignee
      && Agrees(db.items[e], Tenure(h), e !in lost)
    else h == []
  }

  ghost predicate Inv(cfg: Config, db: Db, lost: set<EmailId>) {
    && Dated(db.events)
    && forall e :: ItemInv(cfg, db, e, lost)
  }

  lemma {:induction false} HistoryDated(events: seq<Event>, x: EmailId)
    requires Dated(events)
    ensures Dated(History(events, x))
    ensures forall i :: 0 <= i < |History(events, x)|
              ==> History(events, x)[i] in events && History(events, x)[i].item == x
  {
    if events != [] { HistoryDated(events[..|events| - 1], x); }
  }

  /** How one row changes when one event of its own is logged. */
  ghost predicate Moves(w: WorkItem, w': WorkItem, e: Event) {
    && w'.assignee == w.assignee == e.holder
    && match e.kind
       case AssignedTo => w'.status == w.status && SameTimes(w, w')
       case AcknowledgedBy =>
         && (w.status == Assigned || w.acknowledgedAt.None?)
         && w'.status == (if w.status == Assigned then Acknowledged else w.status)
         && SameTimes(w.(acknowledgedAt := w.acknowledgedAt.OrElse<Time>(e.at)), w')
       case InProgressOn =>
         && w.status in {Assigned, Acknowledged} && w'.status == InProgress
         && SameTimes(w.(acknowledgedAt := w.acknowledgedAt.OrElse<Time>(e.at)), w')
       case InProgressOff => w.status == InProgress && w'.status == Acknowledged
         && SameTimes(w.(acknowledgedAt := w.acknowledgedAt.OrElse<Time>(e.at)), w')
       case ReplyInitiated =>
         && w'.status == (if w.status in {Assigned, Acknowledged} then InProgress else w.status)
         && SameTimes(w.(acknowledgedAt := w.acknowledgedAt.OrElse<Time>(e.at), replyInitiatedAt := Some(e.at)), w')
       case ResponseDetected =>
         && w.status != Completed && w.replyInitiatedAt.Some? && w'.status == Responded && e.sentAt.Some?
         && SameTimes(w.(firstRespondedAt := w.firstRespondedAt.OrElse<Time>(e.sentAt.value),
           respondedAt := e.sentAt), w')
       case CompletedBy => w'.status == Completed && SameTimes(w.(completedAt := w.completedAt.OrElse<Time>(e.at)), w')
  }

  ghost predicate SameTimes(a: WorkItem, b: WorkItem) {
    && a.acknowledgedAt == b.acknowledgedAt && a.replyInitiatedAt == b.replyInitiatedAt
    && a.firstRespondedAt == b.firstRespondedAt && a.respondedAt == b.respondedAt && a.completedAt == b.completedAt
  }

  lemma MoveKeeps(cfg: Config, w: WorkItem, w': WorkItem, t: seq<Event>, e: Event, logged: bool)
    requires Consistent(cfg, w) && Agrees(w, t, logged) && Dated(t) && Moves(w, w', e)
    requires w'.dueAt - w'.assignedAt == cfg.overdue
    ensures Consistent(cfg, w') && Agrees(w', t + [e], logged)
  {
    hide FirstAt, LastAt, FirstSent, LastSent, StatusOf;
    Extend(t, e);
  }

  /** What a transaction writes to a row, given the event it logs for it: a move of its holder, or a new tenure. */
  ghost predicate Writes(cfg: Config, db: Db, x: EmailId, w': WorkItem, e: Event) {
    && e.item == x && w'.dueAt - w'.assignedAt == cfg.overdue
    && (e.kind == ResponseDetected ==> e.sentAt.Some?)
    && ((x in db.items && Moves(db.items[x], w', e)) || Starts(db, x, w', e))
  }

  ghost predicate Starts(db: Db, x: EmailId, w': WorkItem, e: Event) {
    && (x !in db.items || db.items[x].assignee != w'.assignee) && e.kind == AssignedTo && e.holder == w'.assignee
    && w'.status == Assigned && w'.acknowledgedAt.None? && w'.replyInitiatedAt.None?
    && w'.firstRespondedAt.None? && w'.respondedAt.None? && w'.completedAt.None?
  }

  /** Writing a row and logging the matching event keeps every item in agreement with the log. */
  lemma WriteKeeps(cfg: Config, db: Db, x: EmailId, w': WorkItem, e: Event, lost: set<EmailId>)
    requires Inv(cfg, db, lost) && Writes(cfg, db, x, w', e)
    ensures Inv(cfg, db.(items := db.items[x := w'], events := db.events + [e]), if Starts(db, x, w', e) then lost - {x}
      else lost)
  {
    var db' := db.(items := db.items[x := w'], events := db.events + [e]);
    var lost' := if Starts(db, x, w', e) then lost - {x} else lost;
    forall y ensures ItemInv(cfg, db', y, lost') {
      hide Agrees, Consistent, Moves, History, Tenure, Starts;
      HistorySnoc(db.events, e, y);
      assert ItemInv(cfg, db, y, lost);
      if y == x {
        var h := History(db.events, x);
        HistoryDated(db.events, x);
        TenureSnoc(h, e);
        OneRow(cfg, db, x, w', e, lost);
      }
    }
  }

  lemma OneRow(cfg: Config, db: Db, x: EmailId, w': WorkItem, e: Event, lost: set<EmailId>)
    requires ItemInv(cfg, db, x, lost) && Dated(History(db.events, x)) && Writes(cfg, db, x, w', e)
    ensures e.holder == w'.assignee && Consistent(cfg, w')
    ensures Agrees(w', Tenure(History(db.events, x) + [e]), x !in lost || Starts(db, x, w', e))
  {
    var h := History(db.events, x);
    TenureSnoc(h, e);
    hide History, Tenure, FirstAt, FirstSent, LastAt, LastSent, StatusOf;
    if Starts(db, x, w', e) {
      assert Tenure(h + [e]) == [e];
      Singleton(e);
    } else {
      assert e.holder == db.items[x].assignee;
      TenureDated(h);
      hide Agrees, Consistent, Dated;
      MoveKeeps(cfg, db.items[x], w', Tenure(h), e, x !in lost);
    }
  }

  lemma TenureDated(h: seq<Event>)
    requires Dated(h)
    ensures Dated(Tenure(h))
  {
    hide Tenure;
    TenureSuffix(h);
  }

  lemma Singleton(e: Event)
    requires e.kind == AssignedTo
    ensures StatusOf([e]) == Assigned && FirstAt([e], {AcknowledgedBy, InProgressOn, ReplyInitiated}) == None
    ensures LastAt([e], {ReplyInitiated}) == None && FirstSent([e]) == None && LastSent([e]) == None
      && FirstAt([e], {CompletedBy}) == None
  {
    assert [] + [e] == [e];
    Extend([], e);
  }

  // ----- every transaction keeps the invariant -----

  lemma EnsureKeeps(cfg: Config, db: Db, op: Op, now: Time, lost: set<EmailId>)
    requires op.Ensure? && Inv(cfg, db, lost)
    ensures Inv(cfg, ApplyEnsure(cfg, db, op, now).0, if Reassigns(cfg, db, op, now) then lost - {op.email} else lost)
  {
    hide Agrees, History, Tenure;
    assert ItemInv(cfg, db, op.email, lost);
    if op.assignee.Some? && !Taken(db, op.email, op.routing) {
      var at := if op.assignedAt.Some? then op.assignedAt.value else now;
      var w := Assign(cfg, Lookup(db, op.email), op.routing, op.assignee.value, at, now);
      var e := Plain(AssignedTo, op.email, w, op.assignedBy, now);
      hide ItemInv;
      WriteKeeps(cfg, db, op.email, w, e, lost);
      if op.email !in db.items { Widen(cfg, ApplyEnsure(cfg, db, op, now).0, lost - {op.email}, lost); }
    }
  }

  /** Claiming less about the responses. */
  lemma Widen(cfg: Config, db: Db, lost: set<EmailId>, more: set<EmailId>)
    requires Inv(cfg, db, lost) && lost <= more
    ensures Inv(cfg, db, more)
  {
    hide AgreesOnActions, AgreesOnResponses, Consistent, History, Tenure;
    forall e ensures ItemInv(cfg, db, e, more) { assert ItemInv(cfg, db, e, lost); }
  }

  /** A transaction of the current assignee. */
  lemma ActorKeeps(cfg: Config, db: Db, email: EmailId, w': WorkItem, e: Event, lost: set<EmailId>)
    requires Inv(cfg, db, lost) && email in db.items && e.item == email && e.kind != ResponseDetected
      && e.kind != AssignedTo
    requires Consistent(cfg, db.items[email]) ==> Moves(db.items[email], w', e)
    requires w'.dueAt == db.items[email].dueAt && w'.assignedAt == db.items[email].assignedAt
    ensures Inv(cfg, Write(db, email, w', e), lost)
  {
    hide Agrees, History, Tenure, Moves;
    assert ItemInv(cfg, db, email, lost);
    hide ItemInv;
    WriteKeeps(cfg, db, email, w', e, lost);
  }

  lemma AcknowledgeKeeps(cfg: Config, db: Db, op: Op, now: Time, lost: set<EmailId>)
    requires op.Acknowledge? && Inv(cfg, db, lost)
    ensures Inv(cfg, ApplyAcknowledge(db, op, now).0, lost)
  {
    hide ItemInv, History, Dated;
    if ApplyAcknowledge(db, op, now).0 != db {
      var w := MarkAcknowledged(db.items[op.email], now);
      ActorKeeps(cfg, db, op.email, w, Plain(AcknowledgedBy, op.email, w, op.viewer, now), lost);
    }
  }

  lemma ToggleKeeps(cfg: Config, db: Db, op: Op, now: Time, lost: set<EmailId>)
    requires op.SetInProgress? && Inv(cfg, db, lost)
    ensures Inv(cfg, ApplySetInProgress(db, op, now).0, lost)
  {
    hide ItemInv, History, Dated;
    if ApplySetInProgress(db, op, now).0 != db {
      var w := MarkProgress(db.items[op.email], if op.active then InProgress else Acknowledged, now);
      ActorKeeps(cfg, db, op.email, w,
        Plain(if op.active then InProgressOn else InProgressOff, op.email, w, Some(op.actor), now), lost);
    }
  }

  lemma ReplyKeeps(cfg: Config, db: Db, op: Op, now: Time, lost: set<EmailId>)
    requires op.InitiateReply? && Inv(cfg, db, lost)
    ensures Inv(cfg, ApplyInitiateReply(cfg, db, op, now).0, lost)
  {
    hide ItemInv, History, Dated;
    if ApplyInitiateReply(cfg, db, op, now).0 != db {
      var w := MarkReply(db.items[op.email], now);
      ActorKeeps(cfg, db, op.email, w,
        Plain(ReplyInitiated, op.email, w, Some(op.actor), now).(threadId := cfg.threads[op.email]), lost);
    }
  }

  lemma CompleteKeeps(cfg: Config, db: Db, op: Op, now: Time, lost: set<EmailId>)
    requires op.Complete? && Inv(cfg, db, lost)
    ensures Inv(cfg, ApplyComplete(db, op, now).0, lost)
  {
    hide ItemInv, History, Dated;
    if ApplyComplete(db, op, now).0 != db {
      var w := MarkCompleted(db.items[op.email], now);
      ActorKeeps(cfg, db, op.email, w, Plain(CompletedBy, op.email, w, Some(op.actor), now), lost);
    }
  }

  /** The unique index drops a response exactly when its item has one to the same message id. */
  lemma DroppedIffRepeated(events: seq<Event>, e: Event)
    requires e.kind == ResponseDetected
    ensures Append(events, e) == if Repeats(events, e.item, e.messageId) then events else events + [e]
  {
    if Repeats(events, e.item, e.messageId) {
      var i :| 0 <= i < |events| && events[i].kind == ResponseDetected && events[i].item == e.item
        && events[i].messageId == e.messageId;
      assert Duplicates(events[i], e);
    }
  }

  /** The invariant reads the items and the log only. */
  lemma SameRows(cfg: Config, a: Db, b: Db, lost: set<EmailId>)
    requires Inv(cfg, a, lost) && a.items == b.items && a.events == b.events
    ensures Inv(cfg, b, lost)
  {
    hide Agrees, History, Tenure, Consistent;
    forall y ensures ItemInv(cfg, b, y, lost) { assert ItemInv(cfg, a, y, lost); }
  }

  /** A response that is not logged leaves the row consistent and its holder's columns in agreement. */
  lemma UnloggedKeeps(cfg: Config, db: Db, e: EmailId, sentAt: Time, now: Time, lost: set<EmailId>)
    requires Inv(cfg, db, lost) && e in db.items && db.items[e].status != Completed
      && db.items[e].replyInitiatedAt.Some?
    ensures Inv(cfg, db.(items := db.items[e := MarkResponded(db.items[e], sentAt, now)]), lost + {e})
  {
    hide History, Tenure, FirstAt, LastAt;
    var db' := db.(items := db.items[e := MarkResponded(db.items[e], sentAt, now)]);
    forall y ensures ItemInv(cfg, db', y, lost + {e}) { assert ItemInv(cfg, db, y, lost); }
  }

  lemma LinkKeeps(cfg: Config, db: Db, key: (Account, string), e: EmailId, m: Sent, sentAt: Time, now: Time,
      lost: set<EmailId>)
    requires Inv(cfg, db, lost) && key == (key.0, m.messageId) && key in db.outbound
    requires Eligible(cfg, db.items, e, m.threadId, sentAt)
    ensures Inv(cfg, Link(db, key, e, m, sentAt, now), if Repeats(db.events, e, m.messageId) then lost + {e} else lost)
  {
    hide Agrees, History, Tenure;
    var w' := MarkResponded(db.items[e], sentAt, now);
    var event := Response(e, db.items[e], m, sentAt, now);
    DroppedIffRepeated(db.events, event);
    assert ItemInv(cfg, db, e, lost);
    hide ItemInv, Repeats, Append;
    var db' := Link(db, key, e, m, sentAt, now);
    if Repeats(db.events, e, m.messageId) {
      UnloggedKeeps(cfg, db, e, sentAt, now, lost);
      SameRows(cfg, db.(items := db.items[e := w']), db', lost + {e});
    } else {
      WriteKeeps(cfg, db, e, w', event, lost);
      SameRows(cfg, db.(items := db.items[e := w'], events := db.events + [event]), db', lost);
    }
  }

  lemma SyncOneKeeps(cfg: Config, db: Db, account: Account, m: Sent, now: Time, lost: set<EmailId>)
    requires Inv(cfg, db, lost)
    ensures Inv(cfg, SyncOne(cfg, db, account, m, now).0, lost + ItemsOf(UnloggedOne(cfg, db, account, m, now)))
  {
    hide Inv, Pick, Link, Repeats;
    var key, sentAt := (account, m.messageId), m.At(now);
    var db1 := Upsert(db, key, m.threadId, sentAt);
    SameRows(cfg, db, db1, lost);
    var picked := Pick(cfg, db1.items, m.threadId, sentAt);
    if db1.outbound[key].linked.None? && picked.Some? {
      LinkKeeps(cfg, db1, key, picked.value, m, sentAt, now, lost);
      ItemsOfOne(Response(picked.value, db.items[picked.value], m, sentAt, now));
    }
    assert lost + ItemsOf([]) == lost;
  }

  lemma {:induction false} SyncKeeps(cfg: Config, db: Db, account: Account, messages: seq<Sent>, now: Time,
      lost: set<EmailId>)
    requires Inv(cfg, db, lost)
    ensures Inv(cfg, SyncAll(cfg, db, account, messages, now).0,
      lost + ItemsOf(UnloggedAll(cfg, db, account, messages, now)))
  {
    hide Inv, SyncOne, UnloggedOne;
    if messages != [] {
      var n := |messages| - 1;
      var some := UnloggedAll(cfg, db, account, messages[..n], now);
      var before := SyncAll(cfg, db, account, messages[..n], now).0;
      SyncKeeps(cfg, db, account, messages[..n], now, lost);
      SyncOneKeeps(cfg, before, account, messages[n], now, lost + ItemsOf(some));
      ItemsOfConcat(some, UnloggedOne(cfg, before, account, messages[n], now));
      assert lost + ItemsOf(some) + ItemsOf(UnloggedOne(cfg, before, account, messages[n], now))
          == lost + ItemsOf(UnloggedAll(cfg, db, account, messages, now));
    } else {
      assert lost + ItemsOf([]) == lost;
    }
  }

  lemma ItemsOfOne(e: Event)
    ensures ItemsOf([e]) == {e.item}
  {
    assert [e][0].item == e.item;
  }

  lemma ItemsOfConcat(a: seq<Event>, b: seq<Event>)
    ensures ItemsOf(a + b) == ItemsOf(a) + ItemsOf(b)
  {
    forall e | e in ItemsOf(a) ensures e in ItemsOf(a + b) {
      var i :| 0 <= i < |a| && a[i].item == e; assert (a + b)[i].item == e;
    }
    forall e | e in ItemsOf(b) ensures e in ItemsOf(a + b) {
      var i :| 0 <= i < |b| && b[i].item == e; assert (a + b)[|a| + i].item == e;
    }
  }

  lemma StepKeeps(cfg: Config, db: Db, op: Op, now: Time, lost: set<EmailId>)
    requires Inv(cfg, db, lost)
    ensures Inv(cfg, Apply(cfg, db, op, now).0, LostAfter(cfg, db, op, now, lost))
  {
    hide Inv, SyncAll, UnloggedAll;
    assert lost + ItemsOf([]) == lost
      && lost - {if op.Sync? then 0 else op.email} + ItemsOf([]) == lost - {if op.Sync? then 0 else op.email};
    match op
    case Ensure(_, _, _, _, _) => EnsureKeeps(cfg, db, op, now, lost);
    case Acknowledge(_, _) => AcknowledgeKeeps(cfg, db, op, now, lost);
    case SetInProgress(_, _, _) => ToggleKeeps(cfg, db, op, now, lost);
    case InitiateReply(_, _) => ReplyKeeps(cfg, db, op, now, lost);
    case Complete(_, _) => CompleteKeeps(cfg, db, op, now, lost);
    case Sync(_, _) => SyncKeeps(cfg, db, op.account, op.messages, now, lost);
  }

  lemma EmptyInv(cfg: Config)
    ensures Inv(cfg, Empty, {})
  {
    hide Agrees, Consistent, Tenure;
    assert forall e :: History([], e) == [];
  }

  /**
   * After any run from empty tables only rows have events, every row satisfies the row invariant, and every row equals
   * the fold of its events since it last changed hands: on acknowledgement, reply, completion and holder in every case,
   * and on status and response dates unless a response of that tenure was left out of the log.
   */
  lemma {:induction false} LogRefinesRows(cfg: Config, ticks: seq<Tick>)
    ensures Inv(cfg, Run(cfg, Empty, ticks), Lost(cfg, Empty, ticks))
  {
    hide Apply, LostAfter;
    if ticks == [] {
      EmptyInv(cfg);
    } else {
      hide ItemInv, Dated;
      var n := |ticks| - 1;
      LogRefinesRows(cfg, ticks[..n]);
      StepKeeps(cfg, Run(cfg, Empty, ticks[..n]), ticks[n].op, ticks[n].now, Lost(cfg, Empty, ticks[..n]));
    }
  }

  /** In every reachable state every row satisfies the row invariant. */
  lemma RowsConsistent(cfg: Config, ticks: seq<Tick>)
    ensures var db := Run(cfg, Empty, ticks); forall e :: e in db.items ==> Consistent(cfg, db.items[e])
  {
    LogRefinesRows(cfg, ticks);
    hide Agrees, Consistent, History, Tenure, Run, Lost;
    var db, lost := Run(cfg, Empty, ticks), Lost(cfg, Empty, ticks);
    forall e | e in db.items ensures Consistent(cfg, db.items[e]) { assert ItemInv(cfg, db, e, lost); }
  }
}
