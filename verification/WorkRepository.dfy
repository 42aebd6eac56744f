/** The repository: every method is one transaction over the three tables. */
module WorkRepository {
  import opened WorkModel

  class WorkTrackingRepository {
    const cfg: Config
    var items: map<EmailId, WorkItem>
    var events: seq<Event>
    var outbound: map<(Account, string), Outbound>

    ghost function State(): Db
      reads this
    {
      Db(items, events, outbound)
    }

    constructor (overdueHours: int, threads: map<EmailId, string>)
      ensures State() == Empty
      ensures cfg.overdue == 3600 * (if overdueHours < 1 then 1 else overdueHours) && cfg.threads == threads
    {
      cfg := Config(3600 * (if overdueHours < 1 then 1 else overdueHours), threads);
      items, events, outbound := map[], [], map[];
    }

    method AppendEvent(e: Event)
      modifies this`events
      ensures events == Append(old(events), e)
    {
      if exists i :: 0 <= i < |events| && Duplicates(events[i], e) {
        return;
      }
      events := events + [e];
    }

    method EnsureForAssignment(email: EmailId, routing: RoutingId, assignee: Option<UserId>, assignedAt: Option<Time>,
        assignedBy: Option<UserId>, now: Time)
      returns (outcome: Outcome)
      modifies this
      ensures (State(), outcome)
        == Apply(cfg, old(State()), Ensure(email, routing, assignee, assignedAt, assignedBy), now)
    {
      if assignee.None? {
        return Row(None);
      }
      var at := if assignedAt.Some? then assignedAt.value else now;
      var dueAt := at + cfg.overdue;
      if exists e :: e in items && e != email && items[e].routing == routing {
        return Failed(RoutingTaken);
      }
      var row: WorkItem;
      if email !in items {
        row := WorkItem(routing, assignee.value, Assigned, at, dueAt, None, None, None, None, None, at, now);
      } else {
        row := items[email];
        if row.assignee != assignee.value {
          row := row.(status := Assigned, acknowledgedAt := None, replyInitiatedAt := None,
                      firstRespondedAt := None, respondedAt := None, completedAt := None);
        }
        row := row.(routing := routing, assignee := assignee.value, assignedAt := at, dueAt := dueAt,
                    lastActivityAt := at, updatedAt := now);
      }
      items := items[email := row];
      AppendEvent(Event(AssignedTo, email, routing, assignedBy, "", "", None, now, row.assignee));
      return Row(Some(row));
    }

    method CurrentByEmail(email: EmailId) returns (outcome: Outcome)
      ensures outcome == Row(Lookup(State(), email))
    {
      return Row(if email in items then Some(items[email]) else None);
    }

    method AcknowledgeIfAssignee(email: EmailId, viewer: Option<UserId>, now: Time) returns (outcome: Outcome)
      modifies this
      ensures (State(), outcome) == Apply(cfg, old(State()), Acknowledge(email, viewer), now)
    {
      if viewer.None? {
        outcome := CurrentByEmail(email);
        return;
      }
      if email !in items {
        return Row(None);
      }
      var row := items[email];
      if row.assignee != viewer.value {
        return Row(Some(row));
      }
      if row.status == Assigned || row.acknowledgedAt.None? {
        row := row.(status := if row.status == Assigned then Acknowledged else row.status,
                    acknowledgedAt := row.acknowledgedAt.OrElse<Time>(now), lastActivityAt := now, updatedAt := now);
        items := items[email := row];
        AppendEvent(Event(AcknowledgedBy, email, row.routing, viewer, "", "", None, now, row.assignee));
      }
      return Row(Some(row));
    }

    method LockAssigneeWork(email: EmailId, actor: UserId) returns (error: Option<Error>)
      ensures error == Denied(State(), email, actor)
      ensures error.None? <==> email in items && items[email].assignee == actor
    {
      if email !in items {
        return Some(NoWork);
      }
      if items[email].assignee != actor {
        return Some(NotAssignee);
      }
      return None;
    }

    method SetInProgress(email: EmailId, actor: UserId, active: bool, now: Time) returns (outcome: Outcome)
      modifies this
      ensures (State(), outcome) == Apply(cfg, old(State()), Op.SetInProgress(email, actor, active), now)
    {
      var error := LockAssigneeWork(email, actor);
      if error.Some? {
        return Failed(error.value);
      }
      var row := items[email];
      if row.status !in {Assigned, Acknowledged, InProgress} {
        return Failed(NotToggleable);
      }
      var nextStatus := if active then InProgress else if row.status == InProgress then Acknowledged else row.status;
      if row.status == nextStatus {
        return Row(Some(row));
      }
      row := row.(status := nextStatus, acknowledgedAt := row.acknowledgedAt.OrElse<Time>(now), lastActivityAt := now,
        updatedAt := now);
      items := items[email := row];
      AppendEvent(Event(if active then InProgressOn
        else InProgressOff, email, row.routing, Some(actor), "", "", None, now, row.assignee));
      return Row(Some(row));
    }

    method InitiateReply(email: EmailId, actor: UserId, now: Time) returns (outcome: Outcome)
      modifies this
      ensures (State(), outcome) == Apply(cfg, old(State()), Op.InitiateReply(email, actor), now)
    {
      var error := LockAssigneeWork(email, actor);
      if error.Some? {
        return Failed(error.value);
      }
      var threadId := if email in cfg.threads then cfg.threads[email] else "";
      if threadId == "" {
        return Failed(NoThread);
      }
      var row := items[email];
      row := row.(status := if row.status in {Assigned, Acknowledged} then InProgress else row.status,
                  acknowledgedAt := row.acknowledgedAt.OrElse<Time>(now), replyInitiatedAt := Some(now),
                  lastActivityAt := now, updatedAt := now);
      items := items[email := row];
      AppendEvent(Event(ReplyInitiated, email, row.routing, Some(actor), "", threadId, None, now, row.assignee));
      return Row(Some(row));
    }

    method Complete(email: EmailId, actor: UserId, now: Time) returns (outcome: Outcome)
      modifies this
      ensures (State(), outcome) == Apply(cfg, old(State()), Op.Complete(email, actor), now)
    {
      var error := LockAssigneeWork(email, actor);
      if error.Some? {
        return Failed(error.value);
      }
      var row := items[email];
      row := row.(status := Completed, completedAt := row.completedAt.OrElse<Time>(now), lastActivityAt := now,
        updatedAt := now);
      items := items[email := row];
      AppendEvent(Event(CompletedBy, email, row.routing, Some(actor), "", "", None, now, row.assignee));
      return Row(Some(row));
    }

    /** Finds the work item a sent message answers and links the two; returns how many links were made. */
    method LinkOutbound(key: (Account, string), m: Sent, sentAt: Time, now: Time) returns (n: nat)
      requires key in outbound
      modifies this
      ensures if old(outbound)[key].linked.Some? then n == 0 && State() == old(State())
              else match Pick(cfg, old(items), m.threadId, sentAt)
                case None => n == 0 && State() == old(State())
                case Some(e) => n == 1 && State() == Link(old(State()), key, e, m, sentAt, now)
    {
      var found := Pick(cfg, items, m.threadId, sentAt);
      if found.None? {
        return 0;
      }
      var e, row := found.value, items[found.value];
      if outbound[key].linked.Some? {
        return 0;
      }
      outbound := outbound[key := outbound[key].(linked := Some(e))];
      items := items[e := row.(status := if row.status == Completed then row.status else Responded,
                               firstRespondedAt := row.firstRespondedAt.OrElse<Time>(sentAt),
                               respondedAt := Some(sentAt), lastActivityAt := sentAt, updatedAt := now)];
      AppendEvent(Event(ResponseDetected, e, row.routing, Some(row.assignee), m.messageId, m.threadId, Some(sentAt),
        now, row.assignee));
      return 1;
    }

    /** One round of the outbound loop: upsert the sent message, then link it unless it already is. */
    method WriteOutbound(account: Account, m: Sent, now: Time) returns (n: nat)
      modifies this
      ensures (State(), n) == SyncOne(cfg, old(State()), account, m, now)
    {
      hide Link, Pick;
      var key, sentAt := (account, m.messageId), m.At(now);
      var linked := if key in outbound then outbound[key].linked else None;
      outbound := outbound[key := Outbound(m.threadId, sentAt, linked)];
      if linked.Some? {
        return 0;
      }
      n := LinkOutbound(key, m, sentAt, now);
    }

    method WriteOutboundAndLink(account: Account, messages: seq<Sent>, now: Time) returns (outcome: Outcome)
      modifies this
      ensures (State(), outcome) == Apply(cfg, old(State()), Sync(account, messages), now)
    {
      hide SyncOne;
      if messages == [] {
        return Synced(0, 0);
      }
      var linkedCount := 0;
      for i := 0 to |messages|
        invariant (State(), linkedCount) == SyncAll(cfg, old(State()), account, messages[..i], now)
      {
        assert messages[..i + 1][..i] == messages[..i];
        var n := WriteOutbound(account, messages[i], now);
        linkedCount := linkedCount + n;
      }
      assert messages[..|messages|] == messages;
      return Synced(|messages|, linkedCount);
    }
  }
}
