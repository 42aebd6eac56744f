/**
 * The log without its unique index. Rows never read the log, so with every response logged they are a fold of it
 * without exception; and the log that is kept agrees with a row exactly when the index dropped neither end of its
 * responses.
 */
module WorkFullLog {
  import opened WorkModel
  import opened WorkLog

  // ----- the events a transaction offers to the log -----

  /** The response of a link, logged or not. */
  function OffersOne(cfg: Config, db: Db, account: Account, m: Sent, now: Time): seq<Event> {
    var key := (account, m.messageId);
    if key in db.outbound && db.outbound[key].linked.Some? then []
    else match Pick(cfg, db.items, m.threadId, m.At(now))
      case None => []
      case Some(e) => [Response(e, db.items[e], m, m.At(now), now)]
  }

  function OffersAll(cfg: Config, db: Db, account: Account, messages: seq<Sent>, now: Time): seq<Event> {
    if messages == [] then [] else
    var n := |messages| - 1;
    OffersAll(cfg, db, account, messages[..n], now)
    + OffersOne(cfg, SyncAll(cfg, db, account, messages[..n], now).0, account, messages[n], now)
  }

  /** Only responses can be refused; of any other transaction the log shows all it offers. */
  function Offers(cfg: Config, db: Db, op: Op, now: Time): seq<Event> {
    if op.Sync? then OffersAll(cfg, db, op.account, op.messages, now)
    else
      var events := Apply(cfg, db, op, now).0.events;
      if |db.events| <= |events| then events[|db.events|..] else []
  }

  /** Everything a run from empty tables offers. */
  function Full(cfg: Config, ticks: seq<Tick>): seq<Event> {
    if ticks == [] then [] else
    var n := |ticks| - 1;
    Full(cfg, ticks[..n]) + Offers(cfg, Run(cfg, Empty, ticks[..n]), ticks[n].op, ticks[n].now)
  }

  /** What the unique index keeps of it. */
  function AppendAll(events: seq<Event>, offered: seq<Event>): seq<Event> {
    if offered == [] then events else Append(AppendAll(events, offered[..|offered| - 1]), offered[|offered| - 1])
  }

  lemma {:induction false} AppendAllConcat(events: seq<Event>, a: seq<Event>, b: seq<Event>)
    ensures AppendAll(events, a + b) == AppendAll(AppendAll(events, a), b)
  {
    if b == [] {
      assert a + b == a;
    } else {
      var n := |b| - 1;
      assert (a + b)[..|a| + n] == a + b[..n];
      AppendAllConcat(events, a, b[..n]);
    }
  }

  lemma AppendOne(events: seq<Event>, e: Event)
    ensures AppendAll(events, [e]) == Append(events, e) && AppendAll(events, []) == events
    ensures e.kind != ResponseDetected ==> Append(events, e) == events + [e]
  {
    assert [e][..0] == [];
  }

  // ----- one transaction -----

  /** The tables with the full log in place of the one that was kept. */
  function WithLog(db: Db, full: seq<Event>): Db { db.(events := full) }

  /** What a transaction does to both logs. */
  ghost predicate Logs(cfg: Config, db: Db, after: Db, full: seq<Event>, offered: seq<Event>) {
    after.events == AppendAll(db.events, offered) && Inv(cfg, WithLog(after, full + offered), {})
  }

  lemma LinkLogs(cfg: Config, db: Db, key: (Account, string), e: EmailId, m: Sent, sentAt: Time, now: Time,
      full: seq<Event>)
    requires Inv(cfg, WithLog(db, full), {}) && key in db.outbound && Eligible(cfg, db.items, e, m.threadId, sentAt)
    ensures Logs(cfg, db, Link(db, key, e, m, sentAt, now), full, [Response(e, db.items[e], m, sentAt, now)])
  {
    hide Agrees, History, Tenure;
    var w', event := MarkResponded(db.items[e], sentAt, now), Response(e, db.items[e], m, sentAt, now);
    AppendOne(db.events, event);
    assert ItemInv(cfg, WithLog(db, full), e, {});
    hide ItemInv, Append;
    WriteKeeps(cfg, WithLog(db, full), e, w', event, {});
    SameRows(cfg, WithLog(db, full).(items := db.items[e := w'], events := full + [event]),
      WithLog(Link(db, key, e, m, sentAt, now), full + [event]), {});
  }

  lemma SyncOneLogs(cfg: Config, db: Db, account: Account, m: Sent, now: Time, full: seq<Event>)
    requires Inv(cfg, WithLog(db, full), {})
    ensures Logs(cfg, db, SyncOne(cfg, db, account, m, now).0, full, OffersOne(cfg, db, account, m, now))
  {
    hide Inv, Pick, Link;
    var key, sentAt := (account, m.messageId), m.At(now);
    var db1 := Upsert(db, key, m.threadId, sentAt);
    SameRows(cfg, WithLog(db, full), WithLog(db1, full), {});
    var picked := Pick(cfg, db1.items, m.threadId, sentAt);
    assert full + [] == full && AppendAll(db.events, []) == db.events;
    if db1.outbound[key].linked.None? && picked.Some? {
      LinkLogs(cfg, db1, key, picked.value, m, sentAt, now, full);
    }
  }

  lemma {:induction false} SyncLogs(cfg: Config, db: Db, account: Account, messages: seq<Sent>, now: Time,
      full: seq<Event>)
    requires Inv(cfg, WithLog(db, full), {})
    ensures Logs(cfg, db, SyncAll(cfg, db, account, messages, now).0, full, OffersAll(cfg, db, account, messages, now))
  {
    hide Inv, SyncOne, OffersOne;
    if messages == [] {
      assert full + [] == full;
    } else {
      var n := |messages| - 1;
      var some, before := OffersAll(cfg, db, account, messages[..n], now),
        SyncAll(cfg, db, account, messages[..n], now).0;
      var one := OffersOne(cfg, before, account, messages[n], now);
      SyncLogs(cfg, db, account, messages[..n], now, full);
      SyncOneLogs(cfg, before, account, messages[n], now, full + some);
      AppendAllConcat(db.events, some, one);
      assert full + (some + one) == full + some + one;
    }
  }

  lemma WriteLogs(db: Db, email: EmailId, w: WorkItem, e: Event, full: seq<Event>)
    requires e.kind != ResponseDetected
    ensures Write(db, email, w, e).events == db.events + [e]
    ensures Write(WithLog(db, full), email, w, e) == WithLog(Write(db, email, w, e), full + [e])
  {
    AppendOne(db.events, e);
    AppendOne(full, e);
  }

  /**
   * A user's or the router's transaction reads no log, and logs one event that is no response when it changes anything.
   */
  lemma PlainStep(cfg: Config, db: Db, op: Op, now: Time, full: seq<Event>) returns (offered: seq<Event>)
    requires !op.Sync?
    ensures |offered| <= 1 && (offered != [] ==> offered[0].kind != ResponseDetected)
    ensures Apply(cfg, db, op, now).0.events == db.events + offered
    ensures Apply(cfg, WithLog(db, full), op, now).0 == WithLog(Apply(cfg, db, op, now).0, full + offered)
  {
    var after := Apply(cfg, db, op, now).0;
    assert db.events + [] == db.events && full + [] == full;
    forall email, w, e: Event | e.kind != ResponseDetected
      ensures Write(db, email, w, e).events == db.events + [e]
      ensures Write(WithLog(db, full), email, w, e) == WithLog(Write(db, email, w, e), full + [e])
    {
      WriteLogs(db, email, w, e, full);
    }
    hide Write, Assign, MarkAcknowledged, MarkProgress, MarkReply, MarkCompleted;
    offered := if after == db then [] else [after.events[|after.events| - 1]];
  }

  lemma PlainLogs(cfg: Config, db: Db, op: Op, now: Time, full: seq<Event>)
    requires !op.Sync?
    ensures var offered := Offers(cfg, db, op, now);
      && Apply(cfg, WithLog(db, full), op, now).0 == WithLog(Apply(cfg, db, op, now).0, full + offered)
      && Apply(cfg, db, op, now).0.events == AppendAll(db.events, offered)
  {
    var offered := PlainStep(cfg, db, op, now, full);
    hide Apply, Append;
    assert Offers(cfg, db, op, now) == offered;
    if offered != [] {
      AppendOne(db.events, offered[0]);
      assert offered == [offered[0]];
    }
  }

  lemma StepLogs(cfg: Config, db: Db, op: Op, now: Time, full: seq<Event>)
    requires Inv(cfg, WithLog(db, full), {})
    ensures Logs(cfg, db, Apply(cfg, db, op, now).0, full, Offers(cfg, db, op, now))
  {
    hide Inv, SyncAll;
    if op.Sync? {
      SyncLogs(cfg, db, op.account, op.messages, now, full);
    } else {
      PlainLogs(cfg, db, op, now, full);
      StepKeeps(cfg, WithLog(db, full), op, now, {});
      hide Apply;
      assert LostAfter(cfg, WithLog(db, full), op, now, {}) == {};
    }
  }

  // ----- whole runs -----

  /**
   * After any run from empty tables: the log is what the unique index keeps of everything offered to it, and with
   * everything offered in its place every column of every row is the fold of the log, with no exception.
   */
  lemma {:induction false} FullLogRefinesRows(cfg: Config, ticks: seq<Tick>)
    ensures Run(cfg, Empty, ticks).events == AppendAll([], Full(cfg, ticks))
    ensures Inv(cfg, WithLog(Run(cfg, Empty, ticks), Full(cfg, ticks)), {})
  {
    hide Apply, Inv;
    if ticks == [] {
      EmptyInv(cfg);
    } else {
      var n := |ticks| - 1;
      FullLogRefinesRows(cfg, ticks[..n]);
      var db, full := Run(cfg, Empty, ticks[..n]), Full(cfg, ticks[..n]);
      StepLogs(cfg, db, ticks[n].op, ticks[n].now, full);
      AppendAllConcat([], full, Offers(cfg, db, ticks[n].op, ticks[n].now));
    }
  }

  lemma {:induction false} RespondedIffSent(t: seq<Event>)
    requires Dated(t)
    ensures Last(t, {ResponseDetected}).Some? <==> LastSent(t).Some?
  {
    LastKind(t, {ResponseDetected});
  }

  /** A row that agrees with the full tenure `f` agrees with the kept one `t` on its responses when their ends do. */
  lemma EndsDecide(cfg: Config, w: WorkItem, t: seq<Event>, f: seq<Event>)
    requires Consistent(cfg, w) && Dated(t) && Dated(f) && Agrees(w, t, false) && Agrees(w, f, true)
    ensures AgreesOnResponses(w, t) <==> FirstSent(t) == FirstSent(f) && LastSent(t) == LastSent(f)
  {
    RespondedIffSent(t);
    FirstIffLast(t, {CompletedBy});
    hide FirstAt, LastAt, FirstSent, LastSent, Last;
  }

  /**
   * The exact condition for the log as it is kept. After any run, for every row: its status and response dates are the
   * fold of its tenure in the log if and only if the first and the last response of the tenure, dropped ones counted,
   * are dated like the first and the last logged one. That is so, in particular, when the index dropped none since the
   * item changed hands.
   */
  lemma ResponsesAgreeIff(cfg: Config, ticks: seq<Tick>, e: EmailId)
    requires e in Run(cfg, Empty, ticks).items
    ensures var db := Run(cfg, Empty, ticks);
      var t, f := Tenure(History(db.events, e)), Tenure(History(Full(cfg, ticks), e));
      && (AgreesOnResponses(db.items[e], t) <==> FirstSent(t) == FirstSent(f) && LastSent(t) == LastSent(f))
      && (e !in Lost(cfg, Empty, ticks) ==> FirstSent(t) == FirstSent(f) && LastSent(t) == LastSent(f))
  {
    FullLogRefinesRows(cfg, ticks);
    LogRefinesRows(cfg, ticks);
    var db, full, lost := Run(cfg, Empty, ticks), Full(cfg, ticks), Lost(cfg, Empty, ticks);
    hide Run, Full, Lost, History, Tenure, AgreesOnActions, AgreesOnResponses, Consistent, FirstSent, LastSent;
    assert ItemInv(cfg, db, e, lost) && ItemInv(cfg, WithLog(db, full), e, {});
    HistoryDated(db.events, e);
    HistoryDated(full, e);
    TenureDated(History(db.events, e));
    TenureDated(History(full, e));
    EndsDecide(cfg, db.items[e], Tenure(History(db.events, e)), Tenure(History(full, e)));
  }
}
