/** Links between sent mail and work items: conservation against the log, and the shape of one link. */
module OutboundLinks {
  import opened WorkModel
  import opened WorkLog

  // ----- conservation -----

  function LinkedKeys(db: Db): set<(Account, string)> {
    set key | key in db.outbound && db.outbound[key].linked.Some?
  }

  function Responses(events: seq<Event>): nat {
    if events == [] then 0
    else Responses(events[..|events| - 1]) + if events[|events| - 1].kind == ResponseDetected then 1 else 0
  }

  /** The sum of the link counts the transactions of a run returned. */
  function Reported(cfg: Config, db: Db, ticks: seq<Tick>): nat {
    if ticks == [] then 0 else
    var n := |ticks| - 1;
    var outcome := Apply(cfg, Run(cfg, db, ticks[..n]), ticks[n].op, ticks[n].now).1;
    Reported(cfg, db, ticks[..n]) + if outcome.Synced? then outcome.linkedCount else 0
  }

  /** Rows are never removed and a link, once set, never changes. */
  ghost predicate LinksKept(a: Db, b: Db) {
    forall key :: key in a.outbound ==>
      key in b.outbound && (a.outbound[key].linked.Some? ==> b.outbound[key].linked == a.outbound[key].linked)
  }

  lemma ResponsesAppend(events: seq<Event>, e: Event)
    ensures Responses(Append(events, e)) <= Responses(events) + if e.kind == ResponseDetected then 1 else 0
    ensures Append(events, e) == events + [e]
      ==> Responses(Append(events, e)) == Responses(events) + if e.kind == ResponseDetected then 1 else 0
    ensures e.kind != ResponseDetected ==> Append(events, e) == events + [e]
  {
    assert (events + [e])[..|events|] == events;
  }

  /** One sent message: at most one new link, counted in the result, and logged unless it is unlogged. */
  lemma SyncOneLinks(cfg: Config, db: Db, account: Account, m: Sent, now: Time)
    ensures var (db', n) := SyncOne(cfg, db, account, m, now);
      && LinksKept(db, db')
      && |LinkedKeys(db')| == |LinkedKeys(db)| + n
      && Responses(db'.events) + |UnloggedOne(cfg, db, account, m, now)| == Responses(db.events) + n
  {
    var (db', n) := SyncOne(cfg, db, account, m, now);
    var key := (account, m.messageId);
    var db1 := Upsert(db, key, m.threadId, m.At(now));
    assert LinkedKeys(db1) == LinkedKeys(db);
    if n == 1 {
      var e := Pick(cfg, db1.items, m.threadId, m.At(now)).value;
      assert LinkedKeys(db') == LinkedKeys(db) + {key};
      var response := Response(e, db1.items[e], m, m.At(now), now);
      DroppedIffRepeated(db.events, response);
      LogResponse(db.events, response);
    }
  }

  lemma {:induction false} SyncLinks(cfg: Config, db: Db, account: Account, messages: seq<Sent>, now: Time)
    ensures var (db', n) := SyncAll(cfg, db, account, messages, now);
      && LinksKept(db, db')
      && |LinkedKeys(db')| == |LinkedKeys(db)| + n
      && Responses(db'.events) + |UnloggedAll(cfg, db, account, messages, now)| == Responses(db.events) + n
  {
    hide SyncOne, LinkedKeys, Responses, UnloggedOne;
    if messages != [] {
      var k := |messages| - 1;
      SyncLinks(cfg, db, account, messages[..k], now);
      SyncOneLinks(cfg, SyncAll(cfg, db, account, messages[..k], now).0, account, messages[k], now);
    }
  }

  /** Every other transaction leaves sent mail alone and logs no response. */
  lemma StepLinks(cfg: Config, db: Db, op: Op, now: Time)
    ensures var (db', outcome) := Apply(cfg, db, op, now);
      && LinksKept(db, db')
      && |LinkedKeys(db')| == |LinkedKeys(db)| + (if outcome.Synced? then outcome.linkedCount else 0)
      && Responses(db'.events) + |UnloggedBy(cfg, db, op, now)|
      == Responses(db.events) + (if outcome.Synced? then outcome.linkedCount else 0)
  {
    hide SyncAll, Responses, UnloggedAll;
    if op.Sync? {
      SyncLinks(cfg, db, op.account, op.messages, now);
    } else {
      assert Apply(cfg, db, op, now).0.outbound == db.outbound;
      OtherEvent(cfg, db, op, now);
    }
  }

  lemma OtherEvent(cfg: Config, db: Db, op: Op, now: Time)
    requires !op.Sync?
    ensures Responses(Apply(cfg, db, op, now).0.events) == Responses(db.events)
  {
    hide Responses, Append;
    forall e: Event | e.kind != ResponseDetected ensures Responses(Append(db.events, e)) == Responses(db.events) {
      ResponsesAppend(db.events, e);
    }
  }

  lemma LogResponse(events: seq<Event>, e: Event)
    requires e.kind == ResponseDetected
    ensures Responses(events + [e]) == Responses(events) + 1
  {
    assert (events + [e])[..|events|] == events;
  }

  /**
   * Over any run from empty tables the reported link counts add up to the linked rows, and these to the logged
   * responses and the unlogged ones, each the link of an item that already had a response to the same message id.
   */
  lemma {:induction false} LinksConserved(cfg: Config, ticks: seq<Tick>)
    ensures var db := Run(cfg, Empty, ticks);
      Reported(cfg, Empty, ticks) == |LinkedKeys(db)| == Responses(db.events) + |Unlogged(cfg, Empty, ticks)|
  {
    hide Apply, Responses, LinkedKeys, UnloggedBy;
    if ticks == [] {
      NoLinks();
    } else {
      var n := |ticks| - 1;
      LinksConserved(cfg, ticks[..n]);
      StepLinks(cfg, Run(cfg, Empty, ticks[..n]), ticks[n].op, ticks[n].now);
    }
  }

  lemma NoLinks()
    ensures Responses([]) == 0 && LinkedKeys(Empty) == {}
  {
  }

  /** So all three counts are equal if and only if no link repeated a message id its item had. */
  lemma LinksLoggedIff(cfg: Config, ticks: seq<Tick>)
    ensures var db := Run(cfg, Empty, ticks);
      Responses(db.events) == Reported(cfg, Empty, ticks) == |LinkedKeys(db)| <==> Unlogged(cfg, Empty, ticks) == []
  {
    LinksConserved(cfg, ticks);
    hide Run, Unlogged, LinkedKeys, Responses;
  }

  // ----- one account for each message id -----

  /** All sync calls read a message id from the account that owns it. */
  ghost predicate OneAccount(op: Op, owner: string -> Account) {
    op.Sync? ==> forall m :: m in op.messages && m.messageId != "" ==> owner(m.messageId) == op.account
  }

  /** A logged response is the linked outbound row of its message. */
  ghost predicate Owned(db: Db, owner: string -> Account) {
    forall i :: 0 <= i < |db.events| && db.events[i].kind == ResponseDetected && db.events[i].messageId != "" ==>
      var key := (owner(db.events[i].messageId), db.events[i].messageId);
      key in db.outbound && db.outbound[key].linked.Some?
  }

  lemma SyncOneOwned(cfg: Config, db: Db, owner: string -> Account, account: Account, m: Sent, now: Time)
    requires Owned(db, owner) && (m.messageId != "" ==> owner(m.messageId) == account)
    ensures Owned(SyncOne(cfg, db, account, m, now).0, owner) && UnloggedOne(cfg, db, account, m, now) == []
  {
    hide Pick;
    var key := (account, m.messageId);
    var db1 := Upsert(db, key, m.threadId, m.At(now));
    var picked := Pick(cfg, db1.items, m.threadId, m.At(now));
    if db1.outbound[key].linked.None? && picked.Some? {
      DroppedIffRepeated(db.events, Response(picked.value, db1.items[picked.value], m, m.At(now), now));
      hide Append;
    }
  }

  lemma {:induction false} SyncOwned(cfg: Config, db: Db, owner: string -> Account, account: Account,
      messages: seq<Sent>, now: Time)
    requires Owned(db, owner) && forall m :: m in messages && m.messageId != "" ==> owner(m.messageId) == account
    ensures Owned(SyncAll(cfg, db, account, messages, now).0, owner)
      && UnloggedAll(cfg, db, account, messages, now) == []
  {
    hide SyncOne, UnloggedOne, Owned;
    if messages == [] {
    } else {
      var k := |messages| - 1;
      SyncOwned(cfg, db, owner, account, messages[..k], now);
      SyncOneOwned(cfg, SyncAll(cfg, db, account, messages[..k], now).0, owner, account, messages[k], now);
    }
  }

  /** Other transactions change neither sent mail nor the logged responses. */
  lemma OtherOwned(cfg: Config, db: Db, owner: string -> Account, op: Op, now: Time)
    requires !op.Sync? && Owned(db, owner)
    ensures Owned(Apply(cfg, db, op, now).0, owner)
  {
    hide Append;
    forall e: Event | e.kind != ResponseDetected
      ensures Append(db.events, e) == db.events + [e] { ResponsesAppend(db.events, e); }
  }

  lemma {:induction false} RunOwned(cfg: Config, owner: string -> Account, ticks: seq<Tick>)
    requires forall i :: 0 <= i < |ticks| ==> OneAccount(ticks[i].op, owner)
    ensures Owned(Run(cfg, Empty, ticks), owner)
    ensures Unlogged(cfg, Empty, ticks) == [] && Lost(cfg, Empty, ticks) == {}
  {
    hide SyncAll, UnloggedAll, Reassigns;
    if ticks != [] {
      var n := |ticks| - 1;
      RunOwned(cfg, owner, ticks[..n]);
      hide Owned;
      var db, op, now := Run(cfg, Empty, ticks[..n]), ticks[n].op, ticks[n].now;
      assert OneAccount(ticks[n].op, owner);
      if op.Sync? {
        SyncOwned(cfg, db, owner, op.account, op.messages, now);
      } else {
        OtherOwned(cfg, db, owner, op, now);
      }
      assert UnloggedBy(cfg, db, op, now) == [];
    }
  }

  /**
   * When every message id is read from one account only, nothing is left out of the log: all three counts are equal,
   * and every row equals the fold of its events in all columns.
   */
  lemma OneAccountLogsAll(cfg: Config, owner: string -> Account, ticks: seq<Tick>)
    requires forall i :: 0 <= i < |ticks| ==> OneAccount(ticks[i].op, owner)
    ensures var db := Run(cfg, Empty, ticks);
      Inv(cfg, db, {}) && Responses(db.events) == Reported(cfg, Empty, ticks) == |LinkedKeys(db)|
  {
    RunOwned(cfg, owner, ticks);
    hide Inv, Run, Unlogged, LinkedKeys, Responses, OneAccount;
    LinksConserved(cfg, ticks);
    LogRefinesRows(cfg, ticks);
  }

  // ----- the shape of a link -----

  /**
   * A new link goes to an open item of the same thread whose reply was initiated no later than the mail was sent, and
   * to the latest such reply; nothing else is touched but that row, which becomes responded.
   */
  lemma LinkShape(cfg: Config, db: Db, account: Account, m: Sent, now: Time)
    ensures var (db', n) := SyncOne(cfg, db, account, m, now);
      var key := (account, m.messageId);
      if n == 0 then db'.items == db.items && db'.events == db.events
      else
        && (key in db.outbound ==> db.outbound[key].linked.None?)
        && db'.outbound[key].linked.Some?
        && var e := db'.outbound[key].linked.value;
           && Eligible(cfg, db.items, e, m.threadId, m.At(now))
           && (forall o :: o in db.items && Eligible(cfg, db.items, o, m.threadId, m.At(now)) ==>
                db.items[o].replyInitiatedAt.value <= db.items[e].replyInitiatedAt.value)
           && db'.items == db.items[e := MarkResponded(db.items[e], m.At(now), now)]
           && db'.items[e].status == Responded && db'.items[e].respondedAt == Some(m.At(now))
  {
    var db1 := Upsert(db, (account, m.messageId), m.threadId, m.At(now));
    assert db1.items == db.items;
  }

  /** And a link is missed only when nothing is eligible. */
  lemma LinkComplete(cfg: Config, db: Db, account: Account, m: Sent, now: Time)
    ensures var (db', n) := SyncOne(cfg, db, account, m, now);
      var key := (account, m.messageId);
      n == 1 <==> (key in db.outbound ==> db.outbound[key].linked.None?)
                  && exists e :: e in db.items && Eligible(cfg, db.items, e, m.threadId, m.At(now))
  {
    PickFinds(cfg, db.items, m.threadId, m.At(now));
  }
}
