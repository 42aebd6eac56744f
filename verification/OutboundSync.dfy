/**
 * Whole-run properties: repeated syncs, unlogged responses, the choice of a link, tenures, and what the log justifies.
 */
module OutboundSync {
  import opened WorkModel
  import opened WorkLog
  import opened OutboundLinks

  // ----- re-syncing a processed batch -----

  /** No more can happen to a sent message: it is linked, or nothing it may link to is left. */
  ghost predicate Settled(cfg: Config, db: Db, account: Account, m: Sent) {
    var key := (account, m.messageId);
    && m.sentAt.Some? && key in db.outbound
    && (db.outbound[key].linked.Some?
        || forall e :: e in db.items ==> !Eligible(cfg, db.items, e, m.threadId, m.sentAt.value))
  }

  /** The items a message may link to never grow: a step adds none, and a link adds none whatever its clock. */
  ghost predicate Shrinks(cfg: Config, a: Db, b: Db, threadId: string, sentAt: Time) {
    forall e :: e in b.items && Eligible(cfg, b.items, e, threadId, sentAt) ==>
      e in a.items && Eligible(cfg, a.items, e, threadId, sentAt)
  }

  lemma SyncOneShrinks(cfg: Config, db: Db, account: Account, m: Sent, now: Time, threadId: string, sentAt: Time)
    ensures Shrinks(cfg, db, SyncOne(cfg, db, account, m, now).0, threadId, sentAt)
  {
    LinkShape(cfg, db, account, m, now);
    hide SyncOne;
  }

  lemma {:induction false} SyncShrinks(cfg: Config, db: Db, account: Account, messages: seq<Sent>, now: Time,
      threadId: string, sentAt: Time)
    ensures Shrinks(cfg, db, SyncAll(cfg, db, account, messages, now).0, threadId, sentAt)
  {
    hide SyncOne, Eligible;
    if messages != [] {
      var n := |messages| - 1;
      SyncShrinks(cfg, db, account, messages[..n], now, threadId, sentAt);
      SyncOneShrinks(cfg, SyncAll(cfg, db, account, messages[..n], now).0, account, messages[n], now, threadId, sentAt);
    }
  }

  /** The clock condition: only the initiation of a reply, not later than `sentAt`, opens an item for mail sent then. */
  lemma StepShrinks(cfg: Config, db: Db, op: Op, now: Time, threadId: string, sentAt: Time)
    requires op.InitiateReply? ==> now > sentAt
    ensures Shrinks(cfg, db, Apply(cfg, db, op, now).0, threadId, sentAt)
  {
    hide SyncAll, Append;
    if op.Sync? { SyncShrinks(cfg, db, op.account, op.messages, now, threadId, sentAt); }
  }

  lemma KeepsSettled(cfg: Config, a: Db, b: Db, account: Account, m: Sent)
    requires Settled(cfg, a, account, m) && LinksKept(a, b) && Shrinks(cfg, a, b, m.threadId, m.sentAt.value)
    ensures Settled(cfg, b, account, m)
  {
    hide Eligible;
  }

  lemma SyncOneSettles(cfg: Config, db: Db, account: Account, m: Sent, now: Time)
    requires m.sentAt.Some?
    ensures Settled(cfg, SyncOne(cfg, db, account, m, now).0, account, m)
  {
    var key := (account, m.messageId);
    var db1 := Upsert(db, key, m.threadId, m.At(now));
    PickFinds(cfg, db1.items, m.threadId, m.At(now));
    hide Eligible, Pick;
  }

  /** Processing a batch settles every message in it. */
  lemma {:induction false} SyncSettles(cfg: Config, db: Db, account: Account, messages: seq<Sent>, now: Time)
    requires forall m :: m in messages ==> m.sentAt.Some?
    ensures forall m :: m in messages ==> Settled(cfg, SyncAll(cfg, db, account, messages, now).0, account, m)
  {
    hide SyncOne, Shrinks, LinksKept, Settled;
    if messages != [] {
      var n := |messages| - 1;
      var before := SyncAll(cfg, db, account, messages[..n], now).0;
      var after := SyncOne(cfg, before, account, messages[n], now).0;
      SyncSettles(cfg, db, account, messages[..n], now);
      SyncOneLinks(cfg, before, account, messages[n], now);
      SyncOneSettles(cfg, before, account, messages[n], now);
      forall m | m in messages ensures Settled(cfg, after, account, m) {
        if m in messages[..n] {
          DatedWhenSettled(cfg, before, account, m);
          SyncOneShrinks(cfg, before, account, messages[n], now, m.threadId, m.sentAt.value);
          KeepsSettled(cfg, before, after, account, m);
        } else {
          assert m == messages[n];
        }
      }
    }
  }

  lemma DatedWhenSettled(cfg: Config, db: Db, account: Account, m: Sent)
    requires Settled(cfg, db, account, m)
    ensures m.sentAt.Some?
  {
  }

  /** A settled message stays settled through any run whose replies are initiated later than its date. */
  lemma {:induction false} RunKeepsSettled(cfg: Config, db: Db, account: Account, m: Sent, ticks: seq<Tick>)
    requires Settled(cfg, db, account, m)
    requires forall i :: 0 <= i < |ticks| && ticks[i].op.InitiateReply? ==> ticks[i].now > m.sentAt.value
    ensures Settled(cfg, Run(cfg, db, ticks), account, m)
  {
    hide Apply, Eligible, Shrinks, LinksKept;
    if ticks != [] {
      var n := |ticks| - 1;
      RunKeepsSettled(cfg, db, account, m, ticks[..n]);
      var before := Run(cfg, db, ticks[..n]);
      StepShrinks(cfg, before, ticks[n].op, ticks[n].now, m.threadId, m.sentAt.value);
      StepLinks(cfg, before, ticks[n].op, ticks[n].now);
      KeepsSettled(cfg, before, Run(cfg, db, ticks), account, m);
    }
  }

  /** A sync of this message would link nothing: it is linked, or no item is eligible for its date or for the clock. */
  predicate Quiet(cfg: Config, db: Db, account: Account, m: Sent, now: Time) {
    || ((account, m.messageId) in db.outbound && db.outbound[(account, m.messageId)].linked.Some?)
    || forall e :: e in db.items ==> !Eligible(cfg, db.items, e, m.threadId, m.At(now))
  }

  lemma SyncOneQuietIff(cfg: Config, db: Db, account: Account, m: Sent, now: Time)
    ensures var (db', n) := SyncOne(cfg, db, account, m, now);
      && (n == 0 <==> Quiet(cfg, db, account, m, now))
      && (n == 0 ==> db'.items == db.items && db'.events == db.events && LinkedKeys(db') == LinkedKeys(db))
  {
    LinkComplete(cfg, db, account, m, now);
    LinkShape(cfg, db, account, m, now);
    hide Eligible, Pick;
  }

  lemma QuietBySameLinks(cfg: Config, a: Db, b: Db, account: Account, m: Sent, now: Time)
    requires a.items == b.items && LinkedKeys(a) == LinkedKeys(b)
    ensures Quiet(cfg, a, account, m, now) <==> Quiet(cfg, b, account, m, now)
  {
    hide Eligible;
    var key := (account, m.messageId);
    assert key in LinkedKeys(a) <==> key in LinkedKeys(b);
  }

  /**
   * In any state and for any batch, unreadable dates included: a sync links nothing if and only if every message is
   * already linked or has no eligible item; and then no row, no event and no link changes.
   */
  lemma {:induction false} SyncQuietIff(cfg: Config, db: Db, account: Account, messages: seq<Sent>, now: Time)
    ensures var (db', n) := SyncAll(cfg, db, account, messages, now);
      && (n == 0 <==> forall m :: m in messages ==> Quiet(cfg, db, account, m, now))
      && (n == 0 ==> db'.items == db.items && db'.events == db.events && LinkedKeys(db') == LinkedKeys(db))
  {
    hide SyncOne, LinkedKeys, Quiet;
    if messages != [] {
      var k := |messages| - 1;
      var (before, n) := SyncAll(cfg, db, account, messages[..k], now);
      SyncQuietIff(cfg, db, account, messages[..k], now);
      SyncOneQuietIff(cfg, before, account, messages[k], now);
      if n == 0 { QuietBySameLinks(cfg, before, db, account, messages[k], now); }
      assert forall m :: m in messages <==> m in messages[..k] || m == messages[k];
    }
  }

  /** The same as the outcome of the transaction. */
  lemma SyncLinksNothingIff(cfg: Config, db: Db, account: Account, messages: seq<Sent>, now: Time)
    ensures var (db', outcome) := Apply(cfg, db, Sync(account, messages), now);
      && (outcome == Synced(|messages|, 0) <==> forall m :: m in messages ==> Quiet(cfg, db, account, m, now))
      && (outcome == Synced(|messages|, 0)
        ==> db'.items == db.items && db'.events == db.events && LinkedKeys(db') == LinkedKeys(db))
  {
    hide SyncAll, LinkedKeys, Quiet;
    SyncQuietIff(cfg, db, account, messages, now);
  }

  lemma SettledIsQuiet(cfg: Config, db: Db, account: Account, m: Sent, now: Time)
    requires Settled(cfg, db, account, m)
    ensures Quiet(cfg, db, account, m, now)
  {
    hide Eligible;
  }

  /**
   * After a batch with readable dates has been processed, any interleaving of other transactions whose replies are
   * initiated later than those dates, and then the same batch again: nothing is linked, and no row and no event
   * changes.
   */
  lemma {:induction false} ResyncIsQuiet(cfg: Config, db: Db, account: Account, messages: seq<Sent>, first: Time,
      ticks: seq<Tick>, again: Time)
    requires forall m :: m in messages ==> m.sentAt.Some?
    requires forall m, i :: m in messages && 0 <= i < |ticks| && ticks[i].op.InitiateReply?
               ==> ticks[i].now > m.sentAt.value
    ensures var db1 := Run(cfg, Apply(cfg, db, Sync(account, messages), first).0, ticks);
      var (db2, outcome) := Apply(cfg, db1, Sync(account, messages), again);
      outcome == Synced(|messages|, 0) && db2.items == db1.items && db2.events == db1.events
        && LinkedKeys(db2) == LinkedKeys(db1)
  {
    hide Run, SyncAll, Settled, LinkedKeys;
    var start := SyncAll(cfg, db, account, messages, first).0;
    SyncSettles(cfg, db, account, messages, first);
    forall m | m in messages ensures Quiet(cfg, Run(cfg, start, ticks), account, m, again) {
      RunKeepsSettled(cfg, start, account, m, ticks);
      SettledIsQuiet(cfg, Run(cfg, start, ticks), account, m, again);
    }
    SyncLinksNothingIff(cfg, Run(cfg, start, ticks), account, messages, again);
  }

  lemma SyncSingle(cfg: Config, db: Db, account: Account, m: Sent, now: Time)
    ensures SyncAll(cfg, db, account, [m], now) == SyncOne(cfg, db, account, m, now)
  {
    assert [m][..0] == [];
    hide SyncOne;
  }

  /**
   * The clock condition cannot be dropped: one assignment and one reply after the first sync make the second sync link
   * the message exactly when the reply's clock is not later than the message's date, an unreadable date being the
   * clock of the sync itself.
   */
  lemma ResyncLinksLateReplies(m: Sent, first: Time, assign: Time, reply: Time, again: Time)
    requires m.threadId != "" && first < assign < reply < again
    ensures var cfg := Config(1, map[1 := m.threadId]);
      var db0 := Apply(cfg, Empty, Sync(0, [m]), first).0;
      var db1 := Run(cfg, db0, [Tick(Ensure(1, 1, Some(1), None, None), assign), Tick(InitiateReply(1, 1), reply)]);
      Apply(cfg, db1, Sync(0, [m]), again).1 == Synced(1, if reply <= m.At(again) then 1 else 0)
  {
    var cfg := Config(1, map[1 := m.threadId]);
    SyncSingle(cfg, Empty, 0, m, first);
    LinkComplete(cfg, Empty, 0, m, first);
    LinkShape(cfg, Empty, 0, m, first);
    var db0 := SyncOne(cfg, Empty, 0, m, first).0;
    var db1 := AssignThenReply(cfg, db0, assign, reply);
    hide Apply, Run, SyncAll;
    assert db0.items == Empty.items;
    assert Eligible(cfg, db1.items, 1, m.threadId, m.At(again)) <==> reply <= m.At(again);
    LinkComplete(cfg, db1, 0, m, again);
    SyncSingle(cfg, db1, 0, m, again);
    ApplySyncUnfolds(cfg, db1, m, again);
    ApplySyncUnfolds(cfg, Empty, m, first);
  }

  lemma AssignThenReply(cfg: Config, db: Db, assign: Time, reply: Time) returns (after: Db)
    requires db.items == map[] && 1 in cfg.threads && cfg.threads[1] != ""
    ensures after == Run(cfg, db, [Tick(Ensure(1, 1, Some(1), None, None), assign), Tick(InitiateReply(1, 1), reply)])
    ensures after.outbound == db.outbound && after.items.Keys == {1}
    ensures after.items[1].replyInitiatedAt == Some(reply) && after.items[1].status == InProgress
    ensures forall i :: |db.events| <= i < |after.events| ==> after.events[i].kind != ResponseDetected
  {
    hide Append;
    forall events, e: Event | e.kind != ResponseDetected
      ensures Append(events, e) == events + [e] { ResponsesAppend(events, e); }
    var ticks := [Tick(Ensure(1, 1, Some(1), None, None), assign), Tick(InitiateReply(1, 1), reply)];
    var given := Apply(cfg, db, ticks[0].op, assign).0;
    assert given.items.Keys == {1} && given.items[1].status == Assigned && given.items[1].assignee == 1;
    after := Apply(cfg, given, ticks[1].op, reply).0;
    assert ticks[..1][..0] == [] && ticks[..1] == [ticks[0]];
    assert Run(cfg, db, ticks[..1]) == given;
  }

  lemma ApplySyncUnfolds(cfg: Config, db: Db, m: Sent, now: Time)
    ensures Apply(cfg, db, Sync(0, [m]), now)
      == (SyncAll(cfg, db, 0, [m], now).0, Synced(1, SyncAll(cfg, db, 0, [m], now).1))
  {
    hide SyncAll;
  }

  // ----- responses the unique index drops -----

  /** A link is logged exactly when its item has no response to the same message id yet; the row changes either way. */
  lemma LoggedUnlessRepeated(cfg: Config, db: Db, account: Account, m: Sent, now: Time)
    requires SyncOne(cfg, db, account, m, now).1 == 1
    ensures var db' := SyncOne(cfg, db, account, m, now).0;
      var e := db'.outbound[(account, m.messageId)].linked;
      && e.Some? && e.value in db.items && db'.items[e.value].respondedAt == Some(m.At(now))
      && db'.events == db.events + if Repeats(db.events, e.value, m.messageId) then []
        else [Response(e.value, db.items[e.value], m, m.At(now), now)]
  {
    var db1 := Upsert(db, (account, m.messageId), m.threadId, m.At(now));
    var e := Pick(cfg, db1.items, m.threadId, m.At(now)).value;
    var response := Response(e, db1.items[e], m, m.At(now), now);
    DroppedIffRepeated(db.events, response);
  }

  /** Syncing one message when item 1 is the only one and open for it. */
  lemma SyncOpenItem(cfg: Config, db: Db, account: Account, m: Sent, now: Time) returns (after: Db)
    requires db.items.Keys == {1} && Eligible(cfg, db.items, 1, m.threadId, m.At(now))
    requires (account, m.messageId) !in db.outbound
    ensures after == Apply(cfg, db, Sync(account, [m]), now).0
    ensures after.items.Keys == {1} && after.items[1] == MarkResponded(db.items[1], m.At(now), now)
    ensures forall key :: key in after.outbound ==> key in db.outbound || key == (account, m.messageId)
    ensures |LinkedKeys(after)| == |LinkedKeys(db)| + 1
    ensures after.events == db.events + if Repeats(db.events, 1, m.messageId) then []
      else [Response(1, db.items[1], m, m.At(now), now)]
  {
    LinkComplete(cfg, db, account, m, now);
    LinkShape(cfg, db, account, m, now);
    LoggedUnlessRepeated(cfg, db, account, m, now);
    SyncOneLinks(cfg, db, account, m, now);
    SyncSingle(cfg, db, account, m, now);
    after := SyncOne(cfg, db, account, m, now).0;
  }

  /**
   * So the one-account condition is needed: a message id read from two accounts makes two links and one event, and
   * leaves the row with a response date that the log does not know, unless both accounts give the same date.
   */
  lemma TwoAccountsLoseAResponse(messageId: string, threadId: string, date: Time)
    requires messageId != "" && threadId != "" && date >= 2
    ensures var cfg := Config(1, map[1 := threadId]);
      var opening := [Tick(Ensure(1, 1, Some(1), None, None), 1), Tick(InitiateReply(1, 1), 2)];
      var db := Run(cfg, Empty, opening);
      var db' := Apply(cfg, db, Sync(0, [Sent(messageId, threadId, Some(3))]), 4).0;
      var db'' := Apply(cfg, db', Sync(1, [Sent(messageId, threadId, Some(date))]), 6).0;
      && |LinkedKeys(db'')| == |LinkedKeys(db')| + 1 == |LinkedKeys(db)| + 2
      && db''.events == db'.events && |db'.events| == |db.events| + 1
      && 1 in db''.items && db''.items[1].respondedAt == Some(date)
      && db''.events[|db.events|].sentAt == Some(3)
  {
    var cfg := Config(1, map[1 := threadId]);
    var m, m' := Sent(messageId, threadId, Some(3)), Sent(messageId, threadId, Some(date));
    var db := AssignThenReply(cfg, Empty, 1, 2);
    hide Apply, Run, LinkedKeys;
    assert db.outbound == map[];
    var db' := SyncOpenItem(cfg, db, 0, m, 4);
    assert !Repeats(db.events, 1, messageId);
    var response := Response(1, db.items[1], m, 3, 4);
    assert db'.events[|db.events|] == response;
    assert Repeats(db'.events, 1, messageId);
    var db'' := SyncOpenItem(cfg, db', 1, m', 6);
  }

  // ----- the choice of the linked item -----

  /** Reply times are past clock readings, and no two items share one. */
  ghost predicate DistinctReplies(db: Db, clock: Time) {
    && (forall e :: e in db.items && db.items[e].replyInitiatedAt.Some? ==> db.items[e].replyInitiatedAt.value <= clock)
    && (forall e, o :: e in db.items && o in db.items && e != o && db.items[e].replyInitiatedAt.Some? ==>
          db.items[e].replyInitiatedAt != db.items[o].replyInitiatedAt)
  }

  lemma SyncOneReplies(cfg: Config, db: Db, account: Account, m: Sent, now: Time, clock: Time)
    requires DistinctReplies(db, clock)
    ensures DistinctReplies(SyncOne(cfg, db, account, m, now).0, clock)
  {
    LinkShape(cfg, db, account, m, now);
    hide SyncOne, Eligible;
  }

  lemma {:induction false} SyncReplies(cfg: Config, db: Db, account: Account, messages: seq<Sent>, now: Time,
      clock: Time)
    requires DistinctReplies(db, clock)
    ensures DistinctReplies(SyncAll(cfg, db, account, messages, now).0, clock)
  {
    hide SyncOne, DistinctReplies;
    if messages != [] {
      var n := |messages| - 1;
      SyncReplies(cfg, db, account, messages[..n], now, clock);
      SyncOneReplies(cfg, SyncAll(cfg, db, account, messages[..n], now).0, account, messages[n], now, clock);
    }
  }

  /** Changing one row keeps reply times apart when its reply is the old one, none, or newer than every other. */
  lemma OneReply(db: Db, db': Db, x: EmailId, clock: Time, now: Time)
    requires DistinctReplies(db, clock) && clock < now
    requires x in db'.items && db'.items == db.items[x := db'.items[x]]
    requires var r := db'.items[x].replyInitiatedAt;
      r == None || r == Some(now) || (x in db.items && r == db.items[x].replyInitiatedAt)
    ensures DistinctReplies(db', now)
  {
  }

  lemma StepReplies(cfg: Config, db: Db, op: Op, now: Time, clock: Time)
    requires DistinctReplies(db, clock) && clock < now
    ensures DistinctReplies(Apply(cfg, db, op, now).0, now)
  {
    hide SyncAll, Append, DistinctReplies, Taken;
    if op.Sync? {
      SyncReplies(cfg, db, op.account, op.messages, now, clock);
      LaterClock(Apply(cfg, db, op, now).0, clock, now);
    } else {
      var db' := Apply(cfg, db, op, now).0;
      if db'.items == db.items {
        LaterClock(db, clock, now);
        SameReplies(db, db', now);
      } else {
        OneReply(db, db', op.email, clock, now);
      }
    }
  }

  lemma LaterClock(db: Db, clock: Time, now: Time)
    requires DistinctReplies(db, clock) && clock <= now
    ensures DistinctReplies(db, now)
  {
  }

  lemma SameReplies(a: Db, b: Db, clock: Time)
    requires DistinctReplies(a, clock) && a.items == b.items
    ensures DistinctReplies(b, clock)
  {
  }

  lemma {:induction false} RunReplies(cfg: Config, ticks: seq<Tick>, start: Time)
    requires Clocked(ticks, start)
    ensures DistinctReplies(Run(cfg, Empty, ticks), if ticks == [] then start else ticks[|ticks| - 1].now)
  {
    hide Apply;
    if ticks != [] {
      var n := |ticks| - 1;
      RunReplies(cfg, ticks[..n], start);
      hide DistinctReplies;
      StepReplies(cfg, Run(cfg, Empty, ticks[..n]), ticks[n].op, ticks[n].now, if n == 0 then start
        else ticks[n - 1].now);
    }
  }

  /** In every reachable state the query's order alone determines the linked item: it is strictly the latest reply. */
  lemma LatestReplyIsUnique(cfg: Config, ticks: seq<Tick>, start: Time, threadId: string, sentAt: Time)
    requires Clocked(ticks, start)
    ensures var items := Run(cfg, Empty, ticks).items;
      var picked := Pick(cfg, items, threadId, sentAt);
      picked.Some? ==> forall o :: o in items && o != picked.value && Eligible(cfg, items, o, threadId, sentAt) ==>
        items[o].replyInitiatedAt.value < items[picked.value].replyInitiatedAt.value
  {
    RunReplies(cfg, ticks, start);
    hide Run;
  }

  // ----- one assignee's tenure -----

  /** While the assignee stays, completed is final and responded leads only to itself or completed. */
  ghost predicate Forward(a: Db, b: Db) {
    forall e :: e in a.items ==> e in b.items && (b.items[e].assignee == a.items[e].assignee ==>
      && (a.items[e].status == Completed ==> b.items[e].status == Completed)
      && (a.items[e].status == Responded ==> b.items[e].status in {Responded, Completed}))
  }

  /** Sync keeps every assignee. */
  ghost predicate SameHolders(a: Db, b: Db) {
    a.items.Keys == b.items.Keys && forall e :: e in a.items ==> a.items[e].assignee == b.items[e].assignee
  }

  lemma {:induction false} SyncForward(cfg: Config, db: Db, account: Account, messages: seq<Sent>, now: Time)
    ensures var db' := SyncAll(cfg, db, account, messages, now).0; Forward(db, db') && SameHolders(db, db')
  {
    hide SyncOne;
    if messages != [] {
      var n := |messages| - 1;
      SyncForward(cfg, db, account, messages[..n], now);
      LinkShape(cfg, SyncAll(cfg, db, account, messages[..n], now).0, account, messages[n], now);
    }
  }

  lemma StepForward(cfg: Config, db: Db, op: Op, now: Time)
    ensures Forward(db, Apply(cfg, db, op, now).0)
  {
    hide SyncAll, Append;
    if op.Sync? { SyncForward(cfg, db, op.account, op.messages, now); }
  }

  /** Over a whole run in which the item keeps its assignee. */
  lemma {:induction false} TenureForward(cfg: Config, db: Db, ticks: seq<Tick>, e: EmailId)
    requires e in db.items
    requires forall n :: 0 <= n <= |ticks| ==> e in Run(cfg, db, ticks[..n]).items
                                               ==> Run(cfg, db, ticks[..n]).items[e].assignee == db.items[e].assignee
    ensures var items := Run(cfg, db, ticks).items;
      && e in items
      && (db.items[e].status == Completed ==> items[e].status == Completed)
      && (db.items[e].status == Responded ==> items[e].status in {Responded, Completed})
  {
    hide Apply;
    if ticks != [] {
      var n := |ticks| - 1;
      forall k | 0 <= k <= n ensures ticks[..n][..k] == ticks[..k] {}
      TenureForward(cfg, db, ticks[..n], e);
      StepForward(cfg, Run(cfg, db, ticks[..n]), ticks[n].op, ticks[n].now);
      assert ticks[..n + 1] == ticks;
    }
  }

  // ----- the log justifies its responses -----

  /**
   * Every logged response follows, within the same tenure of its item, a reply initiated no later than the mail was
   * sent, with no completion in between, and names the item's own thread.
   */
  ghost predicate Justified(cfg: Config, events: seq<Event>) {
    forall i :: 0 <= i < |events| && events[i].kind == ResponseDetected ==> JustifiedBy(cfg, events[..i], events[i])
  }

  ghost predicate JustifiedBy(cfg: Config, before: seq<Event>, e: Event) {
    var t := Tenure(History(before, e.item));
    && t != [] && t[|t| - 1].holder == e.holder
    && LastAt(t, {ReplyInitiated}).Some? && e.sentAt.Some? && LastAt(t, {ReplyInitiated}).value <= e.sentAt.value
    && Last(t, {CompletedBy}).None?
    && e.item in cfg.threads && cfg.threads[e.item] == e.threadId
  }

  lemma JustifiedSnoc(cfg: Config, events: seq<Event>, e: Event)
    requires Justified(cfg, events) && (e.kind == ResponseDetected ==> JustifiedBy(cfg, events, e))
    ensures Justified(cfg, events + [e])
  {
    hide JustifiedBy;
    forall i | 0 <= i < |events + [e]| && (events + [e])[i].kind == ResponseDetected
      ensures JustifiedBy(cfg, (events + [e])[..i], (events + [e])[i])
    {
      if i < |events| {
        assert (events + [e])[..i] == events[..i];
      } else {
        assert (events + [e])[..i] == events;
      }
    }
  }

  lemma LinkJustified(cfg: Config, db: Db, e: EmailId, m: Sent, sentAt: Time, now: Time, lost: set<EmailId>)
    requires ItemInv(cfg, db, e, lost) && Eligible(cfg, db.items, e, m.threadId, sentAt)
    ensures JustifiedBy(cfg, db.events, Response(e, db.items[e], m, sentAt, now))
  {
    FirstIffLast(Tenure(History(db.events, e)), {CompletedBy});
    hide History, Tenure, Last, FirstAt, AgreesOnResponses;
  }

  lemma SyncOneJustified(cfg: Config, db: Db, account: Account, m: Sent, now: Time, lost: set<EmailId>)
    requires Inv(cfg, db, lost) && Justified(cfg, db.events)
    ensures Justified(cfg, SyncOne(cfg, db, account, m, now).0.events)
  {
    var key, sentAt := (account, m.messageId), m.At(now);
    var db1 := Upsert(db, key, m.threadId, sentAt);
    hide ItemInv, Justified, Pick;
    var picked := Pick(cfg, db1.items, m.threadId, sentAt);
    if db1.outbound[key].linked.None? && picked.Some? {
      var response := Response(picked.value, db.items[picked.value], m, sentAt, now);
      assert ItemInv(cfg, db, picked.value, lost);
      LinkJustified(cfg, db, picked.value, m, sentAt, now, lost);
      JustifiedSnoc(cfg, db.events, response);
      DroppedIffRepeated(db.events, response);
      hide Append;
    }
  }

  lemma {:induction false} SyncJustified(cfg: Config, db: Db, account: Account, messages: seq<Sent>, now: Time,
      lost: set<EmailId>)
    requires Inv(cfg, db, lost) && Justified(cfg, db.events)
    ensures Justified(cfg, SyncAll(cfg, db, account, messages, now).0.events)
  {
    hide Inv, SyncOne, Justified, UnloggedAll;
    if messages != [] {
      var n := |messages| - 1;
      SyncJustified(cfg, db, account, messages[..n], now, lost);
      SyncKeeps(cfg, db, account, messages[..n], now, lost);
      SyncOneJustified(cfg, SyncAll(cfg, db, account, messages[..n], now).0, account, messages[n], now,
                       lost + ItemsOf(UnloggedAll(cfg, db, account, messages[..n], now)));
    }
  }

  lemma OtherJustified(cfg: Config, db: Db, op: Op, now: Time)
    requires !op.Sync? && Justified(cfg, db.events)
    ensures Justified(cfg, Apply(cfg, db, op, now).0.events)
  {
    hide Justified, Append;
    forall e: Event | e.kind != ResponseDetected ensures Justified(cfg, Append(db.events, e)) {
      ResponsesAppend(db.events, e);
      JustifiedSnoc(cfg, db.events, e);
    }
  }

  /** In every reachable log, whatever accounts the mail was read from. */
  lemma {:induction false} ResponsesJustified(cfg: Config, ticks: seq<Tick>)
    ensures Justified(cfg, Run(cfg, Empty, ticks).events)
  {
    hide SyncAll, Inv, JustifiedBy, Lost;
    if ticks != [] {
      var n := |ticks| - 1;
      ResponsesJustified(cfg, ticks[..n]);
      hide Justified;
      LogRefinesRows(cfg, ticks[..n]);
      var db, op, now := Run(cfg, Empty, ticks[..n]), ticks[n].op, ticks[n].now;
      if op.Sync? {
        SyncJustified(cfg, db, op.account, op.messages, now, Lost(cfg, Empty, ticks[..n]));
      } else {
        OtherJustified(cfg, db, op, now);
      }
    }
  }

  // ----- what the unique index and the actor check keep -----

  /** No two logged responses of one item answer the same message id. */
  ghost predicate UniqueResponses(events: seq<Event>) {
    forall i, j :: 0 <= i < j < |events| ==> !Duplicates(events[i], events[j])
  }

  lemma AppendUnique(events: seq<Event>, e: Event)
    requires UniqueResponses(events)
    ensures UniqueResponses(Append(events, e))
    ensures e in Append(events, e) || exists d :: d in events && Duplicates(d, e)
  {
  }

  lemma {:induction false} SyncUnique(cfg: Config, db: Db, account: Account, messages: seq<Sent>, now: Time)
    requires UniqueResponses(db.events)
    ensures UniqueResponses(SyncAll(cfg, db, account, messages, now).0.events)
  {
    hide UniqueResponses;
    if messages != [] {
      var n := |messages| - 1;
      SyncUnique(cfg, db, account, messages[..n], now);
      var before, m := SyncAll(cfg, db, account, messages[..n], now).0, messages[n];
      forall e ensures UniqueResponses(Append(before.events, e)) { AppendUnique(before.events, e); }
      hide Append, Pick;
    }
  }

  lemma StepUnique(cfg: Config, db: Db, op: Op, now: Time)
    requires UniqueResponses(db.events)
    ensures UniqueResponses(Apply(cfg, db, op, now).0.events)
  {
    hide UniqueResponses, SyncAll;
    if op.Sync? {
      SyncUnique(cfg, db, op.account, op.messages, now);
    } else {
      forall e ensures UniqueResponses(Append(db.events, e)) { AppendUnique(db.events, e); }
      hide Append;
    }
  }

  /** Every reachable log satisfies its unique index. */
  lemma {:induction false} LogIsUnique(cfg: Config, ticks: seq<Tick>)
    ensures UniqueResponses(Run(cfg, Empty, ticks).events)
  {
    hide Apply;
    if ticks != [] {
      var n := |ticks| - 1;
      LogIsUnique(cfg, ticks[..n]);
      hide UniqueResponses;
      StepUnique(cfg, Run(cfg, Empty, ticks[..n]), ticks[n].op, ticks[n].now);
    }
  }

  /**
   * A user's transaction changes no row but the one it names, and that one only for its assignee; every change is
   * logged with that user as the actor.
   */
  lemma OnlyTheAssigneeActs(cfg: Config, db: Db, op: Op, now: Time)
    requires op.Acknowledge? || op.SetInProgress? || op.InitiateReply? || op.Complete?
    ensures var db' := Apply(cfg, db, op, now).0;
      var actor := if op.Acknowledge? then op.viewer else Some(op.actor);
      && db'.outbound == db.outbound
      && (db' != db ==>
           && op.email in db.items && op.email in db'.items && actor == Some(db.items[op.email].assignee)
           && db'.items == db.items[op.email := db'.items[op.email]]
             && db'.items[op.email].assignee == db.items[op.email].assignee
           && |db'.events| == |db.events| + 1 && db'.events[..|db.events|] == db.events
           && db'.events[|db.events|].actor == actor && db'.events[|db.events|].item == op.email)
  {
    hide Append;
    forall e: Event | e.kind != ResponseDetected
      ensures Append(db.events, e) == db.events + [e] { ResponsesAppend(db.events, e); }
  }
}
