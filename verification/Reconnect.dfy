/** A reconnect from end to end: the bridge sends its snapshot and then replays journal rows that the
    snapshot already contains. What the phone shows after both. */
module Reconnect {
  import opened Common
  import opened RequestTable
  import A = AdapterManager
  import BT = BridgeTables
  import G = GatewayStream
  import P = Projection
  import S = SessionStore
  import D = DeliverySafety
  import R = ReplicaColumns
  import Y = BridgeSync

  /** How the phone reads replayed rows: the event it makes of each, and its clock at that moment. */
  function Read(rows: seq<BT.Entry>, decode: BT.Entry -> D.Delivery): seq<D.Delivery> {
    seq(|rows|, i requires 0 <= i < |rows| => decode(rows[i]))
  }

  /** The phone after the snapshot, and after the replay that follows it. */
  function Shown(r: S.Replica, s: S.Snapshot, now: string): S.Replica {
    S.Apply(r, S.HostSnapshot(s), now)
  }

  function Replayed(r: S.Replica, s: S.Snapshot, now: string, journal: seq<BT.Entry>, cursor: int,
                    decode: BT.Entry -> D.Delivery): S.Replica
  {
    D.Run(Shown(r, s, now), Read(G.Replay(journal, cursor), decode))
  }

  // ---------------------------------------------------------------------
  // The whole phone, when every replayed event carries a version
  // ---------------------------------------------------------------------

  /** Versioned events after a snapshot leave the phone at the snapshot if and only if each of them
      is stale against it. */
  lemma ReconnectKeepsSnapshotIff(r: S.Replica, s: S.Snapshot, now: string, ds: seq<D.Delivery>)
    requires forall i :: 0 <= i < |ds| ==> D.Versioned(ds[i].event).Some?
    ensures D.Run(Shown(r, s, now), ds) == Shown(r, s, now) <==>
              forall i :: 0 <= i < |ds| ==> D.Stale(Shown(r, s, now), ds[i].event)
  {
    hide D.Versioned, D.Stale, D.Run, Shown;
    D.BatchIsNoOpIff(Shown(r, s, now), ds);
  }

  /** The version at which the tables list a record for the phone. Questions have none; being listed
      counts as version 0. */
  function Listed(db: BT.Tables, c: Y.Context, slot: D.Slot): Option<int> {
    match slot
    case SessionSlot(id) =>
      if id in db.sessions && Y.Visible(db.sessions[id].content, id, c) then Some(db.sessions[id].content.version)
      else None
    case ApprovalSlot(id) => if Y.Open(db.approvals, id) then Some(db.approvals[id].version) else None
    case QuestionSlot(id) => if Y.Open(db.questions, id) then Some(0) else None
  }

  /** The tables say at least as much as the event: its record is listed at its version or a later
      one, or is not listed and the event cannot create it. */
  predicate Holds(db: BT.Tables, c: Y.Context, e: S.Event)
    requires D.Versioned(e).Some?
  {
    var (slot, version) := D.Versioned(e).value;
    if Listed(db, c, slot).Some? then Listed(db, c, slot).value >= version else !D.Creates(e)
  }

  lemma ListedIsShown(r: S.Replica, db: BT.Tables, c: Y.Context, s: S.Snapshot, now: string, slot: D.Slot)
    requires Y.SnapshotOf(db, c, s)
    ensures var q := Shown(r, s, now);
            && D.VersionAt(q, slot) == Listed(db, c, slot)
            && (slot.QuestionSlot? && slot.id in q.questions ==> q.questions[slot.id].state == "pending")
  {
    hide Y.SnapshotOf, Y.Visible, Y.Open, S.Apply;
    Y.SnapshotShowsTables(r, db, c, s, now, slot.id);
  }

  lemma StaleIffHolds(r: S.Replica, db: BT.Tables, c: Y.Context, s: S.Snapshot, now: string, e: S.Event)
    requires Y.SnapshotOf(db, c, s) && D.Versioned(e).Some?
    ensures D.Stale(Shown(r, s, now), e) <==> Holds(db, c, e)
  {
    hide Y.SnapshotOf, Listed, Shown;
    ListedIsShown(r, db, c, s, now, D.Versioned(e).value.0);
  }

  /** From the tables to the phone: after snapshot and replay the phone is still at the snapshot, and
      so shows the tables, if and only if the tables hold what each replayed event says. */
  lemma ReplayAgreesIff(r: S.Replica, db: BT.Tables, c: Y.Context, s: S.Snapshot, now: string, cursor: int,
                        decode: BT.Entry -> D.Delivery)
    requires Y.SnapshotOf(db, c, s)
    requires forall e :: e in G.Replay(db.journal, cursor) ==> D.Versioned(decode(e).event).Some?
    ensures Replayed(r, s, now, db.journal, cursor, decode) == Shown(r, s, now) <==>
              forall e :: e in G.Replay(db.journal, cursor) ==> Holds(db, c, decode(e).event)
  {
    hide Y.SnapshotOf, D.Versioned, D.Stale, D.Run, Shown, Holds, G.Replay;
    var rows := G.Replay(db.journal, cursor);
    var ds := Read(rows, decode);
    assert forall i :: 0 <= i < |ds| ==> rows[i] in rows && ds[i] == decode(rows[i]);
    ReconnectKeepsSnapshotIff(r, s, now, ds);
    forall i | 0 <= i < |ds| ensures D.Stale(Shown(r, s, now), ds[i].event) <==> Holds(db, c, ds[i].event) {
      StaleIffHolds(r, db, c, s, now, ds[i].event);
    }
  }

  // ---------------------------------------------------------------------
  // Record by record, whatever the events carry
  // ---------------------------------------------------------------------

  /** A replayed event that cannot change the record: it is about another one, or carries a version
      that is not above this one. */
  predicate NotAbove(e: S.Event, slot: D.Slot, version: int) {
    R.About(e) == Some(slot) ==> D.Versioned(e).Some? && D.Versioned(e).value.1 <= version
  }

  lemma KeptIffNotAbove(q: S.Replica, ds: seq<D.Delivery>, slot: D.Slot)
    requires !slot.QuestionSlot? && D.VersionAt(q, slot).Some?
    requires forall i :: 0 <= i < |ds| ==> !ds[i].event.HostSnapshot?
    ensures D.SameRecord(q, D.Run(q, ds), slot) <==>
              forall i :: 0 <= i < |ds| ==> NotAbove(ds[i].event, slot, D.VersionAt(q, slot).value)
  {
    hide D.Run, D.SameRecord;
    R.RecordKeptIff(q, ds, slot);
    forall i | 0 <= i < |ds| && R.About(ds[i].event) == Some(slot)
      ensures D.Stale(q, ds[i].event) <==> NotAbove(ds[i].event, slot, D.VersionAt(q, slot).value)
    {
    }
  }

  ghost predicate AllNotAbove(rows: seq<BT.Entry>, decode: BT.Entry -> D.Delivery, slot: D.Slot, version: int) {
    forall e :: e in rows ==> NotAbove(decode(e).event, slot, version)
  }

  lemma SameRows(rows: seq<BT.Entry>, decode: BT.Entry -> D.Delivery, slot: D.Slot, version: int)
    ensures AllNotAbove(rows, decode, slot, version) <==>
              forall i :: 0 <= i < |Read(rows, decode)| ==> NotAbove(Read(rows, decode)[i].event, slot, version)
  {
    hide NotAbove;
    assert forall i :: 0 <= i < |rows| ==> Read(rows, decode)[i] == decode(rows[i]) && rows[i] in rows;
  }

  /** No replayed event creates the record. */
  ghost predicate NoneCreates(rows: seq<BT.Entry>, decode: BT.Entry -> D.Delivery, slot: D.Slot) {
    forall e :: e in rows ==> !R.CreatesAt(decode(e).event, slot)
  }

  lemma SameCreations(rows: seq<BT.Entry>, decode: BT.Entry -> D.Delivery, slot: D.Slot)
    ensures NoneCreates(rows, decode, slot) <==> !R.SomeCreates(Read(rows, decode), slot)
  {
    hide R.CreatesAt;
    assert forall i :: 0 <= i < |rows| ==> Read(rows, decode)[i] == decode(rows[i]) && rows[i] in rows;
  }

  /** What must hold of the replayed rows for a record to stay as the snapshot showed it, or did not
      show it: nothing about a listed session or approval that is unversioned or above its version,
      no resolution of a listed question that is not undone by a later one, and nothing that creates
      a record which is not listed. */
  ghost predicate Leaves(db: BT.Tables, c: Y.Context, rows: seq<BT.Entry>, decode: BT.Entry -> D.Delivery,
                         slot: D.Slot)
  {
    if Listed(db, c, slot).None? then NoneCreates(rows, decode, slot)
    else if slot.QuestionSlot? then R.StateGiven(Read(rows, decode), slot.id, "pending") == "pending"
    else AllNotAbove(rows, decode, slot, Listed(db, c, slot).value)
  }

  /** The record is the same in both, a question's state included. */
  predicate Alike(q: S.Replica, p: S.Replica, slot: D.Slot) {
    D.SameRecord(q, p, slot)
        && (slot.QuestionSlot? && slot.id in q.questions ==> p.questions[slot.id] == q.questions[slot.id])
  }

  ghost predicate NoSnapshots(rows: seq<BT.Entry>, decode: BT.Entry -> D.Delivery) {
    forall e :: e in rows ==> !decode(e).event.HostSnapshot?
  }

  /** For every record, listed or not, and whatever the events carry: it is the same after the replay
      as after the snapshot if and only if the replayed rows leave it alone. */
  lemma RecordAfterReconnectIff(r: S.Replica, db: BT.Tables, c: Y.Context, s: S.Snapshot, now: string, cursor: int,
                                decode: BT.Entry -> D.Delivery, slot: D.Slot)
    requires Y.SnapshotOf(db, c, s) && NoSnapshots(G.Replay(db.journal, cursor), decode)
    ensures Alike(Shown(r, s, now), Replayed(r, s, now, db.journal, cursor, decode), slot) <==>
              Leaves(db, c, G.Replay(db.journal, cursor), decode, slot)
  {
    hide Y.SnapshotOf, G.Replay, Shown, Listed, D.Run, AllNotAbove, NoneCreates, R.SomeCreates, R.StateGiven;
    var q, rows := Shown(r, s, now), G.Replay(db.journal, cursor);
    var ds := Read(rows, decode);
    assert forall i :: 0 <= i < |ds| ==> rows[i] in rows && ds[i] == decode(rows[i]);
    ListedIsShown(r, db, c, s, now, slot);
    if D.VersionAt(q, slot).None? {
      SameCreations(rows, decode, slot);
      R.AbsentUntilCreated(q, ds, slot);
    } else if slot.QuestionSlot? {
      R.QuestionAfter(q, ds, slot.id);
    } else {
      SameRows(rows, decode, slot, D.VersionAt(q, slot).value);
      KeptIffNotAbove(q, ds, slot);
    }
  }

  predicate SameScreen(q: S.Replica, p: S.Replica) {
    q.sessions == p.sessions && q.approvals == p.approvals && q.questions == p.questions
  }

  lemma SameScreenIff(q: S.Replica, p: S.Replica)
    ensures SameScreen(q, p) <==> forall slot :: Alike(q, p, slot)
  {
    if forall slot :: Alike(q, p, slot) {
      forall slot ensures D.VersionAt(q, slot) == D.VersionAt(p, slot) && D.SameRecord(q, p, slot) {
        assert Alike(q, p, slot);
      }
      D.SameVersionsSameReplica(q, p);
      forall id | id in q.questions ensures q.questions[id] == p.questions[id] {
        assert Alike(q, p, D.QuestionSlot(id));
      }
    }
  }

  /** The whole screen: a reconnect ends where a snapshot alone would if and only if the replayed rows
      leave every record alone. */
  lemma ScreenAfterReconnectIff(r: S.Replica, db: BT.Tables, c: Y.Context, s: S.Snapshot, now: string, cursor: int,
                                decode: BT.Entry -> D.Delivery)
    requires Y.SnapshotOf(db, c, s) && NoSnapshots(G.Replay(db.journal, cursor), decode)
    ensures SameScreen(Shown(r, s, now), Replayed(r, s, now, db.journal, cursor, decode)) <==>
              forall slot :: Leaves(db, c, G.Replay(db.journal, cursor), decode, slot)
  {
    hide Y.SnapshotOf, G.Replay, Shown, Replayed, Leaves, Alike, SameScreen;
    SameScreenIff(Shown(r, s, now), Replayed(r, s, now, db.journal, cursor, decode));
    forall slot
      ensures Alike(Shown(r, s, now), Replayed(r, s, now, db.journal, cursor, decode), slot) <==>
                Leaves(db, c, G.Replay(db.journal, cursor), decode, slot)
    {
      RecordAfterReconnectIff(r, db, c, s, now, cursor, decode, slot);
    }
  }

  /** Journal to screen, past the replay. A listed session still shows what the journal alone
      determines if and only if every replayed event about it carries a version that is not above one
      plus the number of events that wrote the session. One that is not listed stays off the screen
      if and only if no replayed event creates it. */
  lemma SessionAfterReconnectIff(ops: seq<P.Op>, r: S.Replica, c: Y.Context, s: S.Snapshot, now: string, cursor: int,
                                 decode: BT.Entry -> D.Delivery, id: string)
    requires P.Possible(ops) && Y.SnapshotOf(P.Run(ops).db, c, s)
    requires NoSnapshots(G.Replay(P.Run(ops).db.journal, cursor), decode)
    ensures var journal := P.Run(ops).db.journal;
            var rows, fold := G.Replay(journal, cursor), P.SessionFromJournal(journal, id);
            var q, end := Shown(r, s, now), Replayed(r, s, now, journal, cursor, decode);
            && (id in q.sessions <==> id in P.Run(ops).db.sessions && Y.Visible(fold, id, c))
            && (id in q.sessions ==>
                  && id in end.sessions
                  && (Y.Shows(end.sessions[id], fold) <==>
                      AllNotAbove(rows, decode, D.SessionSlot(id), 1 + |P.SessionEvents(journal, id)|))
                  && (Y.Shows(end.sessions[id], fold) <==> end.sessions[id] == q.sessions[id]))
            && (id !in q.sessions ==> (id !in end.sessions <==> NoneCreates(rows, decode, D.SessionSlot(id))))
  {
    hide Y.SnapshotOf, Y.Visible, P.Possible, P.Run, G.Replay, Shown, AllNotAbove, NoneCreates, D.Run, P.SessionEvents,
        Read;
    var db := P.Run(ops).db;
    var q, slot := Shown(r, s, now), D.SessionSlot(id);
    var ds := Read(G.Replay(db.journal, cursor), decode);
    ListedIsShown(r, db, c, s, now, slot);
    RecordAfterReconnectIff(r, db, c, s, now, cursor, decode, slot);
    if id in db.sessions {
      P.SessionRowIsFold(ops, id);
    }
    if id in q.sessions {
      ShownShows(ops, r, c, s, now, id);
      ReadHasNone(G.Replay(db.journal, cursor), decode);
      D.VersionsNeverFall(q, ds, slot);
    }
  }

  lemma ShownShows(ops: seq<P.Op>, r: S.Replica, c: Y.Context, s: S.Snapshot, now: string, id: string)
    requires P.Possible(ops) && Y.SnapshotOf(P.Run(ops).db, c, s) && id in Shown(r, s, now).sessions
    ensures Y.Shows(Shown(r, s, now).sessions[id], P.SessionFromJournal(P.Run(ops).db.journal, id))
  {
    hide P.SessionFromJournal, Y.SnapshotOf, Y.Shows, P.Possible, P.Run, S.Apply;
    Y.PhoneShowsJournal(ops, r, c, s, now, id);
  }

  lemma ReadHasNone(rows: seq<BT.Entry>, decode: BT.Entry -> D.Delivery)
    requires NoSnapshots(rows, decode)
    ensures forall i :: 0 <= i < |Read(rows, decode)| ==> !Read(rows, decode)[i].event.HostSnapshot?
  {
    assert forall i :: 0 <= i < |rows| ==> rows[i] in rows && Read(rows, decode)[i] == decode(rows[i]);
  }

  /** The same for an approval card, against the version of its row: a pending one, or one that is
      decided or unknown. */
  lemma CardAfterReconnectIff(ops: seq<P.Op>, r: S.Replica, c: Y.Context, s: S.Snapshot, now: string, cursor: int,
                              decode: BT.Entry -> D.Delivery, id: string)
    requires Y.SnapshotOf(P.Run(ops).db, c, s) && NoSnapshots(G.Replay(P.Run(ops).db.journal, cursor), decode)
    ensures var db := P.Run(ops).db;
            var rows, slot := G.Replay(db.journal, cursor), D.ApprovalSlot(id);
            var q, end := Shown(r, s, now), Replayed(r, s, now, db.journal, cursor, decode);
            if Y.Open(db.approvals, id) then
              && id in q.approvals && id in end.approvals
              && (end.approvals[id] == q.approvals[id] <==>
                  AllNotAbove(rows, decode, slot, db.approvals[id].version))
            else id !in q.approvals && (id !in end.approvals <==> NoneCreates(rows, decode, slot))
  {
    hide Y.SnapshotOf, P.Run, G.Replay, Shown, AllNotAbove, NoneCreates, D.Run, Read;
    var db := P.Run(ops).db;
    ListedIsShown(r, db, c, s, now, D.ApprovalSlot(id));
    RecordAfterReconnectIff(r, db, c, s, now, cursor, decode, D.ApprovalSlot(id));
    if Y.Open(db.approvals, id) {
      ReadHasNone(G.Replay(db.journal, cursor), decode);
      D.VersionsNeverFall(Shown(r, s, now), Read(G.Replay(db.journal, cursor), decode), D.ApprovalSlot(id));
    }
  }

  /** The same for a question, which has no version: a pending one stays as it is if and only if the
      last replayed resolution of it, if there is one, gives it the pending state again. */
  lemma QuestionAfterReconnectIff(ops: seq<P.Op>, r: S.Replica, c: Y.Context, s: S.Snapshot, now: string, cursor: int,
                                  decode: BT.Entry -> D.Delivery, id: string)
    requires Y.SnapshotOf(P.Run(ops).db, c, s) && NoSnapshots(G.Replay(P.Run(ops).db.journal, cursor), decode)
    ensures var db := P.Run(ops).db;
            var rows := G.Replay(db.journal, cursor);
            var q, end := Shown(r, s, now), Replayed(r, s, now, db.journal, cursor, decode);
            if Y.Open(db.questions, id) then
              && id in q.questions && id in end.questions
              && (end.questions[id] == q.questions[id] <==>
                  R.StateGiven(Read(rows, decode), id, "pending") == "pending")
            else id !in q.questions && (id !in end.questions <==> NoneCreates(rows, decode, D.QuestionSlot(id)))
  {
    hide Y.SnapshotOf, P.Run, G.Replay, Shown, NoneCreates, D.Run, Read, R.StateGiven;
    var db := P.Run(ops).db;
    ListedIsShown(r, db, c, s, now, D.QuestionSlot(id));
    RecordAfterReconnectIff(r, db, c, s, now, cursor, decode, D.QuestionSlot(id));
    if Y.Open(db.questions, id) {
      ReadHasNone(G.Replay(db.journal, cursor), decode);
      D.VersionsNeverFall(Shown(r, s, now), Read(G.Replay(db.journal, cursor), decode), D.QuestionSlot(id));
    }
  }

  // ---------------------------------------------------------------------
  // Versions stamped by the journal
  // ---------------------------------------------------------------------

  /** Each event about a session carries the version that the session's row had once it was written. */
  ghost predicate Stamped(journal: seq<BT.Entry>, decode: BT.Entry -> D.Delivery, id: string) {
    forall i :: 0 <= i < |journal| && R.About(decode(journal[i]).event) == Some(D.SessionSlot(id)) ==>
      D.Versioned(decode(journal[i]).event) == Some((D.SessionSlot(id), 1 + |P.SessionEvents(journal[..i + 1], id)|))
  }

  lemma {:induction false} EventsGrow(journal: seq<BT.Entry>, i: nat, id: string)
    requires i <= |journal|
    ensures |P.SessionEvents(journal[..i], id)| <= |P.SessionEvents(journal, id)|
  {
    hide P.Writes;
    if i == |journal| {
      assert journal[..i] == journal;
    } else {
      EventsGrow(Front(journal), i, id);
      assert Front(journal)[..i] == journal[..i];
    }
  }

  /** Stamped versions are never above that of the row. */
  lemma StampedNotAbove(journal: seq<BT.Entry>, cursor: int, decode: BT.Entry -> D.Delivery, id: string)
    requires BT.Rising(journal) && Stamped(journal, decode, id)
    ensures AllNotAbove(G.Replay(journal, cursor), decode, D.SessionSlot(id), 1 + |P.SessionEvents(journal, id)|)
  {
    hide G.Replay, P.SessionEvents, R.About, D.Versioned, BT.Rising, BT.RowsAfter, BT.LastSequence;
    G.ReplayRises(journal, cursor);
    forall e | e in G.Replay(journal, cursor)
      ensures NotAbove(decode(e).event, D.SessionSlot(id), 1 + |P.SessionEvents(journal, id)|)
    {
      var i :| 0 <= i < |journal| && journal[i] == e;
      EventsGrow(journal, i + 1, id);
    }
  }

  /** The list of sessions is that of the snapshot, and each one shows what the journal determines. */
  ghost predicate ListAgrees(q: S.Replica, p: S.Replica, journal: seq<BT.Entry>) {
    forall id :: && (id in p.sessions <==> id in q.sessions)
                 && (id in p.sessions ==> Y.Shows(p.sessions[id], P.SessionFromJournal(journal, id)))
  }

  /** With such versions a listed session shows what the journal determines after the replay too,
      whatever the bridge went through and whatever the cursor. */
  lemma StampedSessionAgrees(ops: seq<P.Op>, r: S.Replica, c: Y.Context, s: S.Snapshot, now: string, cursor: int,
                             decode: BT.Entry -> D.Delivery, id: string)
    requires P.Possible(ops) && Y.SnapshotOf(P.Run(ops).db, c, s) && id in Shown(r, s, now).sessions
    requires NoSnapshots(G.Replay(P.Run(ops).db.journal, cursor), decode)
    requires Stamped(P.Run(ops).db.journal, decode, id)
    ensures var journal := P.Run(ops).db.journal;
            var end := Replayed(r, s, now, journal, cursor, decode);
            id in end.sessions && Y.Shows(end.sessions[id], P.SessionFromJournal(journal, id))
  {
    hide Y.SnapshotOf, Y.Visible, Y.Shows, P.Possible, P.Run, G.Replay, Shown, Replayed, P.SessionEvents, AllNotAbove,
        NoneCreates, P.SessionFromJournal, Stamped, NoSnapshots;
    JournalRises(ops);
    SessionAfterReconnectIff(ops, r, c, s, now, cursor, decode, id);
    StampedNotAbove(P.Run(ops).db.journal, cursor, decode, id);
  }

  /** The whole list is right if and only if no replayed event creates a session that the snapshot
      does not list: a version cannot stop that. */
  lemma StampedReplayAgrees(ops: seq<P.Op>, r: S.Replica, c: Y.Context, s: S.Snapshot, now: string, cursor: int,
                            decode: BT.Entry -> D.Delivery)
    requires P.Possible(ops) && Y.SnapshotOf(P.Run(ops).db, c, s)
    requires NoSnapshots(G.Replay(P.Run(ops).db.journal, cursor), decode)
    requires forall id :: Stamped(P.Run(ops).db.journal, decode, id)
    ensures var journal := P.Run(ops).db.journal;
            var q, end := Shown(r, s, now), Replayed(r, s, now, journal, cursor, decode);
            ListAgrees(q, end, journal) <==>
              forall id :: id !in q.sessions ==> NoneCreates(G.Replay(journal, cursor), decode, D.SessionSlot(id))
  {
    hide Y.SnapshotOf, Y.Visible, Y.Shows, P.Possible, P.Run, G.Replay, Shown, Replayed, P.SessionEvents, AllNotAbove,
        NoneCreates, P.SessionFromJournal, Stamped, NoSnapshots;
    var journal := P.Run(ops).db.journal;
    var q, end := Shown(r, s, now), Replayed(r, s, now, journal, cursor, decode);
    forall id | id in q.sessions
      ensures id in end.sessions && Y.Shows(end.sessions[id], P.SessionFromJournal(journal, id))
    {
      StampedSessionAgrees(ops, r, c, s, now, cursor, decode, id);
    }
    forall id | id !in q.sessions
      ensures id !in end.sessions <==> NoneCreates(G.Replay(journal, cursor), decode, D.SessionSlot(id))
    {
      SessionAfterReconnectIff(ops, r, c, s, now, cursor, decode, id);
    }
  }

  lemma JournalRises(ops: seq<P.Op>)
    requires P.Possible(ops)
    ensures BT.Rising(P.Run(ops).db.journal)
  {
    hide P.SessionsProjected, P.ApprovalsProjected, P.QuestionsProjected, P.Run, P.Possible, BT.Rising;
    P.EveryRunIsProjected(ops);
  }

  // ---------------------------------------------------------------------
  // Inputs on which replay and snapshot disagree
  // ---------------------------------------------------------------------

  const NoMembers: BT.Payload :=
    BT.Payload(None, None, None, None, None, None, None, None, None, None, None, None, None, None, None, None)

  function Plain(kind: BT.Kind, id: string): BT.Event {
    BT.Event(kind, id, BT.Members, NoMembers)
  }

  /** A phone is up to date with an event of session `t`, and misses the two after it. */
  function Missing(a: string, t: string, first: BT.Event, last: BT.Event, rowId: string, spare: string): seq<P.Op> {
    [P.Register(a)] + [P.Handle(a, Plain(BT.SessionWorking, t), rowId, "")]
    + [P.Handle(a, first, rowId, "")] + [P.Handle(a, last, spare, "")]
  }

  /** Reads the second row as this event; the phone does not know the others. */
  function Reading(first: S.Event, now: string): BT.Entry -> D.Delivery {
    (e: BT.Entry) => D.Delivery(if e.sequence == 2 then first else S.Unknown("other"), now)
  }

  function MissedJournal(t: string, first: BT.Event, last: BT.Event): seq<BT.Entry> {
    [BT.Entry(1, Plain(BT.SessionWorking, t)), BT.Entry(2, first), BT.Entry(3, last)]
  }

  lemma MissedReplay(t: string, first: BT.Event, last: BT.Event)
    ensures G.Replay(MissedJournal(t, first, last), 1) == [BT.Entry(2, first), BT.Entry(3, last)]
  {
    var one, two, three := BT.Entry(1, Plain(BT.SessionWorking, t)), BT.Entry(2, first), BT.Entry(3, last);
    assert Front([one, two, three]) == [one, two] && Front([one, two]) == [one] && Front([one]) == [];
    assert BT.RowsAfter([one], None, 1) == [];
    assert BT.RowsAfter([one, two], None, 1) == [] + [two];
    assert BT.RowsAfter([one, two, three], None, 1) == [two] + [three];
  }

  /** The replica after that replay: the second row alone has an effect. */
  lemma MissedEnd(q: S.Replica, t: string, first: BT.Event, last: BT.Event, e: S.Event, now: string)
    requires !e.HostSnapshot?
    ensures var rows := G.Replay(MissedJournal(t, first, last), 1);
            D.Run(q, Read(rows, Reading(e, now))) == S.Apply(q, e, now)
  {
    hide S.Apply;
    var decode := Reading(e, now);
    var rows := G.Replay(MissedJournal(t, first, last), 1);
    MissedReplay(t, first, last);
    var d, u := D.Delivery(e, now), D.Delivery(S.Unknown("other"), now);
    assert Read(rows, decode) == [d] + [u];
    D.RunSnoc(q, [], d);
    D.RunSnoc(q, [d], u);
    assert [] + [d] == [d];
    UnknownChangesNothing(S.Apply(q, e, now), now);
  }

  lemma UnknownChangesNothing(q: S.Replica, now: string)
    ensures S.Apply(q, S.Unknown("other"), now) == q
  {
  }

  predicate NoQuestion(e: BT.Event) {
    e.sessionId != "" && e.shape.Members? && !e.kind.QuestionRequested? && !e.kind.QuestionAnswered?
  }

  function ApprovalsWith(t: Table<BT.ApprovalBody>, e: BT.Event, rowId: string): Table<BT.ApprovalBody> {
    var p := e.payload;
    if e.kind.ApprovalRequested? then
      Coalesce(Insert(t, rowId, e.sessionId, Coalesce(p.approvalId, ""), A.ApprovalBodyOf(p)), t)
    else if e.kind.ApprovalResolved? then
      Settle(t, e.sessionId, Coalesce(p.approvalId, ""), Coalesce(p.decision, "resolved"), None)
    else t
  }

  /** One event of a registered adapter gets a row under the next number. */
  lemma HandledJournals(b: A.Bridge, a: string, e: BT.Event, rowId: string)
    requires a in b.adapters && NoQuestion(e) && b.known.Keys <= b.db.sessions.Keys
    ensures var d := A.HandleEvent(b, a, e, rowId, "", false).0;
            && d.adapters == b.adapters && d.known.Keys <= d.db.sessions.Keys && e.sessionId in d.db.sessions
            && d.db.journal == b.db.journal + [BT.Entry(b.db.counter + 1, e)] && d.db.counter == b.db.counter + 1
            && d.db.approvals == ApprovalsWith(b.db.approvals, e, rowId) && d.db.questions == b.db.questions
            && forall id :: id in b.db.sessions ==> id in d.db.sessions
  {
    hide A.Project, Insert, Settle, A.Updated, A.Effective;
    var c := A.EnsureSession(b, e.sessionId, a).value;
    P.ProjectParts(BT.WithRow(c.db, e), e, rowId, "");
  }

  /** What the bridge holds when the phone comes back. */
  lemma AfterMissing(a: string, t: string, first: BT.Event, last: BT.Event, rowId: string, spare: string)
    requires t != "" && NoQuestion(first) && NoQuestion(last) && rowId != spare
    ensures var ops := Missing(a, t, first, last, rowId, spare);
            && P.Possible(ops)
            && P.Run(ops).db.journal == MissedJournal(t, first, last)
            && P.Run(ops).db.approvals == ApprovalsWith(ApprovalsWith(map[], first, rowId), last, spare)
            && first.sessionId in P.Run(ops).db.sessions
  {
    hide A.HandleEvent, NoQuestion, ApprovalsWith, P.Possible, P.Run;
    var none := [P.Register(a)];
    var one := none + [P.Handle(a, Plain(BT.SessionWorking, t), rowId, "")];
    var two := one + [P.Handle(a, first, rowId, "")];
    StartOf(a);
    WorkingIsPlain(t);
    NextMissed(none, a, Plain(BT.SessionWorking, t), rowId);
    NextMissed(one, a, first, rowId);
    OnlyThisRow(first, rowId);
    NextMissed(two, a, last, spare);
  }

  lemma StartOf(a: string)
    ensures P.Possible([P.Register(a)])
    ensures P.Run([P.Register(a)]) == A.Empty.(adapters := {a})
  {
    assert Front([P.Register(a)]) == [];
  }

  lemma WorkingIsPlain(t: string)
    requires t != ""
    ensures NoQuestion(Plain(BT.SessionWorking, t))
    ensures ApprovalsWith(map[], Plain(BT.SessionWorking, t), "") == map[]
    ensures forall id :: ApprovalsWith(map[], Plain(BT.SessionWorking, t), id) == map[]
  {
  }

  lemma OnlyThisRow(e: BT.Event, rowId: string)
    ensures ApprovalsWith(map[], e, rowId).Keys <= {rowId}
  {
  }

  lemma NextMissed(ops: seq<P.Op>, a: string, e: BT.Event, rowId: string)
    requires P.Possible(ops) && NoQuestion(e)
    requires var b := P.Run(ops);
             && a in b.adapters && b.known.Keys <= b.db.sessions.Keys
             && rowId !in b.db.approvals && rowId !in b.db.questions
    ensures var b, more := P.Run(ops), ops + [P.Handle(a, e, rowId, "")];
            var d := P.Run(more);
            && P.Possible(more)
            && d.adapters == b.adapters && d.known.Keys <= d.db.sessions.Keys && e.sessionId in d.db.sessions
            && d.db.journal == b.db.journal + [BT.Entry(b.db.counter + 1, e)] && d.db.counter == b.db.counter + 1
            && d.db.approvals == ApprovalsWith(b.db.approvals, e, rowId) && d.db.questions == b.db.questions
            && forall id :: id in b.db.sessions ==> id in d.db.sessions
  {
    hide A.HandleEvent, NoQuestion, ApprovalsWith, P.Run;
    assert Front(ops + [P.Handle(a, e, rowId, "")]) == ops;
    P.RunSnoc(ops, P.Handle(a, e, rowId, ""));
    HandledJournals(P.Run(ops), a, e, rowId);
  }

  /** A session that failed while the phone was away is listed as failed, and the replay of its own
      events makes it run again: its `session.started` carries neither version nor state, and the
      store does not know `session.failed`. */
  lemma FailedSessionRunsAgain(a: string, t: string, id: string, r: S.Replica, c: Y.Context, s: S.Snapshot,
                               now: string)
    requires t != "" && id != "" && id != t
    ensures var ops := Missing(a, t, Plain(BT.SessionStarted, id), Plain(BT.SessionFailed, id), "one", "two");
            var started := S.Started(S.SessionStarted(id, None, None, None, None, None, None, None, None));
            && P.Possible(ops)
            && (Y.SnapshotOf(P.Run(ops).db, c, s) ==>
                  var q := Shown(r, s, now);
                  var end := Replayed(r, s, now, P.Run(ops).db.journal, 1, Reading(started, now));
                  && id in q.sessions && q.sessions[id].state == "failed"
                  && id in end.sessions && end.sessions[id].state == "running")
  {
    hide P.Possible, P.Run, Y.SnapshotOf, Shown, Missing, G.Replay, MissedJournal;
    var first, last := Plain(BT.SessionStarted, id), Plain(BT.SessionFailed, id);
    var ops := Missing(a, t, first, last, "one", "two");
    var started := S.Started(S.SessionStarted(id, None, None, None, None, None, None, None, None));
    AfterMissing(a, t, first, last, "one", "two");
    if Y.SnapshotOf(P.Run(ops).db, c, s) {
      EndedState(t, id, BT.SessionFailed);
      SessionAfterReconnectIff(ops, r, c, s, now, 0, Reading(started, now), id);
      ShownShows(ops, r, c, s, now, id);
      MissedEnd(Shown(r, s, now), t, first, last, started, now);
    }
  }

  /** The state that the journal determines for a session that started and ended. */
  lemma EndedState(t: string, id: string, kind: BT.Kind)
    requires id != t && (kind.SessionFailed? || kind.SessionCancelled?)
    ensures var journal := MissedJournal(t, Plain(BT.SessionStarted, id), Plain(kind, id));
            && P.SessionFromJournal(journal, id).state == (if kind.SessionFailed? then "failed" else "cancelled")
            && |P.SessionEvents(journal[..2], id)| == 1
  {
    var first, last := Plain(BT.SessionStarted, id), Plain(kind, id);
    var one, two, three := BT.Entry(1, Plain(BT.SessionWorking, t)), BT.Entry(2, first), BT.Entry(3, last);
    assert Front([one, two, three]) == [one, two] && Front([one, two]) == [one] && Front([one]) == [];
    assert P.SessionEvents([one], id) == [];
    assert P.SessionEvents([one, two], id) == [] + [first];
    assert P.SessionEvents([one, two, three], id) == [first] + [last];
    assert [one, two, three][..2] == [one, two];
    assert Last([first] + [last]) == last;
  }

  /** A session that was cancelled while the phone was away is not listed, and the replay shows it as
      running, although every version is stamped: absent records are created at any version. */
  lemma CancelledSessionRunsAgain(a: string, t: string, id: string, r: S.Replica, c: Y.Context, s: S.Snapshot,
                                  now: string)
    requires t != "" && id != "" && id != t
    ensures var ops := Missing(a, t, Plain(BT.SessionStarted, id), Plain(BT.SessionCancelled, id), "one", "two");
            var started := S.Started(S.SessionStarted(id, None, None, None, None, None, Some(2), None, None));
            && P.Possible(ops)
            && (forall k :: Stamped(P.Run(ops).db.journal, Reading(started, now), k))
            && (Y.SnapshotOf(P.Run(ops).db, c, s) ==>
                  var q := Shown(r, s, now);
                  var end := Replayed(r, s, now, P.Run(ops).db.journal, 1, Reading(started, now));
                  && id !in q.sessions
                  && id in end.sessions && end.sessions[id].state == "running")
  {
    hide P.Possible, P.Run, Y.SnapshotOf, Shown, Missing, G.Replay, MissedJournal, Stamped;
    var first, last := Plain(BT.SessionStarted, id), Plain(BT.SessionCancelled, id);
    var ops := Missing(a, t, first, last, "one", "two");
    var started := S.Started(S.SessionStarted(id, None, None, None, None, None, Some(2), None, None));
    AfterMissing(a, t, first, last, "one", "two");
    forall k ensures Stamped(P.Run(ops).db.journal, Reading(started, now), k) {
      MissedIsStamped(t, id, now, k);
    }
    if Y.SnapshotOf(P.Run(ops).db, c, s) {
      EndedState(t, id, BT.SessionCancelled);
      SessionAfterReconnectIff(ops, r, c, s, now, 0, Reading(started, now), id);
      MissedEnd(Shown(r, s, now), t, first, last, started, now);
    }
  }

  lemma MissedIsStamped(t: string, id: string, now: string, k: string)
    requires id != t
    ensures var started := S.Started(S.SessionStarted(id, None, None, None, None, None, Some(2), None, None));
            Stamped(MissedJournal(t, Plain(BT.SessionStarted, id), Plain(BT.SessionCancelled, id)),
                    Reading(started, now), k)
  {
    hide P.SessionEvents;
    EndedState(t, id, BT.SessionCancelled);
  }

  /** An approval that was decided while the phone was away is not listed, and the replay of its
      request shows it as pending again. */
  lemma DecidedApprovalPendsAgain(a: string, t: string, id: string, r: S.Replica, c: Y.Context, s: S.Snapshot,
                                  now: string)
    requires t != "" && id != ""
    ensures var payload := NoMembers.(approvalId := Some("ask"));
            var ops := Missing(a, t, BT.Event(BT.ApprovalRequested, id, BT.Members, payload),
                               BT.Event(BT.ApprovalResolved, id, BT.Members, payload), "one", "two");
            var request := S.Requested(S.ApprovalRequested("one", id, "", "", "", "", "", [], None, 1));
            && P.Possible(ops)
            && "one" in P.Run(ops).db.approvals && P.Run(ops).db.approvals["one"].state == "resolved"
            && (Y.SnapshotOf(P.Run(ops).db, c, s) ==>
                  var q := Shown(r, s, now);
                  var end := Replayed(r, s, now, P.Run(ops).db.journal, 1, Reading(request, now));
                  && "one" !in q.approvals
                  && "one" in end.approvals && end.approvals["one"].state == "pending")
  {
    hide P.Possible, P.Run, Y.SnapshotOf, Shown, Missing, G.Replay, MissedJournal, ApprovalsWith;
    var payload := NoMembers.(approvalId := Some("ask"));
    var first, last := BT.Event(BT.ApprovalRequested, id, BT.Members, payload),
        BT.Event(BT.ApprovalResolved, id, BT.Members, payload);
    var ops := Missing(a, t, first, last, "one", "two");
    var request := S.Requested(S.ApprovalRequested("one", id, "", "", "", "", "", [], None, 1));
    AfterMissing(a, t, first, last, "one", "two");
    RequestedThenResolved(id, first, last, payload);
    if Y.SnapshotOf(P.Run(ops).db, c, s) {
      ListedIsShown(r, P.Run(ops).db, c, s, now, D.ApprovalSlot("one"));
      MissedEnd(Shown(r, s, now), t, first, last, request, now);
    }
  }

  lemma RequestedThenResolved(id: string, first: BT.Event, last: BT.Event, payload: BT.Payload)
    requires payload == NoMembers.(approvalId := Some("ask"))
    requires first == BT.Event(BT.ApprovalRequested, id, BT.Members, payload)
    requires last == BT.Event(BT.ApprovalResolved, id, BT.Members, payload)
    ensures var rows := ApprovalsWith(ApprovalsWith(map[], first, "one"), last, "two");
            "one" in rows && rows["one"].state == "resolved"
  {
  }

  /** A phone whose snapshot came from an empty journal has cursor 0, and a reconnect replays nothing to
      it, whatever was journaled since. */
  lemma FirstSyncReplaysNothing(ops: seq<P.Op>, later: seq<P.Op>, r: S.Replica, c: Y.Context, s: S.Snapshot,
                                now: string)
    requires Y.SnapshotOf(P.Run(ops).db, c, s) && P.Run(ops).db.journal == []
    requires P.Possible(later)
    ensures var cursor, journal := Shown(r, s, now).lastSyncSequence, P.Run(later).db.journal;
            && G.Replay(journal, cursor) == [] && BT.RowsAfter(journal, None, cursor) == journal
  {
    hide P.Run, P.Possible, BT.RowsAfter, Y.SnapshotOf, S.Apply;
    var journal := P.Run(later).db.journal;
    Y.SnapshotShowsTables(r, P.Run(ops).db, c, s, now, "");
    JournalRises(later);
    G.AllRowsAfterZero(journal, 0);
  }

  /** So three events that are journaled after such a snapshot are all missing from the replay. */
  lemma ThreeEventsNotReplayed(a: string, t: string, id: string, r: S.Replica, c: Y.Context, s: S.Snapshot,
                               now: string)
    requires t != "" && id != "" && Y.SnapshotOf(P.Run([P.Register(a)]).db, c, s)
    ensures var later := Missing(a, t, Plain(BT.SessionStarted, id), Plain(BT.SessionFailed, id), "one", "two");
            var cursor, journal := Shown(r, s, now).lastSyncSequence, P.Run(later).db.journal;
            && P.Possible(later) && [P.Register(a)] <= later
            && G.Replay(journal, cursor) == [] && |BT.RowsAfter(journal, None, cursor)| == 3
  {
    hide P.Run, P.Possible, BT.RowsAfter, Y.SnapshotOf, Shown;
    var first, last := Plain(BT.SessionStarted, id), Plain(BT.SessionFailed, id);
    StartOf(a);
    AfterMissing(a, t, first, last, "one", "two");
    FirstSyncReplaysNothing([P.Register(a)], Missing(a, t, first, last, "one", "two"), r, c, s, now);
  }
}
