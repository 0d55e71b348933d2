/** From the bridge's journal to the phone's screen: the snapshot the gateway builds from the
    tables, and what the phone's replica holds once it has applied it. */
module BridgeSync {
  import opened Common
  import opened RequestTable
  import BT = BridgeTables
  import P = Projection
  import S = SessionStore
  import D = DeliverySafety

  /** Inputs of the snapshot query that the tables of this model do not hold: which sessions were
      updated within the last hour, each row's timestamps, and the capability block. */
  datatype Context = Context(recent: set<string>, createdAt: map<string, string>, updatedAt: map<string, string>,
                             capabilities: string)

  predicate Visible(content: BT.SessionContent, id: string, c: Context) {
    content.state != "cancelled" && (content.state != "completed" || id in c.recent)
  }

  function TimeOf(times: map<string, string>, id: string): string {
    if id in times then times[id] else ""
  }

  function SessionPayload(id: string, row: BT.SessionContent, c: Context): S.SessionCreated {
    S.SessionCreated(id, row.title, row.state, row.summary, row.currentAction, Some(0), Some(0), Some(c.capabilities),
                     row.version, TimeOf(c.createdAt, id), TimeOf(c.updatedAt, id))
  }

  /** `decisions_json` is passed on as one opaque label list. */
  function ApprovalPayload(id: string, row: Row<BT.ApprovalBody>): S.ApprovalRequested {
    S.ApprovalRequested(id, row.sessionId, row.body.category, row.body.risk, row.body.reversible, row.body.title,
                        row.body.summary, [row.body.decisions], None, row.version)
  }

  function QuestionPayload(id: string, row: Row<BT.QuestionBody>): S.QuestionRequested {
    var options := if row.body.options.Some? then Some([row.body.options.value]) else None;
    S.QuestionRequested(id, row.sessionId, row.body.prompt, options)
  }

  /** The question that the phone makes of the payload. */
  function QuestionShown(id: string, row: Row<BT.QuestionBody>): S.Question {
    var p := QuestionPayload(id, row);
    S.Question(id, p.sessionId, p.prompt, p.options, "pending")
  }

  predicate Open<B>(rows: Table<B>, id: string) {
    id in rows && rows[id].state == "pending"
  }

  ghost predicate SessionsListed(rows: map<string, BT.SessionRow>, c: Context, ps: seq<S.SessionCreated>) {
    && (forall p :: p in ps ==>
        p.id in rows && Visible(rows[p.id].content, p.id, c) && p == SessionPayload(p.id, rows[p.id].content, c))
    && (forall id :: id in rows && Visible(rows[id].content, id, c) ==> SessionPayload(id, rows[id].content, c) in ps)
  }

  ghost predicate ApprovalsListed(rows: Table<BT.ApprovalBody>, ps: seq<S.ApprovalRequested>) {
    && (forall p :: p in ps ==> Open(rows, p.id) && p == ApprovalPayload(p.id, rows[p.id]))
    && (forall id :: Open(rows, id) ==> ApprovalPayload(id, rows[id]) in ps)
  }

  ghost predicate QuestionsListed(rows: Table<BT.QuestionBody>, ps: seq<S.QuestionRequested>) {
    && (forall p :: p in ps ==> Open(rows, p.id) && p == QuestionPayload(p.id, rows[p.id]))
    && (forall id :: Open(rows, id) ==> QuestionPayload(id, rows[id]) in ps)
  }

  /** A snapshot lists exactly the visible sessions, the pending approvals and the pending
      questions, in whatever order, with the journal's last sequence as watermark. */
  ghost predicate SnapshotOf(db: BT.Tables, c: Context, s: S.Snapshot) {
    && SessionsListed(db.sessions, c, s.sessions)
    && ApprovalsListed(db.approvals, s.approvals)
    && QuestionsListed(db.questions, s.questions)
    && s.sequence == BT.LastSequence(db.journal)
  }

  /** `buildSnapshotEnvelope`: three queries and MAX(sequence). */
  method BuildSnapshot(db: BT.Database, journal: BT.EventJournal, c: Context) returns (s: S.Snapshot)
    requires journal.db == db && BT.Rising(db.journal)
    ensures SnapshotOf(db.Contents(), c, s)
  {
    hide SessionsListed, ApprovalsListed, QuestionsListed;
    var sessions := SelectSessions(db.sessions, c);
    var approvals := SelectApprovals(db.approvals);
    var questions := SelectQuestions(db.questions);
    var latest := journal.GetLatestSequence(None);
    assert db.journal != [] ==> BT.Selects(None, 0, db.journal[|db.journal| - 1]);
    s := S.Snapshot(sessions, approvals, questions, latest);
  }

  method SelectSessions(rows: map<string, BT.SessionRow>, c: Context) returns (ps: seq<S.SessionCreated>)
    ensures SessionsListed(rows, c, ps)
  {
    hide SessionPayload, Visible;
    var rest := set id | id in rows && Visible(rows[id].content, id, c);
    ghost var all := rest;
    ps := [];
    while rest != {}
      invariant rest <= all
      invariant forall p :: p in ps ==> p.id in all && p == SessionPayload(p.id, rows[p.id].content, c)
      invariant forall id :: id in all && id !in rest ==> SessionPayload(id, rows[id].content, c) in ps
    {
      var id :| id in rest;
      PayloadIds(id, rows[id].content, c);
      ps := ps + [SessionPayload(id, rows[id].content, c)];
      rest := rest - {id};
    }
  }

  lemma PayloadIds(id: string, content: BT.SessionContent, c: Context)
    ensures SessionPayload(id, content, c).id == id
  {
  }

  method SelectApprovals(rows: Table<BT.ApprovalBody>) returns (ps: seq<S.ApprovalRequested>)
    ensures ApprovalsListed(rows, ps)
  {
    var rest := set id | id in rows && rows[id].state == "pending";
    ghost var all := rest;
    ps := [];
    while rest != {}
      invariant rest <= all
      invariant forall p :: p in ps ==> p.id in all && p == ApprovalPayload(p.id, rows[p.id])
      invariant forall id :: id in all && id !in rest ==> ApprovalPayload(id, rows[id]) in ps
    {
      var id :| id in rest;
      ps := ps + [ApprovalPayload(id, rows[id])];
      rest := rest - {id};
    }
  }

  method SelectQuestions(rows: Table<BT.QuestionBody>) returns (ps: seq<S.QuestionRequested>)
    ensures QuestionsListed(rows, ps)
  {
    var rest := set id | id in rows && rows[id].state == "pending";
    ghost var all := rest;
    ps := [];
    while rest != {}
      invariant rest <= all
      invariant forall p :: p in ps ==> p.id in all && p == QuestionPayload(p.id, rows[p.id])
      invariant forall id :: id in all && id !in rest ==> QuestionPayload(id, rows[id]) in ps
    {
      var id :| id in rest;
      ps := ps + [QuestionPayload(id, rows[id])];
      rest := rest - {id};
    }
  }

  // ---------------------------------------------------------------------
  // What the phone holds afterwards
  // ---------------------------------------------------------------------

  lemma {:induction false} QuestionsLoop(ps: seq<S.QuestionRequested>, id: string)
    ensures id in S.AskAll(ps) <==> exists k :: 0 <= k < |ps| && ps[k].id == id
    ensures id in S.AskAll(ps) ==>
              exists k :: 0 <= k < |ps| && ps[k].id == id
                && S.AskAll(ps)[id] == S.Question(id, ps[k].sessionId, ps[k].prompt, ps[k].options, "pending")
  {
    if ps != [] {
      QuestionsLoop(Front(ps), id);
      assert forall j :: 0 <= j < |ps| - 1 ==> Front(ps)[j] == ps[j];
    }
  }

  lemma SessionsShown(rows: map<string, BT.SessionRow>, c: Context, ps: seq<S.SessionCreated>, id: string)
    requires SessionsListed(rows, c, ps)
    ensures var m := S.CreateAll(ps);
            && (id in m <==> id in rows && Visible(rows[id].content, id, c))
            && (id in m ==> m[id] == S.SessionOf(SessionPayload(id, rows[id].content, c)))
  {
    hide S.CreateAll, S.SessionOf, SessionPayload, Visible;
    D.SnapshotKeepsHighest(ps, id);
    var keys := D.SessionKeys(ps);
    if id in rows && Visible(rows[id].content, id, c) {
      PayloadIds(id, rows[id].content, c);
      var k :| 0 <= k < |ps| && ps[k] == SessionPayload(id, rows[id].content, c);
      assert keys[k].0 == id;
    }
    if D.Winner(keys, id).Some? {
      assert ps[D.Winner(keys, id).value] in ps && keys[D.Winner(keys, id).value].0 == id;
    }
  }

  lemma ApprovalsShown(rows: Table<BT.ApprovalBody>, ps: seq<S.ApprovalRequested>, id: string)
    requires ApprovalsListed(rows, ps)
    ensures var m := S.RequestAll(ps);
            && (id in m <==> Open(rows, id))
            && (id in m ==> m[id] == S.ApprovalOf(ApprovalPayload(id, rows[id])))
  {
    hide S.RequestAll, S.ApprovalOf;
    D.SnapshotKeepsHighestApproval(ps, id);
    var keys := D.ApprovalKeys(ps);
    if Open(rows, id) {
      var k :| 0 <= k < |ps| && ps[k] == ApprovalPayload(id, rows[id]);
      assert keys[k].0 == id;
    }
    if D.Winner(keys, id).Some? {
      assert ps[D.Winner(keys, id).value] in ps && keys[D.Winner(keys, id).value].0 == id;
    }
  }

  lemma QuestionsShown(rows: Table<BT.QuestionBody>, ps: seq<S.QuestionRequested>, id: string)
    requires QuestionsListed(rows, ps)
    ensures var m := S.AskAll(ps);
            && (id in m <==> Open(rows, id))
            && (id in m ==> m[id] == QuestionShown(id, rows[id]))
  {
    hide S.AskAll;
    QuestionsLoop(ps, id);
    if Open(rows, id) {
      var k :| 0 <= k < |ps| && ps[k] == QuestionPayload(id, rows[id]);
    }
  }

  /** After the snapshot the phone shows the tables: the visible sessions with their columns, the
      pending approvals and questions, and nothing it held before. */
  lemma SnapshotShowsTables(r: S.Replica, db: BT.Tables, c: Context, s: S.Snapshot, now: string, id: string)
    requires SnapshotOf(db, c, s)
    ensures var q := S.Apply(r, S.HostSnapshot(s), now);
            && (id in q.sessions <==> id in db.sessions && Visible(db.sessions[id].content, id, c))
            && (id in q.sessions ==> q.sessions[id] == S.SessionOf(SessionPayload(id, db.sessions[id].content, c)))
            && (id in q.approvals <==> Open(db.approvals, id))
            && (id in q.approvals ==> q.approvals[id] == S.ApprovalOf(ApprovalPayload(id, db.approvals[id])))
            && (id in q.questions <==> Open(db.questions, id))
            && (id in q.questions ==>
                  q.questions[id] == QuestionShown(id, db.questions[id]))
            && q.lastSyncSequence == BT.LastSequence(db.journal)
  {
    hide S.CreateAll, S.RequestAll, S.AskAll, S.SessionOf, S.ApprovalOf, SessionPayload, ApprovalPayload, Visible, Open,
         SessionsListed, ApprovalsListed, QuestionsListed;
    SessionsShown(db.sessions, c, s.sessions, id);
    ApprovalsShown(db.approvals, s.approvals, id);
    QuestionsShown(db.questions, s.questions, id);
  }

  /** In full: a session is listed unless it is cancelled, or completed and not updated within the hour, an
      approval and a question while they are pending, and this is what each of them shows. */
  lemma SnapshotSays(r: S.Replica, db: BT.Tables, c: Context, s: S.Snapshot, now: string, id: string)
    requires SnapshotOf(db, c, s)
    ensures var q := S.Apply(r, S.HostSnapshot(s), now);
            && (id in q.sessions <==>
                  && id in db.sessions && db.sessions[id].content.state != "cancelled"
                  && (db.sessions[id].content.state == "completed" ==> id in c.recent))
            && (id in q.sessions ==>
                  var row := db.sessions[id].content;
                  q.sessions[id] == S.Session(id, row.title, row.state, row.summary, row.currentAction, 0, 0,
                                              c.capabilities, row.version,
                                              if id in c.createdAt then c.createdAt[id] else "",
                                              if id in c.updatedAt then c.updatedAt[id] else ""))
            && (id in q.approvals <==> id in db.approvals && db.approvals[id].state == "pending")
            && (id in q.approvals ==>
                  var row := db.approvals[id];
                  q.approvals[id] == S.Approval(id, row.sessionId, row.body.category, row.body.risk,
                                                row.body.reversible, row.body.title, row.body.summary,
                                                [row.body.decisions], "pending", None, row.version))
            && (id in q.questions <==> id in db.questions && db.questions[id].state == "pending")
            && (id in q.questions ==>
                  var row := db.questions[id];
                  q.questions[id] == S.Question(id, row.sessionId, row.body.prompt,
                                                if row.body.options == None then None
                                                else Some([row.body.options.value]), "pending"))
            && q.lastSyncSequence == (if db.journal == [] then 0 else Last(db.journal).sequence)
  {
    hide SnapshotOf, S.Apply;
    SnapshotShowsTables(r, db, c, s, now, id);
  }

  predicate Shows(shown: S.Session, content: BT.SessionContent) {
    && shown.title == content.title && shown.state == content.state && shown.summary == content.summary
    && shown.currentAction == content.currentAction && shown.version == content.version
  }

  /** End to end: whatever the bridge has been through, restarts included, a phone that applies
      its snapshot shows for each session it lists the state, title, summary, current action and
      version that the journal alone determines. */
  lemma PhoneShowsJournal(ops: seq<P.Op>, r: S.Replica, c: Context, s: S.Snapshot, now: string, id: string)
    requires P.Possible(ops) && SnapshotOf(P.Run(ops).db, c, s)
    requires id in S.Apply(r, S.HostSnapshot(s), now).sessions
    ensures Shows(S.Apply(r, S.HostSnapshot(s), now).sessions[id], P.SessionFromJournal(P.Run(ops).db.journal, id))
  {
    hide P.SessionFromJournal, SnapshotOf, Visible, Open, S.Apply, P.Run, P.Possible;
    SnapshotShowsTables(r, P.Run(ops).db, c, s, now, id);
    P.SessionRowIsFold(ops, id);
  }

  /** The same for approvals: a card is shown exactly for the pending ones, and it is the journal's,
      at the version of the row. While no device has written the row the journal alone says whether
      there is a card. */
  lemma PhoneShowsPendingApprovals(ops: seq<P.Op>, r: S.Replica, c: Context, s: S.Snapshot, now: string, id: string)
    requires P.Possible(ops) && SnapshotOf(P.Run(ops).db, c, s)
    requires id in P.Run(ops).db.approvals
    ensures var row := P.Run(ops).db.approvals[id];
            var shown := S.Apply(r, S.HostSnapshot(s), now).approvals;
            var fold := P.ApprovalFromJournal(P.NamedJournal(ops), row.sessionId, row.runtimeId);
            && fold.Some?
            && (id in shown <==> row.state == "pending")
            && (id in shown ==> shown[id] == S.ApprovalOf(ApprovalPayload(id, fold.value.(version := row.version))))
            && (row.resolvedBy == None ==> row == fold.value)
  {
    hide P.ApprovalFromJournal, SnapshotOf, S.ApprovalOf, P.NamedJournal, P.Run;
    var row := P.Run(ops).db.approvals[id];
    SnapshotShowsTables(r, P.Run(ops).db, c, s, now, id);
    P.ApprovalRowIsFold(ops, row.sessionId, row.runtimeId, id);
    var journal := P.NamedJournal(ops);
    var k := ApprovalWasRequested(journal, row.sessionId, row.runtimeId);
  }

  /** The card a user sees for one request event of the runtime, which may leave the id to the bridge. */
  predicate CardOf(shown: S.Approval, id: string, r: string, e: BT.Event) {
    var p := e.payload;
    && e.kind.ApprovalRequested? && Coalesce(p.approvalId, r) == r
    && shown.id == id && shown.sessionId == e.sessionId && shown.state == "pending"
    && shown.category == Coalesce(p.category, "unknown") && shown.risk == Coalesce(p.risk, "unknown")
    && shown.reversible == Coalesce(p.reversible, "unknown")
    && shown.title == Coalesce(p.title, "") && shown.summary == Coalesce(p.summary, "")
    && shown.decisions == [Coalesce(p.decisions, "[]")]
  }

  /** A row that the journal determines was asked for by some journaled request. */
  lemma ApprovalWasRequested(journal: seq<BT.Entry>, s: string, r: string) returns (k: nat)
    requires P.ApprovalFromJournal(journal, s, r).Some?
    ensures var row := P.ApprovalFromJournal(journal, s, r).value;
            && k < |journal| && row.sessionId == s && row.runtimeId == r
            && P.ApprovalChange(journal[k].event) == Request(s, r, row.body)
  {
    hide P.ApprovalChange;
    var changes := P.ApprovalChanges(journal);
    P.ChangesAreEntries(journal);
    BodyWasRequested(changes, s, r);
    k :| 0 <= k < |changes| && Requests(changes[k], s, r) && changes[k].body == Fold(changes, s, r).value.body;
  }

  lemma QuestionWasRequested(journal: seq<BT.Entry>, s: string, r: string) returns (k: nat)
    requires P.QuestionFromJournal(journal, s, r).Some?
    ensures var row := P.QuestionFromJournal(journal, s, r).value;
            && k < |journal| && row.sessionId == s && row.runtimeId == r
            && P.QuestionChange(journal[k].event) == Request(s, r, row.body)
  {
    hide P.QuestionChange;
    var changes := P.QuestionChanges(journal);
    P.ChangesAreEntries(journal);
    BodyWasRequested(changes, s, r);
    k :| 0 <= k < |changes| && Requests(changes[k], s, r) && changes[k].body == Fold(changes, s, r).value.body;
  }

  lemma CardSaysRequest(id: string, row: Row<BT.ApprovalBody>, e: BT.Event)
    requires P.ApprovalChange(e) == Request(row.sessionId, row.runtimeId, row.body)
    ensures CardOf(S.ApprovalOf(ApprovalPayload(id, row)), id, row.runtimeId, e)
  {
  }

  lemma UnnamedCard(shown: S.Approval, id: string, r: string, entry: BT.Entry, named: BT.Entry, madeUp: set<string>)
    requires P.SameButName(entry, named, madeUp) && CardOf(shown, id, r, named.event)
    ensures CardOf(shown, id, r, entry.event)
  {
  }

  /** A card that is shown says what a journaled request of the runtime asked, field by field. */
  lemma PhoneShowsRequest(ops: seq<P.Op>, r: S.Replica, c: Context, s: S.Snapshot, now: string, id: string)
    requires P.Possible(ops) && SnapshotOf(P.Run(ops).db, c, s)
    requires id in S.Apply(r, S.HostSnapshot(s), now).approvals
    ensures var shown := S.Apply(r, S.HostSnapshot(s), now).approvals[id];
            var db := P.Run(ops).db;
            && id in db.approvals
            && exists k :: 0 <= k < |db.journal| && CardOf(shown, id, db.approvals[id].runtimeId, db.journal[k].event)
  {
    hide SnapshotOf, P.Possible, P.Run, P.MadeUp, P.NamedJournal, P.SameButName, S.Apply, P.ApprovalFromJournal,
        P.ApprovalChange, S.ApprovalOf, ApprovalPayload, CardOf;
    var journal, named := P.Run(ops).db.journal, P.NamedJournal(ops);
    SnapshotShowsTables(r, P.Run(ops).db, c, s, now, id);
    var row := P.Run(ops).db.approvals[id];
    P.ApprovalRowIsFold(ops, row.sessionId, row.runtimeId, id);
    P.NamesOnly(ops);
    var k := ApprovalWasRequested(named, row.sessionId, row.runtimeId);
    CardSaysRequest(id, row, named[k].event);
    var shown := S.Apply(r, S.HostSnapshot(s), now).approvals[id];
    UnnamedCard(shown, id, row.runtimeId, journal[k], named[k], P.MadeUp(ops));
  }

  /** The question a user sees for one request event of the runtime. */
  predicate QuestionOf(shown: S.Question, id: string, s: string, r: string, e: BT.Event) {
    var p := e.payload;
    && e.kind.QuestionRequested? && e.sessionId == s && Coalesce(p.questionId, r) == r
    && shown.id == id && shown.sessionId == s && shown.state == "pending"
    && shown.prompt == Coalesce(p.prompt, "")
    && shown.options == if p.options.Some? then Some([p.options.value]) else None
  }

  lemma QuestionSaysRequest(id: string, row: Row<BT.QuestionBody>, e: BT.Event)
    requires P.QuestionChange(e) == Request(row.sessionId, row.runtimeId, row.body)
    ensures QuestionOf(QuestionShown(id, row), id, row.sessionId, row.runtimeId, e)
  {
  }

  lemma UnnamedQuestion(shown: S.Question, id: string, s: string, r: string, entry: BT.Entry, named: BT.Entry,
                        madeUp: set<string>)
    requires P.SameButName(entry, named, madeUp) && QuestionOf(shown, id, s, r, named.event)
    ensures QuestionOf(shown, id, s, r, entry.event)
  {
  }

  /** The same for questions, which are shown exactly while they are pending. */
  lemma PhoneShowsQuestion(ops: seq<P.Op>, r: S.Replica, c: Context, s: S.Snapshot, now: string, id: string)
    requires P.Possible(ops) && SnapshotOf(P.Run(ops).db, c, s)
    requires id in P.Run(ops).db.questions
    ensures var row, journal := P.Run(ops).db.questions[id], P.Run(ops).db.journal;
            var shown := S.Apply(r, S.HostSnapshot(s), now).questions;
            && (id in shown <==> row.state == "pending")
            && (id in shown ==>
                  exists k :: 0 <= k < |journal|
                      && QuestionOf(shown[id], id, row.sessionId, row.runtimeId, journal[k].event))
  {
    hide SnapshotOf, P.Possible, P.Run, P.MadeUp, P.NamedJournal, P.SameButName, S.Apply, P.QuestionFromJournal,
        P.QuestionChange, QuestionPayload, QuestionOf;
    var row, journal, named := P.Run(ops).db.questions[id], P.Run(ops).db.journal, P.NamedJournal(ops);
    SnapshotShowsTables(r, P.Run(ops).db, c, s, now, id);
    P.QuestionRowIsFold(ops, id);
    P.NamesOnly(ops);
    var k := QuestionWasRequested(named, row.sessionId, row.runtimeId);
    var shown := QuestionShown(id, row);
    QuestionSaysRequest(id, row, named[k].event);
    UnnamedQuestion(shown, id, row.sessionId, row.runtimeId, journal[k], named[k], P.MadeUp(ops));
  }
}
