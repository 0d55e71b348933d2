/** In every reachable state of the bridge the tables are what the journal alone says they are. */
module Projection {
  import opened Common
  import opened RequestTable
  import opened BridgeTables
  import opened ApprovalCas
  import opened AdapterManager

  // ---------------------------------------------------------------------
  // What the journal says
  // ---------------------------------------------------------------------

  predicate Writes(e: Event, s: string) {
    e.sessionId == s && Effective(e)
  }

  /** The journaled events that write the row of session `s`. */
  function SessionEvents(journal: seq<Entry>, s: string): seq<Event> {
    if journal == [] then []
    else SessionEvents(Front(journal), s) + (if Writes(Last(journal).event, s) then [Last(journal).event] else [])
  }

  function LastState(es: seq<Event>): string {
    if es == [] then InitialSession.state
    else if StateFor(Last(es)).Some? then StateFor(Last(es)).value
    else LastState(Front(es))
  }

  function LastTitle(es: seq<Event>): string {
    if es == [] then InitialSession.title
    else if Last(es).payload.title.Some? then Last(es).payload.title.value
    else LastTitle(Front(es))
  }

  function LastSummary(es: seq<Event>): string {
    if es == [] then InitialSession.summary
    else if Last(es).payload.summary.Some? then Last(es).payload.summary.value
    else LastSummary(Front(es))
  }

  function LastAction(es: seq<Event>): Option<string> {
    if es == [] then InitialSession.currentAction
    else if ActionFor(Last(es)).Some? then ActionFor(Last(es))
    else LastAction(Front(es))
  }

  /** Each column is the last value an effective event gave it, and the version counts them. */
  function SessionFromJournal(journal: seq<Entry>, s: string): SessionContent {
    var es := SessionEvents(journal, s);
    SessionContent(LastTitle(es), LastState(es), LastSummary(es), LastAction(es), 1 + |es|)
  }

  function ApprovalChange(e: Event): Change<ApprovalBody> {
    if !e.shape.Members? then Nothing
    else if e.kind.ApprovalRequested? && e.payload.approvalId.Some? then
      Request(e.sessionId, e.payload.approvalId.value, ApprovalBodyOf(e.payload))
    else if e.kind.ApprovalResolved? then
      Answer(e.sessionId, Coalesce(e.payload.approvalId, ""), Coalesce(e.payload.decision, "resolved"), None)
    else Nothing
  }

  function ApprovalChanges(journal: seq<Entry>): seq<Change<ApprovalBody>> {
    if journal == [] then [] else ApprovalChanges(Front(journal)) + [ApprovalChange(Last(journal).event)]
  }

  function ApprovalFromJournal(journal: seq<Entry>, s: string, r: string): Option<Row<ApprovalBody>> {
    Fold(ApprovalChanges(journal), s, r)
  }

  function QuestionChange(e: Event): Change<QuestionBody> {
    if !e.shape.Members? then Nothing
    else if e.kind.QuestionRequested? && e.payload.questionId.Some? then
      Request(e.sessionId, e.payload.questionId.value, QuestionBodyOf(e.payload))
    else if e.kind.QuestionAnswered? then
      Answer(e.sessionId, Coalesce(e.payload.questionId, ""), "answered", e.payload.answer)
    else Nothing
  }

  function QuestionChanges(journal: seq<Entry>): seq<Change<QuestionBody>> {
    if journal == [] then [] else QuestionChanges(Front(journal)) + [QuestionChange(Last(journal).event)]
  }

  function QuestionFromJournal(journal: seq<Entry>, s: string, r: string): Option<Row<QuestionBody>> {
    Fold(QuestionChanges(journal), s, r)
  }

  /** Change for change, these are the journal's entries. */
  lemma {:induction false} ChangesAreEntries(journal: seq<Entry>)
    ensures |ApprovalChanges(journal)| == |QuestionChanges(journal)| == |journal|
    ensures forall i :: 0 <= i < |journal| ==> ApprovalChanges(journal)[i] == ApprovalChange(journal[i].event)
    ensures forall i :: 0 <= i < |journal| ==> QuestionChanges(journal)[i] == QuestionChange(journal[i].event)
  {
    hide ApprovalChange, QuestionChange;
    if journal != [] {
      ChangesAreEntries(Front(journal));
    }
  }

  // ---------------------------------------------------------------------
  // Runs of the bridge
  // ---------------------------------------------------------------------

  datatype Op =
    | Handle(adapter: string, e: Event, rowId: string, runtimeId: string)
    | RecordStart(s: string, adapter: string)     // recordSessionStart, after command/start
    | Register(adapter: string)
    | Restart                                     // the process memory is lost, the database is not
    | DeviceResolve(attempt: Attempt)             // ApprovalService.resolve, which journals nothing

  function Step(b: Bridge, op: Op): Bridge {
    match op
    case Handle(adapter, e, rowId, runtimeId) => HandleEvent(b, adapter, e, rowId, runtimeId, false).0
    case RecordStart(s, adapter) => Coalesce(EnsureSession(b, s, adapter), b)
    case Register(adapter) => b.(adapters := b.adapters + {adapter})
    case Restart => b.(adapters := {}, known := map[])
    case DeviceResolve(a) => b.(db := b.db.(approvals := AtomicResolve(b.db.approvals, a).0))
  }

  function Run(ops: seq<Op>): Bridge {
    if ops == [] then Empty else Step(Run(Front(ops)), Last(ops))
  }

  /** Row ids are random UUIDs, never used before. */
  ghost predicate Fresh(b: Bridge, op: Op) {
    op.Handle? ==> op.rowId !in b.db.approvals && op.rowId !in b.db.questions
  }

  ghost predicate Possible(ops: seq<Op>) {
    ops != [] ==> Possible(Front(ops)) && Fresh(Run(Front(ops)), Last(ops))
  }

  /** Does the event ask for something without naming it? */
  predicate Nameless(e: Event) {
    || (e.kind.ApprovalRequested? && e.payload.approvalId.None?)
    || (e.kind.QuestionRequested? && e.payload.questionId.None?)
  }

  /** The event with the runtime id that the bridge makes up for a nameless request. */
  function Named(e: Event, runtimeId: string): Event {
    if !Nameless(e) then e
    else if e.kind.ApprovalRequested? then e.(payload := e.payload.(approvalId := Some(runtimeId)))
    else e.(payload := e.payload.(questionId := Some(runtimeId)))
  }

  /** The journal with these names in it. The journal itself does not hold them, and only nameless
      requests differ. */
  function NamedJournal(ops: seq<Op>): seq<Entry> {
    if ops == [] then []
    else NamedJournal(Front(ops)) + NamedEntry(Run(Front(ops)).db, Last(ops), Run(ops).db)
  }

  function NamedEntry(before: Tables, op: Op, after: Tables): seq<Entry> {
    if op.Handle? && |after.journal| > |before.journal| then [Entry(after.counter, Named(op.e, op.runtimeId))] else []
  }

  /** The ids that were made up. */
  function MadeUp(ops: seq<Op>): set<string> {
    if ops == [] then {}
    else MadeUp(Front(ops)) + (if Last(ops).Handle? && Nameless(Last(ops).e) then {Last(ops).runtimeId} else {})
  }

  // ---------------------------------------------------------------------
  // The invariant
  // ---------------------------------------------------------------------

  ghost predicate JournalSound(b: Bridge) {
    && Numbered(b.db)
    && b.known.Keys <= b.db.sessions.Keys
    && forall i :: 0 <= i < |b.db.journal| ==> b.db.journal[i].event.sessionId in b.db.sessions
  }

  ghost predicate SessionsProjected(db: Tables) {
    forall s :: s in db.sessions ==> db.sessions[s].content == SessionFromJournal(db.journal, s)
  }

  ghost predicate ApprovalsProjected(t: Table<ApprovalBody>, named: seq<Entry>) {
    && UniqueKeys(t)
    && forall s, r :: Agrees(t, ApprovalFromJournal(named, s, r), s, r)
  }

  ghost predicate QuestionsProjected(t: Table<QuestionBody>, named: seq<Entry>) {
    && UniqueKeys(t)
    && (forall s, r :: Agrees(t, QuestionFromJournal(named, s, r), s, r))
    && forall id :: id in t ==> t[id].resolvedBy == None
  }

  /** Session rows are the fold of the journal, approvals and questions that of the named journal. */
  ghost predicate Projected(b: Bridge, named: seq<Entry>) {
    && JournalSound(b)
    && SessionsProjected(b.db)
    && ApprovalsProjected(b.db.approvals, named)
    && QuestionsProjected(b.db.questions, named)
  }

  lemma {:induction false} NoEventsYet(journal: seq<Entry>, s: string)
    requires forall i :: 0 <= i < |journal| ==> journal[i].event.sessionId != s
    ensures SessionEvents(journal, s) == []
  {
    if journal != [] {
      NoEventsYet(Front(journal), s);
    }
  }

  lemma EnsureKeeps(b: Bridge, s: string, adapter: string, named: seq<Entry>)
    requires Projected(b, named) && EnsureSession(b, s, adapter).Some?
    ensures Projected(EnsureSession(b, s, adapter).value, named)
    ensures s in EnsureSession(b, s, adapter).value.db.sessions
  {
    hide SessionFromJournal, Agrees, UniqueKeys, ApprovalFromJournal, QuestionFromJournal;
    if s !in b.db.sessions {
      NewSessionIsInitial(b.db.journal, s);
    }
  }

  lemma NewSessionIsInitial(journal: seq<Entry>, s: string)
    requires forall i :: 0 <= i < |journal| ==> journal[i].event.sessionId != s
    ensures SessionFromJournal(journal, s) == InitialSession
  {
    NoEventsYet(journal, s);
  }

  /** One more entry updates the fold as the UPDATE statement updates the row. */
  lemma SessionFoldStep(journal: seq<Entry>, e: Event, sequence: nat, s: string)
    ensures SessionFromJournal(journal + [Entry(sequence, e)], s)
         == if Writes(e, s) then Updated(SessionFromJournal(journal, s), e) else SessionFromJournal(journal, s)
  {
    hide Writes, StateFor, ActionFor;
    assert Front(journal + [Entry(sequence, e)]) == journal;
    var es := SessionEvents(journal, s);
    assert es + [] == es;
    assert Front(es + [e]) == es && Last(es + [e]) == e;
  }

  /** What projecting an event does to each table. */
  lemma ProjectParts(db: Tables, e: Event, rowId: string, runtimeId: string)
    ensures var u := Coalesce(Project(db, e, rowId, runtimeId), db);
            var p, given := e.payload, e.shape.Members?;
            && u.journal == db.journal && u.counter == db.counter
            && u.sessions == (if Effective(e) && e.sessionId in db.sessions then Rewritten(db.sessions, e)
                              else db.sessions)
            && u.approvals == (if given && e.kind.ApprovalRequested?
                               then Coalesce(Insert(db.approvals, rowId, e.sessionId,
                                                    Coalesce(p.approvalId, runtimeId), ApprovalBodyOf(p)), db.approvals)
                               else if given && e.kind.ApprovalResolved?
                               then Settle(db.approvals, e.sessionId, Coalesce(p.approvalId, ""),
                                           Coalesce(p.decision, "resolved"), None)
                               else db.approvals)
            && u.questions == (if given && e.kind.QuestionRequested?
                               then Coalesce(Insert(db.questions, rowId, e.sessionId,
                                                    Coalesce(p.questionId, runtimeId), QuestionBodyOf(p)), db.questions)
                               else if given && e.kind.QuestionAnswered?
                               then Settle(db.questions, e.sessionId, Coalesce(p.questionId, ""), "answered", p.answer)
                               else db.questions)
  {
    hide Insert, Settle, Updated;
  }

  lemma SessionsKept(db: Tables, e: Event, rowId: string, runtimeId: string)
    requires SessionsProjected(db) && e.sessionId in db.sessions
    ensures var j := WithRow(db, e);
            SessionsProjected(Coalesce(Project(j, e, rowId, runtimeId), j))
  {
    hide Project, SessionFromJournal, Updated, Effective;
    var j := WithRow(db, e);
    ProjectParts(j, e, rowId, runtimeId);
    forall s | s in db.sessions
      ensures SessionFromJournal(j.journal, s)
           == if s == e.sessionId && Effective(e) then Updated(db.sessions[s].content, e) else db.sessions[s].content
    {
      SessionFoldStep(db.journal, e, db.counter + 1, s);
    }
  }

  lemma ApprovalsKept(db: Tables, e: Event, rowId: string, runtimeId: string, named: seq<Entry>)
    requires ApprovalsProjected(db.approvals, named) && rowId !in db.approvals
    ensures ApprovalsProjected(Coalesce(Project(db, e, rowId, runtimeId), db).approvals,
                               named + [Entry(db.counter, Named(e, runtimeId))])
  {
    hide Project, Insert, Settle, Agrees, UniqueKeys, Effective, ApprovalBodyOf;
    var later := named + [Entry(db.counter, Named(e, runtimeId))];
    assert Front(later) == named && Last(later).event == Named(e, runtimeId);
    ProjectParts(db, e, rowId, runtimeId);
    NamedBodies(e, runtimeId);
    var u := Coalesce(Project(db, e, rowId, runtimeId), db).approvals;
    var changes, change := ApprovalChanges(named), ApprovalChange(Named(e, runtimeId));
    assert Front(changes + [change]) == changes;
    var p := e.payload;
    var key, r, state := Coalesce(p.approvalId, runtimeId), Coalesce(p.approvalId, ""),
        Coalesce(p.decision, "resolved");
    forall s', r' ensures Agrees(u, ApprovalFromJournal(later, s', r'), s', r') {
      assert Agrees(db.approvals, ApprovalFromJournal(named, s', r'), s', r');
      var row := Fold(changes, s', r');
      InsertAgrees(db.approvals, rowId, e.sessionId, key, ApprovalBodyOf(p), row, s', r');
      SettleAgrees(db.approvals, e.sessionId, r, state, None, row, s', r');
    }
    InsertUnique(db.approvals, rowId, e.sessionId, key, ApprovalBodyOf(p));
    SettleUnique(db.approvals, e.sessionId, r, state, None);
  }

  lemma NamedBodies(e: Event, runtimeId: string)
    ensures var p := Named(e, runtimeId).payload;
            ApprovalBodyOf(p) == ApprovalBodyOf(e.payload) && QuestionBodyOf(p) == QuestionBodyOf(e.payload)
  {
  }

  lemma QuestionsKept(db: Tables, e: Event, rowId: string, runtimeId: string, named: seq<Entry>)
    requires QuestionsProjected(db.questions, named) && rowId !in db.questions
    ensures QuestionsProjected(Coalesce(Project(db, e, rowId, runtimeId), db).questions,
                               named + [Entry(db.counter, Named(e, runtimeId))])
  {
    hide Project, Insert, Settle, Agrees, UniqueKeys, Effective, QuestionBodyOf;
    var later := named + [Entry(db.counter, Named(e, runtimeId))];
    assert Front(later) == named && Last(later).event == Named(e, runtimeId);
    ProjectParts(db, e, rowId, runtimeId);
    NamedBodies(e, runtimeId);
    var u := Coalesce(Project(db, e, rowId, runtimeId), db).questions;
    var changes, change := QuestionChanges(named), QuestionChange(Named(e, runtimeId));
    assert Front(changes + [change]) == changes;
    var p := e.payload;
    var key, r := Coalesce(p.questionId, runtimeId), Coalesce(p.questionId, "");
    forall s', r' ensures Agrees(u, QuestionFromJournal(later, s', r'), s', r') {
      assert Agrees(db.questions, QuestionFromJournal(named, s', r'), s', r');
      var row := Fold(changes, s', r');
      InsertAgrees(db.questions, rowId, e.sessionId, key, QuestionBodyOf(p), row, s', r');
      SettleAgrees(db.questions, e.sessionId, r, "answered", p.answer, row, s', r');
    }
    InsertUnique(db.questions, rowId, e.sessionId, key, QuestionBodyOf(p));
    SettleUnique(db.questions, e.sessionId, r, "answered", p.answer);
    NoDevice(db.questions, rowId, e.sessionId, key, QuestionBodyOf(p), r, p.answer);
  }

  lemma NoDevice<B>(t: Table<B>, id: string, s: string, key: string, body: B, r: string, answer: Option<string>)
    requires forall id :: id in t ==> t[id].resolvedBy == None
    ensures var u := Coalesce(Insert(t, id, s, key, body), t); forall id :: id in u ==> u[id].resolvedBy == None
    ensures var u := Settle(t, s, r, "answered", answer); forall id :: id in u ==> u[id].resolvedBy == None
  {
  }

  lemma DeviceKeeps(t: Table<ApprovalBody>, a: Attempt, named: seq<Entry>)
    requires ApprovalsProjected(t, named)
    ensures ApprovalsProjected(AtomicResolve(t, a).0, named)
  {
    hide ApprovalFromJournal;
    var u := AtomicResolve(t, a).0;
    assert forall id :: id in t ==> id in u && u[id].sessionId == t[id].sessionId && u[id].runtimeId == t[id].runtimeId;
    forall s, r ensures Agrees(u, ApprovalFromJournal(named, s, r), s, r) {
      assert Agrees(t, ApprovalFromJournal(named, s, r), s, r);
      assert Has(u, s, r) <==> Has(t, s, r);
    }
  }

  lemma HandleKeeps(b: Bridge, op: Op, named: seq<Entry>)
    requires op.Handle? && Projected(b, named) && Fresh(b, op)
    ensures Projected(Step(b, op), named + NamedEntry(b.db, op, Step(b, op).db))
  {
    hide Project, SessionsProjected, ApprovalsProjected, QuestionsProjected, Named, EnsureSession;
    var e := op.e;
    assert named + [] == named;
    var ensured := if e.sessionId == "" then Some(b) else EnsureSession(b, e.sessionId, op.adapter);
    if ensured.Some? {
      var c := ensured.value;
      if e.sessionId != "" {
        EnsureKeeps(b, e.sessionId, op.adapter, named);
        EnsureOnlySessions(b, e.sessionId, op.adapter);
      }
      if e.shape.UndefinedPayload? {
        NumberSkipped(c, named);
        NoPayloadNoEffect(c.db.(counter := c.db.counter + 1), e, op.rowId, op.runtimeId);
      } else if e.sessionId in c.db.sessions && !e.shape.Unserializable? {
        JournaledKeeps(c, e, op.rowId, op.runtimeId, named);
      }
    }
  }

  lemma NoPayloadNoEffect(db: Tables, e: Event, rowId: string, runtimeId: string)
    requires !e.shape.Members?
    ensures Coalesce(Project(db, e, rowId, runtimeId), db) == db
  {
  }

  lemma NumberSkipped(c: Bridge, named: seq<Entry>)
    requires Projected(c, named)
    ensures Projected(c.(db := c.db.(counter := c.db.counter + 1)), named)
  {
  }

  lemma JournaledKeeps(c: Bridge, e: Event, rowId: string, runtimeId: string, named: seq<Entry>)
    requires Projected(c, named) && rowId !in c.db.approvals && rowId !in c.db.questions
    requires e.sessionId in c.db.sessions
    ensures var j := WithRow(c.db, e);
            var u := Coalesce(Project(j, e, rowId, runtimeId), j);
            && Projected(c.(db := u), named + [Entry(u.counter, Named(e, runtimeId))])
            && u.counter == j.counter && u.journal == j.journal
  {
    hide Project, SessionsProjected, ApprovalsProjected, QuestionsProjected, Named;
    var j := WithRow(c.db, e);
    SessionsKept(c.db, e, rowId, runtimeId);
    ApprovalsKept(j, e, rowId, runtimeId, named);
    QuestionsKept(j, e, rowId, runtimeId, named);
    ProjectParts(j, e, rowId, runtimeId);
  }

  lemma EnsureOnlySessions(b: Bridge, s: string, adapter: string)
    requires EnsureSession(b, s, adapter).Some?
    ensures var c := EnsureSession(b, s, adapter).value;
            && c.db.journal == b.db.journal && c.db.counter == b.db.counter
            && c.db.approvals == b.db.approvals && c.db.questions == b.db.questions
            && forall t :: t in b.db.sessions ==>
                 t in c.db.sessions && c.db.sessions[t].content == b.db.sessions[t].content
  {
  }

  /** Every reachable state, restarts included. */
  lemma {:induction false} EveryRunIsProjected(ops: seq<Op>)
    requires Possible(ops)
    ensures Projected(Run(ops), NamedJournal(ops))
  {
    hide SessionsProjected, ApprovalsProjected, QuestionsProjected, HandleEvent, EnsureSession, Named;
    if ops == [] {
      StartIsProjected();
    } else {
      EveryRunIsProjected(Front(ops));
      var b, named := Run(Front(ops)), NamedJournal(Front(ops));
      assert named + [] == named;
      match Last(ops) {
        case Handle(_, _, _, _) => HandleKeeps(b, Last(ops), named);
        case RecordStart(s, adapter) =>
          if EnsureSession(b, s, adapter).Some? {
            EnsureKeeps(b, s, adapter, named);
          }
        case DeviceResolve(a) =>
          DeviceKeeps(b.db.approvals, a, named);
          OnlyApprovals(b.db, AtomicResolve(b.db.approvals, a).0);
        case Register(adapter) =>
        case Restart =>
      }
    }
  }

  lemma StartIsProjected()
    ensures Projected(Empty, [])
  {
  }

  lemma OnlyApprovals(db: Tables, t: Table<ApprovalBody>)
    requires SessionsProjected(db)
    ensures SessionsProjected(db.(approvals := t))
  {
  }

  /** The named journal is the journal, row by row, except for the names of nameless requests. */
  lemma {:induction false} NamesOnly(ops: seq<Op>)
    requires Possible(ops)
    ensures SameButNames(Run(ops).db.journal, NamedJournal(ops), MadeUp(ops))
  {
    hide HandleEvent, SameButName, Nameless, Named, Projected;
    if ops != [] {
      NamesOnly(Front(ops));
      MoreNames(Run(Front(ops)).db.journal, NamedJournal(Front(ops)), MadeUp(Front(ops)), MadeUp(ops));
      if Last(ops).Handle? {
        EveryRunIsProjected(Front(ops));
        NewEntry(Run(Front(ops)), Last(ops), NamedJournal(Front(ops)), MadeUp(ops));
      } else {
        OthersKeepJournal(Run(Front(ops)), Last(ops));
      }
    }
  }

  ghost predicate SameButName(entry: Entry, named: Entry, madeUp: set<string>) {
    || named == entry
    || (&& Nameless(entry.event)
        && exists name :: name in madeUp && named == Entry(entry.sequence, Named(entry.event, name)))
  }

  ghost predicate SameButNames(journal: seq<Entry>, named: seq<Entry>, madeUp: set<string>) {
    |named| == |journal| && forall i :: 0 <= i < |journal| ==> SameButName(journal[i], named[i], madeUp)
  }

  lemma MoreNames(journal: seq<Entry>, named: seq<Entry>, madeUp: set<string>, more: set<string>)
    requires SameButNames(journal, named, madeUp) && madeUp <= more
    ensures SameButNames(journal, named, more)
  {
    hide Nameless, Named;
  }

  lemma NewEntry(b: Bridge, op: Op, named: seq<Entry>, madeUp: set<string>)
    requires op.Handle? && Projected(b, named) && Fresh(b, op) && (Nameless(op.e) ==> op.runtimeId in madeUp)
    ensures var d := Step(b, op);
            var more := NamedEntry(b.db, op, d.db);
            || (d.db.journal == b.db.journal && more == [])
            || (|more| == 1 && d.db.journal == b.db.journal + [Entry(d.db.counter, op.e)]
                && SameButName(Entry(d.db.counter, op.e), more[0], madeUp))
  {
    hide HandleEvent, Projected;
    Steps(b, op, false, named);
    hide Stepped;
  }

  lemma OthersKeepJournal(b: Bridge, op: Op)
    requires !op.Handle?
    ensures Step(b, op).db.journal == b.db.journal
  {
  }

  // ---------------------------------------------------------------------
  // What follows for the rows
  // ---------------------------------------------------------------------

  /** Each session row is the fold of its session's journal, and its version is one more than
      the number of events that wrote it. */
  lemma SessionRowIsFold(ops: seq<Op>, s: string)
    requires Possible(ops) && s in Run(ops).db.sessions
    ensures var db := Run(ops).db;
            && db.sessions[s].content == SessionFromJournal(db.journal, s)
            && db.sessions[s].content.version == 1 + |SessionEvents(db.journal, s)|
  {
    hide Agrees, UniqueKeys;
    EveryRunIsProjected(ops);
  }

  /** Each approval key has a row exactly when its request was journaled. The row says what was asked
      there, and equals the fold exactly when no device wrote it. For a key whose id the bridge did not
      make up, all this is in the journal alone. */
  lemma ApprovalRowIsFold(ops: seq<Op>, s: string, r: string, id: string)
    requires Possible(ops)
    ensures var db := Run(ops).db;
            var fold := ApprovalFromJournal(NamedJournal(ops), s, r);
            && (Has(db.approvals, s, r) <==> fold.Some?)
            && (id in db.approvals && db.approvals[id].sessionId == s && db.approvals[id].runtimeId == r ==>
                  && fold.Some? && fold.value.body == db.approvals[id].body
                  && (fold == Some(db.approvals[id]) <==> db.approvals[id].resolvedBy == None))
            && (r !in MadeUp(ops) ==> fold == ApprovalFromJournal(db.journal, s, r))
  {
    hide UniqueKeys, ApprovalFromJournal, QuestionFromJournal, SessionFromJournal, SameButNames;
    EveryRunIsProjected(ops);
    var db := Run(ops).db;
    assert Agrees(db.approvals, ApprovalFromJournal(NamedJournal(ops), s, r), s, r);
    NamesOnly(ops);
    if r !in MadeUp(ops) {
      SameFolds(db.journal, NamedJournal(ops), MadeUp(ops), s, r);
    }
  }

  /** Questions have no device-side writer in the bridge, so their rows always equal the fold. */
  lemma QuestionRowIsFold(ops: seq<Op>, id: string)
    requires Possible(ops) && id in Run(ops).db.questions
    ensures var db := Run(ops).db;
            var row := db.questions[id];
            && QuestionFromJournal(NamedJournal(ops), row.sessionId, row.runtimeId) == Some(row)
            && (row.runtimeId !in MadeUp(ops) ==>
                  QuestionFromJournal(db.journal, row.sessionId, row.runtimeId) == Some(row))
  {
    hide UniqueKeys, ApprovalFromJournal, QuestionFromJournal, SessionFromJournal, SameButNames;
    EveryRunIsProjected(ops);
    var db := Run(ops).db;
    var row := db.questions[id];
    assert Agrees(db.questions, QuestionFromJournal(NamedJournal(ops), row.sessionId, row.runtimeId), row.sessionId,
                  row.runtimeId);
    assert Has(db.questions, row.sessionId, row.runtimeId);
    NamesOnly(ops);
    if row.runtimeId !in MadeUp(ops) {
      SameFolds(db.journal, NamedJournal(ops), MadeUp(ops), row.sessionId, row.runtimeId);
    }
  }

  /** Under an id that was not made up, names make no difference. */
  lemma {:induction false} SameFolds(journal: seq<Entry>, named: seq<Entry>, madeUp: set<string>, s: string, r: string)
    requires SameButNames(journal, named, madeUp) && r !in madeUp
    ensures ApprovalFromJournal(named, s, r) == ApprovalFromJournal(journal, s, r)
    ensures QuestionFromJournal(named, s, r) == QuestionFromJournal(journal, s, r)
  {
    hide SameButNames, SameButName, ApprovalChange, QuestionChange, RequestTable.Apply;
    SameButNamesFront(journal, named, madeUp);
    if journal != [] {
      SameFolds(Front(journal), Front(named), madeUp, s, r);
      FoldsSnoc(journal, s, r);
      FoldsSnoc(named, s, r);
      var row, asked := ApprovalFromJournal(Front(journal), s, r), QuestionFromJournal(Front(journal), s, r);
      SameApply(Last(journal), Last(named), madeUp, row, asked, s, r);
    }
  }

  lemma SameButNamesFront(journal: seq<Entry>, named: seq<Entry>, madeUp: set<string>)
    requires SameButNames(journal, named, madeUp)
    ensures |named| == |journal|
    ensures journal != [] ==>
              SameButNames(Front(journal), Front(named), madeUp) && SameButName(Last(journal), Last(named), madeUp)
  {
  }

  lemma FoldsSnoc(journal: seq<Entry>, s: string, r: string)
    requires journal != []
    ensures ApprovalFromJournal(journal, s, r)
         == RequestTable.Apply(ApprovalFromJournal(Front(journal), s, r), ApprovalChange(Last(journal).event), s, r)
    ensures QuestionFromJournal(journal, s, r)
         == RequestTable.Apply(QuestionFromJournal(Front(journal), s, r), QuestionChange(Last(journal).event), s, r)
  {
    var changes, asked := ApprovalChanges(Front(journal)), QuestionChanges(Front(journal));
    assert Front(changes + [ApprovalChange(Last(journal).event)]) == changes;
    assert Front(asked + [QuestionChange(Last(journal).event)]) == asked;
  }

  lemma SameApply(entry: Entry, named: Entry, madeUp: set<string>, row: Option<Row<ApprovalBody>>,
                  asked: Option<Row<QuestionBody>>, s: string, r: string)
    requires SameButName(entry, named, madeUp) && r !in madeUp
    ensures RequestTable.Apply(row, ApprovalChange(named.event), s, r)
         == RequestTable.Apply(row, ApprovalChange(entry.event), s, r)
    ensures RequestTable.Apply(asked, QuestionChange(named.event), s, r)
         == RequestTable.Apply(asked, QuestionChange(entry.event), s, r)
  {
    hide ApprovalBodyOf, QuestionBodyOf;
  }

  /** Will the event get a journal row? Seen before the call. */
  predicate CanJournal(b: Bridge, adapter: string, e: Event) {
    && (e.shape.Members? || e.shape.NullPayload?)
    && if e.sessionId == "" then "" in b.db.sessions else e.sessionId in b.known || adapter in b.adapters
  }

  /** Will it be skipped, and use up a number? */
  predicate WillSkip(b: Bridge, adapter: string, e: Event) {
    e.shape.UndefinedPayload? && (e.sessionId == "" || e.sessionId in b.known || adapter in b.adapters)
  }

  /** Does the event ask again for something that the table has? */
  predicate Repeats(db: Tables, e: Event, runtimeId: string) {
    && e.shape.Members?
    && (|| (e.kind.ApprovalRequested? && Has(db.approvals, e.sessionId, Coalesce(e.payload.approvalId, runtimeId)))
        || (e.kind.QuestionRequested? && Has(db.questions, e.sessionId, Coalesce(e.payload.questionId, runtimeId))))
  }

  /** A branch that reads members of a null payload. */
  predicate ReadsNull(e: Event) {
    e.shape.NullPayload? && !e.kind.Other?
  }

  lemma ProjectThrowsIff(db: Tables, e: Event, rowId: string, runtimeId: string)
    requires rowId !in db.approvals && rowId !in db.questions
    ensures Project(db, e, rowId, runtimeId).None? <==>
              Repeats(db, e, runtimeId) || (!e.shape.Members? && !e.kind.Other?)
  {
    hide Has, Settle, Updated, Effective;
  }

  /** Whatever the broadcast does, journal and tables are the same. */
  lemma BroadcastChangesNothing(b: Bridge, adapter: string, e: Event, rowId: string, runtimeId: string, throws: bool)
    ensures HandleEvent(b, adapter, e, rowId, runtimeId, throws).0
              == HandleEvent(b, adapter, e, rowId, runtimeId, false).0
  {
    hide Project;
  }

  /** Exactly which events are journaled without reaching every phone: those that can be journaled
      and then read a null payload, repeat a request the table has, or meet a broadcast that
      throws. The append, the table write and the broadcast are not one transaction: in the first
      two cases the tables keep what they had, in the third they have been changed. */
  lemma JournaledButNotBroadcast(ops: seq<Op>, op: Op, throws: bool)
    requires op.Handle? && Possible(ops + [op])
    ensures var b, e := Run(ops), op.e;
            var (c, outcome) := HandleEvent(b, op.adapter, e, op.rowId, op.runtimeId, throws);
            && (c.db.journal == b.db.journal + [Entry(b.db.counter + 1, e)] <==> CanJournal(b, op.adapter, e))
            && (c.db.journal == b.db.journal <==> !CanJournal(b, op.adapter, e))
            && (|c.db.journal| > |b.db.journal| && !outcome.Broadcast? <==>
                  && CanJournal(b, op.adapter, e)
                  && (ReadsNull(e) || Repeats(b.db, e, op.runtimeId) || throws))
            && (outcome.Threw? ==> c.db.approvals == b.db.approvals && c.db.questions == b.db.questions)
            && c == Run(ops + [op])
  {
    hide Project, Projected, Repeats, Run, EnsureSession, Appended;
    StepsAfter(ops, op, throws);
  }

  lemma StepsAfter(ops: seq<Op>, op: Op, throws: bool)
    requires op.Handle? && Possible(ops + [op])
    ensures Stepped(Run(ops), op, throws)
    ensures HandleEvent(Run(ops), op.adapter, op.e, op.rowId, op.runtimeId, throws).0 == Run(ops + [op])
  {
    hide Project, Projected, Stepped, Run, EnsureSession, Appended;
    assert Front(ops + [op]) == ops;
    var b := Run(ops);
    RunSnoc(ops, op);
    EveryRunIsProjected(ops);
    Steps(b, op, throws, NamedJournal(ops));
    BroadcastChangesNothing(b, op.adapter, op.e, op.rowId, op.runtimeId, throws);
  }

  /** An event whose payload has no JSON text gets no journal row and changes no table, other than
      that its session gets a row. If the payload is undefined and no branch reads it, the event is
      broadcast all the same, with sequence 0; and the number it was meant for is lost. */
  lemma NoJsonText(ops: seq<Op>, op: Op, throws: bool)
    requires op.Handle? && Possible(ops + [op]) && (op.e.shape.UndefinedPayload? || op.e.shape.Unserializable?)
    ensures var b, e := Run(ops), op.e;
            var (c, outcome) := HandleEvent(b, op.adapter, e, op.rowId, op.runtimeId, throws);
            && c.db.journal == b.db.journal && c.db.approvals == b.db.approvals && c.db.questions == b.db.questions
            && (forall s :: s in b.db.sessions ==>
                  s in c.db.sessions && c.db.sessions[s].content == b.db.sessions[s].content)
            && c.db.counter == b.db.counter + (if WillSkip(b, op.adapter, e) then 1 else 0)
            && outcome == (if !WillSkip(b, op.adapter, e) || !e.kind.Other? then Threw
                           else if throws then BroadcastThrew(0) else Broadcast(0))
  {
    hide Run, HandleEvent;
    StepsAfter(ops, op, throws);
    SessionsStay(Run(ops), op, throws);
  }

  lemma SessionsStay(b: Bridge, op: Op, throws: bool)
    requires op.Handle? && !op.e.shape.Members?
    ensures var c := HandleEvent(b, op.adapter, op.e, op.rowId, op.runtimeId, throws).0;
            forall s :: s in b.db.sessions ==>
              s in c.db.sessions && c.db.sessions[s].content == b.db.sessions[s].content
  {
    if op.e.sessionId != "" && EnsureSession(b, op.e.sessionId, op.adapter).Some? {
      EnsureOnlySessions(b, op.e.sessionId, op.adapter);
      hide EnsureSession;
    }
  }

  /** Such a state is reachable: an event with a null payload right after the start is journaled, its
      session has the row of a fresh session, and the handler has thrown. */
  lemma JournaledOnly(a: string, s: string, p: Payload, rowId: string, runtimeId: string)
    requires s != ""
    ensures var ops, e := [Register(a)], Event(SessionStarted, s, NullPayload, p);
            var op := Handle(a, e, rowId, runtimeId);
            var (c, outcome) := HandleEvent(Run(ops), a, e, rowId, runtimeId, false);
            && Possible(ops + [op]) && c == Run(ops + [op])
            && c.db.journal == [Entry(1, e)] && outcome == Threw
            && s in c.db.sessions && c.db.sessions[s].content == InitialSession
  {
    var ops, e := [Register(a)], Event(SessionStarted, s, NullPayload, p);
    var op := Handle(a, e, rowId, runtimeId);
    assert Front(ops) == [] && Front(ops + [op]) == ops;
    RunSnoc(ops, op);
  }

  lemma RunSnoc(ops: seq<Op>, op: Op)
    ensures Run(ops + [op]) == Step(Run(ops), op)
  {
    assert Front(ops + [op]) == ops;
  }

  /** What one event does to the journal and how it ends, told from the state before. */
  ghost predicate Stepped(b: Bridge, op: Op, throws: bool)
    requires op.Handle?
  {
    var e := op.e;
    var (c, outcome) := HandleEvent(b, op.adapter, e, op.rowId, op.runtimeId, throws);
    var journaled, skipped := CanJournal(b, op.adapter, e), WillSkip(b, op.adapter, e);
    && c.db.journal == b.db.journal + (if journaled then [Entry(b.db.counter + 1, e)] else [])
    && c.db.counter == b.db.counter + (if journaled || skipped then 1 else 0)
    && outcome == (if !journaled && !skipped then Threw
                   else if (if journaled then ReadsNull(e) || Repeats(b.db, e, op.runtimeId) else !e.kind.Other?)
                     then Threw
                   else
                     var sequence := if journaled then b.db.counter + 1 else 0;
                     if throws then BroadcastThrew(sequence) else Broadcast(sequence))
    && (outcome.Threw? || !e.shape.Members? ==>
          c.db.approvals == b.db.approvals && c.db.questions == b.db.questions)
  }

  lemma Steps(b: Bridge, op: Op, throws: bool, named: seq<Entry>)
    requires op.Handle? && Projected(b, named) && Fresh(b, op)
    ensures Stepped(b, op, throws)
  {
    hide Project, Repeats, Projected, EnsureSession, Appended;
    var e := op.e;
    var ensured := if e.sessionId == "" then Some(b) else EnsureSession(b, e.sessionId, op.adapter);
    EnsuredThenAppended(b, op, named);
    assert b.db.journal + [] == b.db.journal;
    if ensured.Some? {
      var db := Appended(ensured.value.db, e).0;
      ProjectOthers(db, e, op.rowId, op.runtimeId);
      ProjectThrowsIff(db, e, op.rowId, op.runtimeId);
      SameRequests(b.db, db, e, op.runtimeId);
    }
  }

  /** The first two statements of `handleEvent`. */
  lemma EnsuredThenAppended(b: Bridge, op: Op, named: seq<Entry>)
    requires op.Handle? && Projected(b, named)
    ensures var e := op.e;
            var ensured := if e.sessionId == "" then Some(b) else EnsureSession(b, e.sessionId, op.adapter);
            if ensured.None? then !CanJournal(b, op.adapter, e) && !WillSkip(b, op.adapter, e)
            else
              var (db, sequence) := Appended(ensured.value.db, e);
              && ensured.value.db.journal == b.db.journal && ensured.value.db.counter == b.db.counter
              && ensured.value.db.approvals == b.db.approvals && ensured.value.db.questions == b.db.questions
              && db.approvals == b.db.approvals && db.questions == b.db.questions
              && (if CanJournal(b, op.adapter, e) then
                    && sequence == Some(b.db.counter + 1) && db.counter == b.db.counter + 1
                    && db.journal == b.db.journal + [Entry(b.db.counter + 1, e)]
                  else
                    && db.journal == b.db.journal
                    && (if WillSkip(b, op.adapter, e) then sequence == Some(0) && db.counter == b.db.counter + 1
                        else sequence == None && db.counter == b.db.counter))
  {
    hide SessionsProjected, ApprovalsProjected, QuestionsProjected, Numbered;
  }

  /** Without members to read, or when it throws, an event leaves approvals and questions alone. */
  lemma ProjectOthers(db: Tables, e: Event, rowId: string, runtimeId: string)
    ensures var u := Coalesce(Project(db, e, rowId, runtimeId), db);
            && u.journal == db.journal && u.counter == db.counter
            && (!e.shape.Members? ==> u.approvals == db.approvals && u.questions == db.questions)
  {
    hide Insert, Settle, Updated;
  }

  lemma SameRequests(db: Tables, other: Tables, e: Event, runtimeId: string)
    requires db.approvals == other.approvals && db.questions == other.questions
    ensures Repeats(db, e, runtimeId) <==> Repeats(other, e, runtimeId)
    ensures Repeats(db, e, runtimeId) ==> e.shape.Members?
  {
  }
}
