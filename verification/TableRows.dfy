/** What the bridge's rows say, in the words of the events: which event gives which state, title,
    action, decision or answer, and which row holds what was given last. */
module TableRows {
  import opened Common
  import opened RequestTable
  import opened BridgeTables
  import opened AdapterManager
  import P = Projection

  // ---------------------------------------------------------------------
  // What a session event gives
  // ---------------------------------------------------------------------

  predicate OfSession(e: Event) {
    && e.shape.Members?
    && !e.kind.ApprovalRequested? && !e.kind.ApprovalResolved? && !e.kind.QuestionRequested?
    && !e.kind.QuestionAnswered? && !e.kind.Other?
  }

  predicate GivesState(e: Event, state: string) {
    var status := e.payload.status;
    && e.shape.Members?
    && (|| (e.kind.SessionCompleted? && state == "completed")
        || (e.kind.SessionFailed? && state == "failed")
        || (e.kind.SessionCancelled? && state == "cancelled")
        || (e.kind.SessionInterrupted? && state == "interrupted")
        || (e.kind.SessionIdle? && state == "idle")
        || (e.kind.SessionWorking? && state == "running")
        || (e.kind.SessionStarted? && status == Some("idle") && state == "idle")
        || (e.kind.SessionStarted? && status == Some("completed") && state == "completed")
        || (e.kind.SessionStarted? && status != Some("idle") && status != Some("completed") && state == "running"))
  }

  /** A title alone writes nothing. */
  predicate WritesRow(e: Event) {
    var p := e.payload;
    OfSession(e) && (!e.kind.SessionOther? || p.summary.Some? || p.currentAction.Some? || p.message.Some?)
  }

  predicate GivesTitle(e: Event, title: string) {
    WritesRow(e) && e.payload.title == Some(title)
  }

  predicate GivesSummary(e: Event, summary: string) {
    OfSession(e) && e.payload.summary == Some(summary)
  }

  /** The message stands in for an action that is not given. */
  predicate GivesAction(e: Event, action: Option<string>) {
    OfSession(e) && action.Some? && (e.payload.currentAction == action
                                     || (e.payload.currentAction == None && e.payload.message == action))
  }

  ghost predicate GivesSome<T(!new)>(e: Event, s: string, gives: (Event, T) -> bool) {
    e.sessionId == s && exists v :: gives(e, v)
  }

  /** The value is what the last event of the session that gives one gave, or the first value. */
  ghost predicate Latest<T(!new)>(journal: seq<Entry>, s: string, gives: (Event, T) -> bool, first: T, value: T) {
    || (value == first && forall i :: 0 <= i < |journal| ==> !GivesSome(journal[i].event, s, gives))
    || exists i :: GivesAt(journal, s, gives, value, i)
  }

  ghost predicate GivesAt<T(!new)>(journal: seq<Entry>, s: string, gives: (Event, T) -> bool, value: T, i: int) {
    && 0 <= i < |journal| && journal[i].event.sessionId == s && gives(journal[i].event, value)
    && forall j :: i < j < |journal| ==> !GivesSome(journal[j].event, s, gives)
  }

  /** The events that wrote the row. */
  function WritersOf(journal: seq<Entry>, s: string): set<int> {
    set i | 0 <= i < |journal| && journal[i].event.sessionId == s && WritesRow(journal[i].event)
  }

  /** Every column of a session's row, told from the journal. */
  ghost predicate RowSays(journal: seq<Entry>, s: string, row: SessionContent) {
    && Latest(journal, s, GivesState, "running", row.state)
    && Latest(journal, s, GivesTitle, "Session", row.title)
    && Latest(journal, s, GivesSummary, "", row.summary)
    && Latest(journal, s, GivesAction, None, row.currentAction)
    && row.version == 1 + |WritersOf(journal, s)|
  }

  /** One event, column by column: it takes what the event gives and keeps what it does not. */
  ghost predicate Takes<T(!new)>(e: Event, s: string, gives: (Event, T) -> bool, was: T, value: T) {
    if GivesSome(e, s, gives) then gives(e, value) else value == was
  }

  ghost predicate RowTakes(e: Event, s: string, was: SessionContent, row: SessionContent) {
    && Takes(e, s, GivesState, was.state, row.state)
    && Takes(e, s, GivesTitle, was.title, row.title)
    && Takes(e, s, GivesSummary, was.summary, row.summary)
    && Takes(e, s, GivesAction, was.currentAction, row.currentAction)
    && row.version == was.version + (if e.sessionId == s && WritesRow(e) then 1 else 0)
  }

  lemma UpdateTakes(e: Event, s: string, was: SessionContent)
    ensures RowTakes(e, s, was, if P.Writes(e, s) then Updated(was, e) else was)
  {
    var row := if P.Writes(e, s) then Updated(was, e) else was;
    assert P.Writes(e, s) <==> e.sessionId == s && WritesRow(e);
    assert GivesSome(e, s, GivesState) ==> GivesState(e, row.state);
    assert StateFor(e).Some? && OfSession(e) ==> GivesState(e, StateFor(e).value);
    assert e.payload.title.Some? ==> (GivesTitle(e, e.payload.title.value) <==> WritesRow(e));
    assert e.payload.summary.Some? ==> (GivesSummary(e, e.payload.summary.value) <==> OfSession(e));
    assert ActionFor(e).Some? ==> (GivesAction(e, ActionFor(e)) <==> OfSession(e));
  }

  lemma LatestSnoc<T(!new)>(journal: seq<Entry>, entry: Entry, s: string, gives: (Event, T) -> bool, first: T, was: T,
                            value: T)
    requires Latest(journal, s, gives, first, was) && Takes(entry.event, s, gives, was, value)
    ensures Latest(journal + [entry], s, gives, first, value)
  {
    var more := journal + [entry];
    assert forall i :: 0 <= i < |journal| ==> more[i] == journal[i];
    assert more[|journal|] == entry;
    if !GivesSome(entry.event, s, gives) && exists i :: GivesAt(journal, s, gives, was, i) {
      var i :| GivesAt(journal, s, gives, was, i);
      assert GivesAt(more, s, gives, value, i);
    }
    if GivesSome(entry.event, s, gives) {
      assert GivesAt(more, s, gives, value, |journal|);
    }
  }

  lemma CountSnoc(journal: seq<Entry>, entry: Entry, s: string)
    ensures |WritersOf(journal + [entry], s)|
         == |WritersOf(journal, s)| + (if entry.event.sessionId == s && WritesRow(entry.event) then 1 else 0)
  {
    var more := journal + [entry];
    assert forall i :: 0 <= i < |journal| ==> more[i] == journal[i];
    if entry.event.sessionId == s && WritesRow(entry.event) {
      assert WritersOf(more, s) == WritersOf(journal, s) + {|journal|};
    } else {
      assert WritersOf(more, s) == WritersOf(journal, s);
    }
  }

  lemma RowSnoc(journal: seq<Entry>, entry: Entry, s: string, was: SessionContent, row: SessionContent)
    requires RowSays(journal, s, was) && RowTakes(entry.event, s, was, row)
    ensures RowSays(journal + [entry], s, row)
  {
    hide Latest, Takes, WritersOf;
    LatestSnoc(journal, entry, s, GivesState, "running", was.state, row.state);
    LatestSnoc(journal, entry, s, GivesTitle, "Session", was.title, row.title);
    LatestSnoc(journal, entry, s, GivesSummary, "", was.summary, row.summary);
    LatestSnoc(journal, entry, s, GivesAction, None, was.currentAction, row.currentAction);
    CountSnoc(journal, entry, s);
  }

  lemma {:induction false} FoldSays(journal: seq<Entry>, s: string)
    ensures RowSays(journal, s, P.SessionFromJournal(journal, s))
  {
    if journal != [] {
      hide RowSays, RowTakes, Updated, P.Writes, P.SessionFromJournal;
      var entry, was := Last(journal), P.SessionFromJournal(Front(journal), s);
      FoldSays(Front(journal), s);
      P.SessionFoldStep(Front(journal), entry.event, entry.sequence, s);
      UpdateTakes(entry.event, s, was);
      assert journal == Front(journal) + [Entry(entry.sequence, entry.event)];
      RowSnoc(Front(journal), entry, s, was, P.SessionFromJournal(journal, s));
    }
  }

  /** In every reachable state each column of a session's row is what the last event that gives one
      gave: the state of the last lifecycle event, title, summary and action, and a version that is
      one more than the number of events that wrote the row. A row that nothing wrote is titled
      `Session` and runs. */
  lemma SessionRowSays(ops: seq<P.Op>, s: string)
    requires P.Possible(ops) && s in P.Run(ops).db.sessions
    ensures RowSays(P.Run(ops).db.journal, s, P.Run(ops).db.sessions[s].content)
  {
    hide RowSays, P.Possible, P.Run, P.SessionFromJournal;
    P.SessionRowIsFold(ops, s);
    FoldSays(P.Run(ops).db.journal, s);
  }

  /** One event more: the row of each session takes what the event gives, if the event is about it and
      journaled, and is as it was otherwise. */
  lemma EventTakes(ops: seq<P.Op>, op: P.Op, s: string)
    requires op.Handle? && P.Possible(ops + [op]) && s in P.Run(ops + [op]).db.sessions
    ensures var b, d := P.Run(ops), P.Run(ops + [op]);
            var was := if s in b.db.sessions then b.db.sessions[s].content
                       else SessionContent("Session", "running", "", None, 1);
            if P.CanJournal(b, op.adapter, op.e) then RowTakes(op.e, s, was, d.db.sessions[s].content)
            else d.db.sessions[s].content == was
  {
    hide RowTakes, P.Possible, P.Run, P.SessionFromJournal, P.Writes, Updated, P.CanJournal;
    var b, d := P.Run(ops), P.Run(ops + [op]);
    assert Front(ops + [op]) == ops;
    PossibleFront(ops, op);
    P.JournaledButNotBroadcast(ops, op, false);
    P.SessionRowIsFold(ops + [op], s);
    var was := P.SessionFromJournal(b.db.journal, s);
    if s in b.db.sessions {
      P.SessionRowIsFold(ops, s);
    } else {
      NotMentioned(ops, s);
      P.NewSessionIsInitial(b.db.journal, s);
    }
    P.SessionFoldStep(b.db.journal, op.e, b.db.counter + 1, s);
    UpdateTakes(op.e, s, was);
  }

  lemma PossibleFront(ops: seq<P.Op>, op: P.Op)
    requires P.Possible(ops + [op])
    ensures P.Possible(ops)
  {
    assert Front(ops + [op]) == ops;
  }

  lemma NotMentioned(ops: seq<P.Op>, s: string)
    requires P.Possible(ops) && s !in P.Run(ops).db.sessions
    ensures forall i :: 0 <= i < |P.Run(ops).db.journal| ==> P.Run(ops).db.journal[i].event.sessionId != s
  {
    hide P.SessionsProjected, P.ApprovalsProjected, P.QuestionsProjected, P.Run, P.Possible;
    P.EveryRunIsProjected(ops);
  }

  // ---------------------------------------------------------------------
  // Which sessions have a row, and whose they are
  // ---------------------------------------------------------------------

  /** The adapters registered since the last restart. */
  function Registered(ops: seq<P.Op>): set<string> {
    if ops == [] || Last(ops).Restart? then {}
    else Registered(Front(ops)) + (if Last(ops).Register? then {Last(ops).adapter} else {})
  }

  /** The session that an operation names, and on behalf of which adapter. */
  function Naming(op: P.Op): Option<(string, string)> {
    match op
    case Handle(adapter, e, _, _) => if e.sessionId == "" then None else Some((e.sessionId, adapter))
    case RecordStart(s, adapter) => Some((s, adapter))
    case _ => None
  }

  /** Since the last restart, the first registered adapter that named the session. */
  function Known(ops: seq<P.Op>, s: string): Option<string> {
    if ops == [] || Last(ops).Restart? then None
    else if Known(Front(ops), s).Some? then Known(Front(ops), s)
    else if Naming(Last(ops)).Some? && Naming(Last(ops)).value.0 == s
            && Naming(Last(ops)).value.1 in Registered(Front(ops)) then Some(Naming(Last(ops)).value.1)
    else None
  }

  /** The adapter that was known for the session most recently, restarts or not. */
  function Owner(ops: seq<P.Op>, s: string): Option<string> {
    if ops == [] then None
    else if Known(ops, s).Some? then Known(ops, s)
    else Owner(Front(ops), s)
  }

  ghost predicate Owned(b: Bridge, ops: seq<P.Op>, s: string) {
    && b.adapters == Registered(ops)
    && (s in b.known <==> Known(ops, s).Some?) && (s in b.known ==> b.known[s] == Known(ops, s).value)
    && (s in b.db.sessions <==> Owner(ops, s).Some?)
    && (s in b.db.sessions ==> b.db.sessions[s].runtimeInstance == "runtime:" + Owner(ops, s).value)
  }

  lemma HandleOnlyEnsures(b: Bridge, adapter: string, e: Event, rowId: string, runtimeId: string, s: string)
    ensures var c := HandleEvent(b, adapter, e, rowId, runtimeId, false).0;
            var ensured := if e.sessionId == "" then b else Coalesce(EnsureSession(b, e.sessionId, adapter), b);
            && c.adapters == ensured.adapters && c.known == ensured.known
            && c.db.sessions.Keys == ensured.db.sessions.Keys
            && (s in c.db.sessions ==> c.db.sessions[s].runtimeInstance == ensured.db.sessions[s].runtimeInstance)
  {
    hide Project, EnsureSession, Updated, Effective;
    var ensured := if e.sessionId == "" then Some(b) else EnsureSession(b, e.sessionId, adapter);
    if ensured.Some? {
      P.ProjectParts(Appended(ensured.value.db, e).0, e, rowId, runtimeId);
    }
  }

  lemma EnsureOwns(b: Bridge, named: string, adapter: string, s: string)
    requires b.known.Keys <= b.db.sessions.Keys
    ensures var c := Coalesce(EnsureSession(b, named, adapter), b);
            var bound := named !in b.known && adapter in b.adapters;
            && c.adapters == b.adapters && c.known.Keys <= c.db.sessions.Keys
            && c.known == (if bound then b.known[named := adapter] else b.known)
            && c.db.sessions.Keys == (if bound then b.db.sessions.Keys + {named} else b.db.sessions.Keys)
            && (s in c.db.sessions ==>
                  c.db.sessions[s].runtimeInstance
                  == if bound && s == named then "runtime:" + adapter else b.db.sessions[s].runtimeInstance)
  {
  }

  lemma {:induction false} KnownHasRow(ops: seq<P.Op>)
    ensures P.Run(ops).known.Keys <= P.Run(ops).db.sessions.Keys
  {
    hide HandleEvent, EnsureSession;
    if ops != [] {
      KnownHasRow(Front(ops));
      var b := P.Run(Front(ops));
      match Last(ops) {
        case Handle(adapter, e, rowId, runtimeId) =>
          HandleOnlyEnsures(b, adapter, e, rowId, runtimeId, "");
          EnsureOwns(b, e.sessionId, adapter, "");
        case RecordStart(s, adapter) => EnsureOwns(b, s, adapter, "");
        case _ =>
      }
    }
  }

  /** A session has a row once a registered adapter has named it, and the row belongs to the adapter
      that did so first since the last restart, or else most recently. */
  lemma {:induction false} RowHasOwner(ops: seq<P.Op>, s: string)
    ensures Owned(P.Run(ops), ops, s)
  {
    hide HandleEvent, EnsureSession;
    if ops != [] {
      RowHasOwner(Front(ops), s);
      KnownHasRow(Front(ops));
      var b := P.Run(Front(ops));
      match Last(ops) {
        case Handle(adapter, e, rowId, runtimeId) =>
          HandleOnlyEnsures(b, adapter, e, rowId, runtimeId, s);
          EnsureOwns(b, e.sessionId, adapter, s);
        case RecordStart(named, adapter) => EnsureOwns(b, named, adapter, s);
        case _ =>
      }
    }
  }

  // ---------------------------------------------------------------------
  // Approvals and questions
  // ---------------------------------------------------------------------

  predicate AsksApproval(e: Event, s: string, r: string) {
    e.shape.Members? && e.kind.ApprovalRequested? && e.sessionId == s && e.payload.approvalId == Some(r)
  }

  /** A resolution without an id is about the empty one, and one without a decision says `resolved`. */
  predicate DecidesApproval(e: Event, s: string, r: string, decision: string) {
    && e.shape.Members? && e.kind.ApprovalResolved? && e.sessionId == s
    && (e.payload.approvalId == Some(r) || (e.payload.approvalId == None && r == ""))
    && (e.payload.decision == Some(decision) || (e.payload.decision == None && decision == "resolved"))
  }

  predicate ApprovalAskedBy(e: Event, body: ApprovalBody) {
    var p := e.payload;
    && (p.category == Some(body.category) || (p.category == None && body.category == "unknown"))
    && (p.risk == Some(body.risk) || (p.risk == None && body.risk == "unknown"))
    && (p.reversible == Some(body.reversible) || (p.reversible == None && body.reversible == "unknown"))
    && (p.title == Some(body.title) || (p.title == None && body.title == ""))
    && (p.summary == Some(body.summary) || (p.summary == None && body.summary == ""))
    && (p.details == Some(body.details) || (p.details == None && body.details == "{}"))
    && (p.decisions == Some(body.decisions) || (p.decisions == None && body.decisions == "[]"))
  }

  predicate AsksQuestion(e: Event, s: string, r: string) {
    e.shape.Members? && e.kind.QuestionRequested? && e.sessionId == s && e.payload.questionId == Some(r)
  }

  predicate AnswersQuestion(e: Event, s: string, r: string) {
    && e.shape.Members? && e.kind.QuestionAnswered? && e.sessionId == s
    && (e.payload.questionId == Some(r) || (e.payload.questionId == None && r == ""))
  }

  predicate QuestionAskedBy(e: Event, body: QuestionBody) {
    (e.payload.prompt == Some(body.prompt) || (e.payload.prompt == None && body.prompt == ""))
        && body.options == e.payload.options
  }

  lemma ApprovalChangeMeans(e: Event, s: string, r: string)
    ensures var c := P.ApprovalChange(e);
            && (Requests(c, s, r) <==> AsksApproval(e, s, r))
            && (Requests(c, s, r) ==> ApprovalAskedBy(e, c.body))
            && (Answers(c, s, r) <==> exists d :: DecidesApproval(e, s, r, d))
            && (Answers(c, s, r) ==> DecidesApproval(e, s, r, c.state) && c.answer == None)
            && (forall d :: DecidesApproval(e, s, r, d) ==> c.state == d)
  {
    var d := Coalesce(e.payload.decision, "resolved");
    assert Answers(P.ApprovalChange(e), s, r) ==> DecidesApproval(e, s, r, d);
  }

  lemma QuestionChangeMeans(e: Event, s: string, r: string)
    ensures var c := P.QuestionChange(e);
            && (Requests(c, s, r) <==> AsksQuestion(e, s, r))
            && (Requests(c, s, r) ==> QuestionAskedBy(e, c.body))
            && (Answers(c, s, r) <==> AnswersQuestion(e, s, r))
            && (Answers(c, s, r) ==> c.state == "answered" && c.answer == e.payload.answer)
  {
  }

  /** How often the runtime decided the approval within these entries. */
  ghost function Decisions(entries: seq<Entry>, s: string, r: string): nat {
    if entries == [] then 0
    else
      Decisions(Front(entries), s, r) + (if exists d :: DecidesApproval(Last(entries).event, s, r, d) then 1 else 0)
  }

  lemma {:induction false} DecisionsAreAnswers(entries: seq<Entry>, changes: seq<Change<ApprovalBody>>, s: string,
                                               r: string)
    requires |changes| == |entries|
    requires forall i :: 0 <= i < |entries| ==> changes[i] == P.ApprovalChange(entries[i].event)
    ensures |AnswersTo(changes, s, r)| == Decisions(entries, s, r)
    ensures AnswersTo(changes, s, r) != [] ==> Last(AnswersTo(changes, s, r)).1 == None
  {
    hide P.ApprovalChange, DecidesApproval;
    if entries != [] {
      DecisionsAreAnswers(Front(entries), Front(changes), s, r);
      ApprovalChangeMeans(Last(entries).event, s, r);
      assert Last(changes) == P.ApprovalChange(Last(entries).event);
    }
  }

  /** An approval's row, told from the journal with the ids that the bridge made up: entry i asked for
      it first, entry k is the first resolution that decides it, if there is one. */
  ghost predicate ApprovalSays(named: seq<Entry>, row: Row<ApprovalBody>, i: nat, k: nat) {
    && i < k <= |named|
    && AsksApproval(named[i].event, row.sessionId, row.runtimeId) && ApprovalAskedBy(named[i].event, row.body)
    && (forall j :: 0 <= j < i ==> !AsksApproval(named[j].event, row.sessionId, row.runtimeId))
    && (forall j, d :: i < j < k && DecidesApproval(named[j].event, row.sessionId, row.runtimeId, d) ==> d == "pending")
    && (k == |named| && row.resolvedBy == None ==>
          row.state == "pending" && row.version == 1 + Decisions(named[i..], row.sessionId, row.runtimeId))
    && (k < |named| ==> exists d :: d != "pending" && DecidesApproval(named[k].event, row.sessionId, row.runtimeId, d))
    && (k < |named| && row.resolvedBy == None ==>
          && row.state != "pending" && DecidesApproval(named[k].event, row.sessionId, row.runtimeId, row.state)
          && row.version == 1 + Decisions(named[i..k + 1], row.sessionId, row.runtimeId))
    && (row.resolvedBy == None ==> row.answer == None)
  }

  /** Change for change, what the entries ask and decide. */
  ghost predicate ApprovalsMatch(named: seq<Entry>, changes: seq<Change<ApprovalBody>>, s: string, r: string) {
    && |changes| == |named|
    && forall j :: 0 <= j < |named| ==> ApprovalMatches(named[j].event, changes[j], s, r)
  }

  ghost predicate ApprovalMatches(e: Event, c: Change<ApprovalBody>, s: string, r: string) {
    && (Requests(c, s, r) <==> AsksApproval(e, s, r))
    && (Requests(c, s, r) ==> ApprovalAskedBy(e, c.body))
    && (Answers(c, s, r) <==> exists d :: DecidesApproval(e, s, r, d))
    && (Answers(c, s, r) ==> DecidesApproval(e, s, r, c.state))
    && (forall d :: DecidesApproval(e, s, r, d) ==> c.state == d)
  }

  lemma AllApprovalsMatch(named: seq<Entry>, s: string, r: string)
    ensures ApprovalsMatch(named, P.ApprovalChanges(named), s, r)
  {
    hide P.ApprovalChange, AsksApproval, DecidesApproval, ApprovalAskedBy;
    P.ChangesAreEntries(named);
    forall j | 0 <= j < |named| ensures ApprovalMatches(named[j].event, P.ApprovalChanges(named)[j], s, r) {
      ApprovalChangeMeans(named[j].event, s, r);
    }
  }

  lemma ApprovalHistory(named: seq<Entry>, changes: seq<Change<ApprovalBody>>, row: Row<ApprovalBody>, i: nat, k: nat,
                        answers: seq<(string, Option<string>)>)
    requires ApprovalsMatch(named, changes, row.sessionId, row.runtimeId) && i < k <= |changes|
    requires Requests(changes[i], row.sessionId, row.runtimeId) && row.body == changes[i].body
    requires forall j :: 0 <= j < i ==> !Requests(changes[j], row.sessionId, row.runtimeId)
    requires forall j :: i < j < k && Answers(changes[j], row.sessionId, row.runtimeId) ==>
               changes[j].state == "pending"
    requires k < |changes| ==> Answers(changes[k], row.sessionId, row.runtimeId) && changes[k].state != "pending"
    requires |answers| == Decisions(named[i..if k < |named| then k + 1 else k], row.sessionId, row.runtimeId)
    requires answers != [] ==> Last(answers).1 == None
    requires row.resolvedBy == None ==>
               Answered(row, row.sessionId, row.runtimeId, changes[i].body,
                        if k < |changes| then changes[k].state else "pending", answers)
    ensures ApprovalSays(named, row, i, k)
  {
    hide AsksApproval, DecidesApproval, ApprovalAskedBy, Decisions;
    assert named[i..|named|] == named[i..];
    assert forall j :: 0 <= j < |named| ==> ApprovalMatches(named[j].event, changes[j], row.sessionId, row.runtimeId);
  }

  /** In every reachable state a row says what the first request for its key asked, and while no device
      has written it, the runtime's first decision and how often it was updated. */
  lemma ApprovalRowSays(ops: seq<P.Op>, id: string) returns (i: nat, k: nat)
    requires P.Possible(ops) && id in P.Run(ops).db.approvals
    ensures ApprovalSays(P.NamedJournal(ops), P.Run(ops).db.approvals[id], i, k)
  {
    hide P.Possible, P.Run, P.NamedJournal, P.MadeUp, P.ApprovalChange, P.ApprovalChanges, ApprovalsMatch,
         ApprovalSays, AnswersTo, Decisions, Answered, Requests, Answers;
    var named, row := P.NamedJournal(ops), P.Run(ops).db.approvals[id];
    var s, r := row.sessionId, row.runtimeId;
    var changes := P.ApprovalChanges(named);
    P.ApprovalRowIsFold(ops, s, r, id);
    P.ChangesAreEntries(named);
    i, k := HistoryOf(changes, s, r);
    FirstAnswerWins(changes, s, r, i, k);
    AllApprovalsMatch(named, s, r);
    var n := if k < |named| then k + 1 else k;
    DecisionsAreAnswers(named[i..n], changes[i..n], s, r);
    SameBody(Fold(changes, s, r).value, s, r, changes[i].body, if k < |changes| then changes[k].state else "pending",
             AnswersTo(changes[i..n], s, r));
    ApprovalHistory(named, changes, row, i, k, AnswersTo(changes[i..n], s, r));
  }

  lemma SameBody<B>(row: Row<B>, s: string, r: string, body: B, state: string, answers: seq<(string, Option<string>)>)
    requires Answered(row, s, r, body, state, answers)
    ensures row.body == body
  {
  }

  /** The same for questions, which the first answer settles. */
  ghost predicate QuestionSays(named: seq<Entry>, row: Row<QuestionBody>, i: nat, k: nat) {
    && i < k <= |named|
    && AsksQuestion(named[i].event, row.sessionId, row.runtimeId) && QuestionAskedBy(named[i].event, row.body)
    && (forall j :: 0 <= j < i ==> !AsksQuestion(named[j].event, row.sessionId, row.runtimeId))
    && (forall j :: i < j < k ==> !AnswersQuestion(named[j].event, row.sessionId, row.runtimeId))
    && row.resolvedBy == None
    && (k == |named| ==> row.state == "pending" && row.version == 1 && row.answer == None)
    && (k < |named| ==>
          && AnswersQuestion(named[k].event, row.sessionId, row.runtimeId)
          && row.state == "answered" && row.version == 2 && row.answer == named[k].event.payload.answer)
  }

  lemma QuestionRowSays(ops: seq<P.Op>, id: string) returns (i: nat, k: nat)
    requires P.Possible(ops) && id in P.Run(ops).db.questions
    ensures QuestionSays(P.NamedJournal(ops), P.Run(ops).db.questions[id], i, k)
  {
    hide P.Possible, P.Run, P.NamedJournal, P.MadeUp, P.QuestionChange, AsksQuestion, AnswersQuestion,
         QuestionAskedBy, AnswersTo;
    var named, row := P.NamedJournal(ops), P.Run(ops).db.questions[id];
    var s, r := row.sessionId, row.runtimeId;
    var changes := P.QuestionChanges(named);
    P.QuestionRowIsFold(ops, id);
    P.ChangesAreEntries(named);
    i, k := HistoryOf(changes, s, r);
    FirstAnswerWins(changes, s, r, i, k);
    forall j | 0 <= j < |named|
      ensures Requests(changes[j], s, r) <==> AsksQuestion(named[j].event, s, r)
      ensures Requests(changes[j], s, r) ==> QuestionAskedBy(named[j].event, changes[j].body)
      ensures Answers(changes[j], s, r) <==> AnswersQuestion(named[j].event, s, r)
      ensures Answers(changes[j], s, r) ==> changes[j].state == "answered"
      ensures Answers(changes[j], s, r) ==> changes[j].answer == named[j].event.payload.answer
    {
      QuestionChangeMeans(named[j].event, s, r);
    }
    OneAnswer(changes, i, k, s, r);
  }

  /** Nothing but the answer at k counts. */
  lemma OneAnswer<B>(changes: seq<Change<B>>, i: nat, k: nat, s: string, r: string)
    requires i < k <= |changes| && Requests(changes[i], s, r)
    requires forall j :: i < j < k ==> !Answers(changes[j], s, r)
    ensures k < |changes| && Answers(changes[k], s, r) ==>
              AnswersTo(changes[i..k + 1], s, r) == [(changes[k].state, changes[k].answer)]
    ensures k == |changes| ==> AnswersTo(changes[i..k], s, r) == []
  {
    NoneToSlice(changes[i..k], s, r);
    if k < |changes| {
      assert Front(changes[i..k + 1]) == changes[i..k] && Last(changes[i..k + 1]) == changes[k];
    }
  }

  lemma {:induction false} NoneToSlice<B>(changes: seq<Change<B>>, s: string, r: string)
    requires forall j :: 0 <= j < |changes| ==> !Answers(changes[j], s, r)
    ensures AnswersTo(changes, s, r) == []
  {
    if changes != [] {
      NoneToSlice(Front(changes), s, r);
    }
  }
}
