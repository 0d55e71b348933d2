/** The AdapterManager: every runtime event is journaled, projected onto the tables and
    broadcast with its journal sequence. */
module AdapterManager {
  import opened Common
  import opened RequestTable
  import opened BridgeTables
  import opened ApprovalCas

  /** The manager's own memory and the database. `known` is lost in a restart, tables are not. */
  datatype Bridge = Bridge(adapters: set<string>, known: map<string, string>, db: Tables)

  const Empty: Bridge := Bridge({}, map[], Tables([], 0, map[], map[], map[]))

  /** How handling an event ends. It can throw at several points; what was written before stays.
      Sequence 0 is that of an event that was not journaled. */
  datatype Outcome = Threw | BroadcastThrew(sequence: nat) | Broadcast(sequence: nat)

  // ---------------------------------------------------------------------
  // Reading payloads
  // ---------------------------------------------------------------------

  /** The state a session event puts its session in. */
  function StateFor(e: Event): Option<string> {
    match e.kind
    case SessionStarted =>
      Some(if e.payload.status == Some("idle") then "idle"
           else if e.payload.status == Some("completed") then "completed" else "running")
    case SessionCompleted => Some("completed")
    case SessionFailed => Some("failed")
    case SessionCancelled => Some("cancelled")
    case SessionInterrupted => Some("interrupted")
    case SessionIdle => Some("idle")
    case SessionWorking => Some("running")
    case _ => None
  }

  function ActionFor(e: Event): Option<string> {
    if e.payload.currentAction.Some? then e.payload.currentAction else e.payload.message
  }

  /** Does a session event write its row? A title alone does not. */
  predicate Effective(e: Event) {
    e.shape.Members? && e.kind.IsSession() && (StateFor(e).Some? || e.payload.summary.Some? || ActionFor(e).Some?)
  }

  function ApprovalBodyOf(p: Payload): ApprovalBody {
    ApprovalBody(
      Coalesce(p.category, "unknown"), Coalesce(p.risk, "unknown"), Coalesce(p.reversible, "unknown"),
      Coalesce(p.title, ""), Coalesce(p.summary, ""), Coalesce(p.details, "{}"), Coalesce(p.decisions, "[]"))
  }

  function QuestionBodyOf(p: Payload): QuestionBody {
    QuestionBody(Coalesce(p.prompt, ""), p.options)
  }

  // ---------------------------------------------------------------------
  // One event, on values
  // ---------------------------------------------------------------------

  function EnsureSession(b: Bridge, s: string, adapter: string): Option<Bridge> {
    if s in b.known then Some(b)
    else if adapter !in b.adapters then None
    else
      var content := if s in b.db.sessions then b.db.sessions[s].content else InitialSession;
      Some(b.(known := b.known[s := adapter],
              db := b.db.(sessions := b.db.sessions[s := SessionRow("runtime:" + adapter, content)])))
  }

  function Updated(c: SessionContent, e: Event): SessionContent {
    SessionContent(
      Coalesce(e.payload.title, c.title),
      Coalesce(StateFor(e), c.state),
      Coalesce(e.payload.summary, c.summary),
      if ActionFor(e).Some? then ActionFor(e) else c.currentAction,
      c.version + 1)
  }

  /** The UPDATE of a session row. */
  function Rewritten(sessions: map<string, SessionRow>, e: Event): map<string, SessionRow>
    requires e.sessionId in sessions
  {
    sessions[e.sessionId := sessions[e.sessionId].(content := Updated(sessions[e.sessionId].content, e))]
  }

  /** The branches that read members of the payload, which throws when it is null or undefined. */
  predicate ReadsPayload(k: Kind) {
    k.IsSession() || k.ApprovalRequested? || k.ApprovalResolved? || k.QuestionRequested? || k.QuestionAnswered?
  }

  /** The table writes of one event; None when one throws, on a UNIQUE constraint or for want of a
      payload. `rowId` and `runtimeId` are the random ids the event may need. */
  function Project(db: Tables, e: Event, rowId: string, runtimeId: string): Option<Tables> {
    if !e.shape.Members? then (if ReadsPayload(e.kind) then None else Some(db))
    else ProjectMembers(db, e, rowId, runtimeId)
  }

  function ProjectMembers(db: Tables, e: Event, rowId: string, runtimeId: string): Option<Tables> {
    var p := e.payload;
    match e.kind
    case ApprovalRequested =>
      (match Insert(db.approvals, rowId, e.sessionId, Coalesce(p.approvalId, runtimeId), ApprovalBodyOf(p))
       case Some(t) => Some(db.(approvals := t))
       case None => None)
    case ApprovalResolved =>
      var decision := Coalesce(p.decision, "resolved");
      Some(db.(approvals := Settle(db.approvals, e.sessionId, Coalesce(p.approvalId, ""), decision, None)))
    case QuestionRequested =>
      (match Insert(db.questions, rowId, e.sessionId, Coalesce(p.questionId, runtimeId), QuestionBodyOf(p))
       case Some(t) => Some(db.(questions := t))
       case None => None)
    case QuestionAnswered =>
      Some(db.(questions := Settle(db.questions, e.sessionId, Coalesce(p.questionId, ""), "answered", p.answer)))
    case _ =>
      Some(if Effective(e) && e.sessionId in db.sessions then db.(sessions := Rewritten(db.sessions, e)) else db)
  }

  /** `throws`: whether the gateway's broadcast does. */
  function HandleEvent(b: Bridge, adapter: string, e: Event, rowId: string, runtimeId: string, throws: bool)
    : (Bridge, Outcome)
  {
    var ensured := if e.sessionId == "" then Some(b) else EnsureSession(b, e.sessionId, adapter);
    if ensured.None? then (b, Threw)
    else
      var c := ensured.value;
      var (db, sequence) := Appended(c.db, e);
      if sequence.None? then (c, Threw)
      else
        match Project(db, e, rowId, runtimeId)
        case None => (c.(db := db), Threw)
        case Some(db') => (c.(db := db'), if throws then BroadcastThrew(sequence.value) else Broadcast(sequence.value))
  }

  // ---------------------------------------------------------------------
  // The object
  // ---------------------------------------------------------------------

  class Manager {
    const db: Database
    const journal: EventJournal
    const approvals: ApprovalService
    var adapters: set<string>
    var known: map<string, string>
    /** Envelopes handed to the gateway, as journal sequences. */
    var broadcasts: seq<nat>

    constructor (db: Database, journal: EventJournal, approvals: ApprovalService)
      requires journal.db == db && approvals.db == db
      ensures this.db == db && this.journal == journal && this.approvals == approvals
      ensures adapters == {} && known == map[] && broadcasts == []
    {
      this.db, this.journal, this.approvals := db, journal, approvals;
      adapters, known, broadcasts := {}, map[], [];
    }

    ghost function State(): Bridge
      reads this, db
    {
      Bridge(adapters, known, db.Contents())
    }

    ghost predicate Valid()
      reads this, db
    {
      journal.db == db && approvals.db == db && Numbered(db.Contents())
    }

    /** `registerAdapter`, from the moment the probe has answered. */
    method Register(adapter: string)
      modifies this`adapters
      ensures adapters == old(adapters) + {adapter}
    {
      adapters := adapters + {adapter};
    }

    method EnsureSessionRow(s: string, adapter: string) returns (ok: bool)
      modifies this`known, db`sessions
      ensures ok <==> EnsureSession(old(State()), s, adapter).Some?
      ensures State() == Coalesce(EnsureSession(old(State()), s, adapter), old(State()))
    {
      if s in known {
        return true;
      }
      if adapter !in adapters {
        return false;
      }
      var runtimeInstance := "runtime:" + adapter;
      if s !in db.sessions {
        db.sessions := db.sessions[s := SessionRow(runtimeInstance, InitialSession)];
      }
      db.sessions := db.sessions[s := db.sessions[s].(runtimeInstance := runtimeInstance)];
      known := known[s := adapter];
      ok := true;
    }

    method HandleRuntimeEvent(adapter: string, e: Event, rowId: string, runtimeId: string, throws: bool)
      returns (outcome: Outcome)
      requires Valid() && UniqueKeys(db.approvals) && UniqueKeys(db.questions)
      modifies this, db
      ensures Valid() && (State(), outcome) == HandleEvent(old(State()), adapter, e, rowId, runtimeId, throws)
      ensures broadcasts == if outcome.Threw? then old(broadcasts) else old(broadcasts) + [outcome.sequence]
    {
      hide Project;
      if e.sessionId != "" {
        var ok := EnsureSessionRow(e.sessionId, adapter);
        if !ok {
          return Threw;
        }
      }
      var sequence := journal.Append(e);
      if sequence.None? {
        return Threw;
      }
      var projected := ProjectRow(e, rowId, runtimeId);
      if !projected {
        return Threw;
      }
      broadcasts := broadcasts + [sequence.value];
      outcome := if throws then BroadcastThrew(sequence.value) else Broadcast(sequence.value);
    }

    /** The branches of `handleEvent` between the journal and the broadcast. */
    method ProjectRow(e: Event, rowId: string, runtimeId: string) returns (ok: bool)
      requires Valid() && UniqueKeys(db.approvals) && UniqueKeys(db.questions)
      modifies db`sessions, db`approvals, db`questions
      ensures ok <==> Project(old(db.Contents()), e, rowId, runtimeId).Some?
      ensures db.Contents() == Coalesce(Project(old(db.Contents()), e, rowId, runtimeId), old(db.Contents()))
    {
      ok := true;
      if ReadsPayload(e.kind) && !e.shape.Members? {
        return false;
      }
      if e.kind.ApprovalRequested? {
        var r := Coalesce(e.payload.approvalId, runtimeId);
        ok := approvals.Create(rowId, e.sessionId, r, ApprovalBodyOf(e.payload));
      } else if e.kind.ApprovalResolved? {
        ResolveApproval(e);
      } else if e.kind.QuestionRequested? {
        ok := CreateQuestion(e, rowId, runtimeId);
      } else if e.kind.QuestionAnswered? {
        AnswerQuestion(e);
      } else if e.kind.IsSession() {
        UpdateSession(e);
      }
    }

    method CreateQuestion(e: Event, rowId: string, runtimeId: string) returns (inserted: bool)
      modifies db`questions
      ensures var t :=
                Insert(old(db.questions), rowId, e.sessionId, Coalesce(e.payload.questionId, runtimeId),
                       QuestionBodyOf(e.payload));
              (inserted <==> t.Some?) && db.questions == Coalesce(t, old(db.questions))
    {
      var r := Coalesce(e.payload.questionId, runtimeId);
      if rowId in db.questions || Has(db.questions, e.sessionId, r) {
        return false;
      }
      db.questions := db.questions[rowId := Row(e.sessionId, r, QuestionBodyOf(e.payload), "pending", None, 1, None)];
      inserted := true;
    }

    method UpdateSession(e: Event)
      requires e.shape.Members? && e.kind.IsSession()
      modifies db`sessions
      ensures Project(old(db.Contents()), e, "", "") == Some(db.Contents())
    {
      var state := StateFor(e);
      var summary := e.payload.summary;
      var currentAction := if e.payload.currentAction.Some? then e.payload.currentAction else e.payload.message;
      if state.None? && summary.None? && currentAction.None? {
        return;
      }
      if e.sessionId !in db.sessions {
        return;
      }
      var row := db.sessions[e.sessionId].content;
      row := row.(state := Coalesce(state, row.state));
      row := row.(title := Coalesce(e.payload.title, row.title));
      row := row.(summary := Coalesce(summary, row.summary));
      if currentAction.Some? {
        row := row.(currentAction := currentAction);
      }
      row := row.(version := row.version + 1);
      db.sessions := db.sessions[e.sessionId := db.sessions[e.sessionId].(content := row)];
    }

    /** The pending approval the runtime resolved, found among the session's pending ones. */
    method ResolveApproval(e: Event)
      requires approvals.db == db && UniqueKeys(db.approvals)
      modifies db`approvals
      ensures db.approvals
                == Settle(old(db.approvals), e.sessionId, Coalesce(e.payload.approvalId, ""),
                          Coalesce(e.payload.decision, "resolved"), None)
    {
      var r := Coalesce(e.payload.approvalId, "");
      var decision := Coalesce(e.payload.decision, "resolved");
      var pending := approvals.GetPending(e.sessionId);
      var i := 0;
      while i < |pending| && db.approvals[pending[i]].runtimeId != r
        invariant 0 <= i <= |pending|
        invariant forall k :: 0 <= k < i ==> db.approvals[pending[k]].runtimeId != r
      {
        i := i + 1;
      }
      if i < |pending| {
        var id := pending[i];
        SettleOne(db.approvals, id, e.sessionId, r, decision, None);
        if db.approvals[id].state == "pending" {
          db.approvals := db.approvals[id := Settled(db.approvals[id], decision, None)];
        }
      } else {
        SettleNone(db.approvals, e.sessionId, r, decision, None);
      }
    }

    method AnswerQuestion(e: Event)
      requires UniqueKeys(db.questions)
      modifies db`questions
      ensures db.questions
                == Settle(old(db.questions), e.sessionId, Coalesce(e.payload.questionId, ""), "answered",
                          e.payload.answer)
    {
      var r := Coalesce(e.payload.questionId, "");
      var matching := set id | id in db.questions && Pending(db.questions[id], e.sessionId, r);
      if matching != {} {
        var id :| id in matching;
        SettleOne(db.questions, id, e.sessionId, r, "answered", e.payload.answer);
        db.questions := db.questions[id := Settled(db.questions[id], "answered", e.payload.answer)];
      } else {
        assert forall id :: id in db.questions && Pending(db.questions[id], e.sessionId, r) ==> id in matching;
        SettleNone(db.questions, e.sessionId, r, "answered", e.payload.answer);
      }
    }
  }
}
