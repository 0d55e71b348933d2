/** The phone's replica of the bridge: the reducers of the session store and the store object
    that applies them. */
module SessionStore {
  import opened Common

  datatype Session = Session(
    id: string, title: string, state: string, summary: string, currentAction: Option<string>,
    pendingApprovalCount: int, pendingQuestionCount: int, capabilities: string,
    version: int, createdAt: string, updatedAt: string)

  datatype Approval = Approval(
    id: string, sessionId: string, category: string, risk: string, reversible: string, title: string,
    summary: string, decisions: seq<string>, state: string, expiresAt: Option<string>, version: int)

  datatype Question = Question(id: string, sessionId: string, prompt: string, options: Option<seq<string>>,
                               state: string)

  datatype SessionCreated = SessionCreated(
    id: string, title: string, state: string, summary: string, currentAction: Option<string>,
    pendingApprovalCount: Option<int>, pendingQuestionCount: Option<int>, capabilities: Option<string>,
    version: int, createdAt: string, updatedAt: string)

  datatype SessionStarted = SessionStarted(
    id: string, title: Option<string>, state: Option<string>, summary: Option<string>, currentAction: Option<string>,
    capabilities: Option<string>, version: Option<int>, createdAt: Option<string>, updatedAt: Option<string>)

  /** `currentAction` is absent, null or text. */
  datatype SessionUpdated = SessionUpdated(
    id: string, title: Option<string>, state: Option<string>, summary: Option<string>,
    currentAction: Option<Option<string>>, pendingApprovalCount: Option<int>, pendingQuestionCount: Option<int>,
    capabilities: Option<string>, version: int, updatedAt: string)

  datatype ApprovalRequested = ApprovalRequested(
    id: string, sessionId: string, category: string, risk: string, reversible: string, title: string,
    summary: string, decisions: seq<string>, expiresAt: Option<string>, version: int)

  datatype QuestionRequested = QuestionRequested(id: string, sessionId: string, prompt: string,
                                                 options: Option<seq<string>>)

  datatype Snapshot = Snapshot(
    sessions: seq<SessionCreated>, approvals: seq<ApprovalRequested>, questions: seq<QuestionRequested>, sequence: int)

  /** What the store keeps of `command.ack` and `command.nack`: the payload, and which of the two it was. */
  datatype CommandOutcome = CommandOutcome(status: Option<string>, error: Option<string>, ok: bool)

  datatype Event =
    | Started(started: SessionStarted)
    | Created(created: SessionCreated)
    | Updated(updated: SessionUpdated)
    | StateChanged(id: string, state: string, version: int, updatedAt: string)
    | Completed(id: string, summary: Option<string>, version: int, updatedAt: string)
    | Requested(requested: ApprovalRequested)
    | ApprovalUpdated(id: string, state: string, version: int)
    | ApprovalResolved(id: string, state: string, version: int)
    | Asked(asked: QuestionRequested)
    | QuestionResolved(id: string, state: string)
    | CommandAck(commandId: string, status: Option<string>, error: Option<string>)
    | CommandNack(commandId: string, status: Option<string>, error: Option<string>)
    | HostSnapshot(snapshot: Snapshot)
    | Unknown(name: string)

  type Sessions = map<string, Session>
  type Approvals = map<string, Approval>
  type Questions = map<string, Question>

  datatype Replica = Replica(
    sessions: Sessions, approvals: Approvals, questions: Questions, lastSyncSequence: int,
    outcomes: map<string, CommandOutcome>)

  const Blank: Replica := Replica(map[], map[], map[], 0, map[])

  // ---------------------------------------------------------------------
  // Reducers
  // ---------------------------------------------------------------------

  function SessionOf(p: SessionCreated): Session {
    Session(p.id, p.title, p.state, p.summary, p.currentAction,
            Coalesce(p.pendingApprovalCount, 0), Coalesce(p.pendingQuestionCount, 0), Coalesce(p.capabilities, "{}"),
            p.version, p.createdAt, p.updatedAt)
  }

  function HandleCreated(m: Sessions, p: SessionCreated): Sessions {
    if p.id in m && m[p.id].version >= p.version then m else m[p.id := SessionOf(p)]
  }

  function StartedVersion(m: Sessions, p: SessionStarted): int {
    if p.version.Some? then p.version.value else if p.id in m then m[p.id].version + 1 else 1
  }

  /** `now` is the wall clock, used when the payload carries no time. */
  function HandleStarted(m: Sessions, p: SessionStarted, now: string): Sessions {
    var version := StartedVersion(m, p);
    if p.id in m && m[p.id].version >= version then m
    else
      var at := Coalesce(p.updatedAt, now);
      m[p.id :=
        if p.id in m then
          var was := m[p.id];
          Session(p.id, Coalesce(p.title, was.title), Coalesce(p.state, "running"), Coalesce(p.summary, was.summary),
                  if p.currentAction.Some? then p.currentAction else was.currentAction,
                  was.pendingApprovalCount, was.pendingQuestionCount, Coalesce(p.capabilities, was.capabilities),
                  version, Coalesce(p.createdAt, was.createdAt), at)
        else
          Session(p.id, Coalesce(p.title, "Agent session"), Coalesce(p.state, "running"), Coalesce(p.summary, ""),
                  p.currentAction, 0, 0, Coalesce(p.capabilities, "{}"), version, Coalesce(p.createdAt, at), at)]
  }

  function HandleUpdated(m: Sessions, p: SessionUpdated): Sessions {
    if p.id !in m || m[p.id].version >= p.version then m
    else
      var was := m[p.id];
      m[p.id := was.(
        title := Coalesce(p.title, was.title), state := Coalesce(p.state, was.state),
        summary := Coalesce(p.summary, was.summary),
        currentAction := Coalesce(p.currentAction, was.currentAction),
        pendingApprovalCount := Coalesce(p.pendingApprovalCount, was.pendingApprovalCount),
        pendingQuestionCount := Coalesce(p.pendingQuestionCount, was.pendingQuestionCount),
        capabilities := Coalesce(p.capabilities, was.capabilities), version := p.version, updatedAt := p.updatedAt)]
  }

  function HandleStateChanged(m: Sessions, id: string, state: string, version: int, updatedAt: string): Sessions {
    if id !in m || m[id].version >= version then m
    else m[id := m[id].(state := state, version := version, updatedAt := updatedAt)]
  }

  function HandleCompleted(m: Sessions, id: string, summary: Option<string>, version: int,
                           updatedAt: string): Sessions {
    if id !in m || m[id].version >= version then m
    else m[id := m[id].(state := "completed", summary := Coalesce(summary, m[id].summary),
                        version := version, updatedAt := updatedAt)]
  }

  function ApprovalOf(p: ApprovalRequested): Approval {
    Approval(p.id, p.sessionId, p.category, p.risk, p.reversible, p.title, p.summary, p.decisions, "pending",
             p.expiresAt, p.version)
  }

  function HandleRequested(m: Approvals, p: ApprovalRequested): Approvals {
    if p.id in m && m[p.id].version >= p.version then m else m[p.id := ApprovalOf(p)]
  }

  /** `approval.updated` and `approval.resolved` reduce alike: the card stays. */
  function HandleApprovalState(m: Approvals, id: string, state: string, version: int): Approvals {
    if id !in m || m[id].version >= version then m else m[id := m[id].(state := state, version := version)]
  }

  function HandleAsked(m: Questions, p: QuestionRequested): Questions {
    if p.id in m then m else m[p.id := Question(p.id, p.sessionId, p.prompt, p.options, "pending")]
  }

  function HandleQuestionResolved(m: Questions, id: string, state: string): Questions {
    if id !in m then m else m[id := m[id].(state := state)]
  }

  function CreateAll(ps: seq<SessionCreated>): Sessions {
    if ps == [] then map[] else HandleCreated(CreateAll(Front(ps)), Last(ps))
  }

  function RequestAll(ps: seq<ApprovalRequested>): Approvals {
    if ps == [] then map[] else HandleRequested(RequestAll(Front(ps)), Last(ps))
  }

  function AskAll(ps: seq<QuestionRequested>): Questions {
    if ps == [] then map[] else HandleAsked(AskAll(Front(ps)), Last(ps))
  }

  /** `applyEvent`, slice by slice: what an event does to each part of the store. */
  function NextSessions(m: Sessions, e: Event, now: string): Sessions {
    match e
    case Started(p) => HandleStarted(m, p, now)
    case Created(p) => HandleCreated(m, p)
    case Updated(p) => HandleUpdated(m, p)
    case StateChanged(id, state, version, at) => HandleStateChanged(m, id, state, version, at)
    case Completed(id, summary, version, at) => HandleCompleted(m, id, summary, version, at)
    case HostSnapshot(s) => CreateAll(s.sessions)
    case _ => m
  }

  function NextApprovals(m: Approvals, e: Event): Approvals {
    match e
    case Requested(p) => HandleRequested(m, p)
    case ApprovalUpdated(id, state, version) => HandleApprovalState(m, id, state, version)
    case ApprovalResolved(id, state, version) => HandleApprovalState(m, id, state, version)
    case HostSnapshot(s) => RequestAll(s.approvals)
    case _ => m
  }

  function NextQuestions(m: Questions, e: Event): Questions {
    match e
    case Asked(p) => HandleAsked(m, p)
    case QuestionResolved(id, state) => HandleQuestionResolved(m, id, state)
    case HostSnapshot(s) => AskAll(s.questions)
    case _ => m
  }

  function NextOutcomes(m: map<string, CommandOutcome>, e: Event): map<string, CommandOutcome> {
    match e
    case CommandAck(id, status, error) => m[id := CommandOutcome(status, error, true)]
    case CommandNack(id, status, error) => m[id := CommandOutcome(status, error, false)]
    case _ => m
  }

  function Apply(r: Replica, e: Event, now: string): Replica {
    Replica(
      NextSessions(r.sessions, e, now),
      NextApprovals(r.approvals, e),
      NextQuestions(r.questions, e),
      if e.HostSnapshot? then e.snapshot.sequence else r.lastSyncSequence,
      NextOutcomes(r.outcomes, e))
  }

  // ---------------------------------------------------------------------
  // The store
  // ---------------------------------------------------------------------

  class Store {
    var connectionStatus: string
    var sessions: Sessions
    var pendingApprovals: Approvals
    var pendingQuestions: Questions
    var lastSyncSequence: int
    var commandOutcomes: map<string, CommandOutcome>

    constructor ()
      ensures State() == Blank && connectionStatus == "disconnected"
    {
      connectionStatus := "disconnected";
      sessions, pendingApprovals, pendingQuestions, lastSyncSequence, commandOutcomes := map[], map[], map[], 0, map[];
    }

    ghost function State(): Replica
      reads this
    {
      Replica(sessions, pendingApprovals, pendingQuestions, lastSyncSequence, commandOutcomes)
    }

    method ApplyEvent(e: Event, now: string)
      modifies this
      ensures State() == Apply(old(State()), e, now)
      ensures connectionStatus == old(connectionStatus)
    {
      match e {
        case Started(p) => sessions := HandleStarted(sessions, p, now);
        case Created(p) => sessions := HandleCreated(sessions, p);
        case Updated(p) => sessions := HandleUpdated(sessions, p);
        case StateChanged(id, state, version, at) => sessions := HandleStateChanged(sessions, id, state, version, at);
        case Completed(id, summary, version, at) => sessions := HandleCompleted(sessions, id, summary, version, at);
        case Requested(p) => pendingApprovals := HandleRequested(pendingApprovals, p);
        case ApprovalUpdated(id, state, version) =>
          pendingApprovals := HandleApprovalState(pendingApprovals, id, state, version);
        case ApprovalResolved(id, state, version) =>
          pendingApprovals := HandleApprovalState(pendingApprovals, id, state, version);
        case Asked(p) => pendingQuestions := HandleAsked(pendingQuestions, p);
        case QuestionResolved(id, state) => pendingQuestions := HandleQuestionResolved(pendingQuestions, id, state);
        case CommandAck(id, status, error) =>
          commandOutcomes := commandOutcomes[id := CommandOutcome(status, error, true)];
        case CommandNack(id, status, error) =>
          commandOutcomes := commandOutcomes[id := CommandOutcome(status, error, false)];
        case HostSnapshot(snapshot) => ApplySnapshot(snapshot);
        case Unknown(_) =>
      }
    }

    /** The snapshot loops: they start from empty maps, so nothing of the old replica survives. */
    method ApplySnapshot(snapshot: Snapshot)
      modifies this`sessions, this`pendingApprovals, this`pendingQuestions, this`lastSyncSequence
      ensures State() == Apply(old(State()), HostSnapshot(snapshot), "")
    {
      var newSessions: Sessions := map[];
      var i := 0;
      while i < |snapshot.sessions|
        invariant 0 <= i <= |snapshot.sessions| && newSessions == CreateAll(snapshot.sessions[..i])
      {
        assert Front(snapshot.sessions[..i + 1]) == snapshot.sessions[..i];
        newSessions := HandleCreated(newSessions, snapshot.sessions[i]);
        i := i + 1;
      }
      assert snapshot.sessions[..i] == snapshot.sessions;
      var newApprovals: Approvals := map[];
      i := 0;
      while i < |snapshot.approvals|
        invariant 0 <= i <= |snapshot.approvals| && newApprovals == RequestAll(snapshot.approvals[..i])
      {
        assert Front(snapshot.approvals[..i + 1]) == snapshot.approvals[..i];
        newApprovals := HandleRequested(newApprovals, snapshot.approvals[i]);
        i := i + 1;
      }
      assert snapshot.approvals[..i] == snapshot.approvals;
      var newQuestions: Questions := map[];
      i := 0;
      while i < |snapshot.questions|
        invariant 0 <= i <= |snapshot.questions| && newQuestions == AskAll(snapshot.questions[..i])
      {
        assert Front(snapshot.questions[..i + 1]) == snapshot.questions[..i];
        newQuestions := HandleAsked(newQuestions, snapshot.questions[i]);
        i := i + 1;
      }
      assert snapshot.questions[..i] == snapshot.questions;
      sessions, pendingApprovals, pendingQuestions := newSessions, newApprovals, newQuestions;
      lastSyncSequence := snapshot.sequence;
    }

    method SetConnectionStatus(status: string)
      modifies this`connectionStatus
      ensures connectionStatus == status
    {
      connectionStatus := status;
    }

    /** `reset`: back to the initial state. */
    method Reset()
      modifies this
      ensures State() == Blank && connectionStatus == "disconnected"
    {
      connectionStatus := "disconnected";
      sessions, pendingApprovals, pendingQuestions, lastSyncSequence, commandOutcomes := map[], map[], map[], 0, map[];
    }
  }
}
