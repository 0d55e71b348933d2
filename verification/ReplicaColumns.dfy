/** What the phone's records say: every column holds the value that the last effective event gave
    it. The five session reducers, written one by one, follow one rule. */
module ReplicaColumns {
  import opened Common
  import opened SessionStore
  import opened DeliverySafety

  // ---------------------------------------------------------------------
  // What a delivery says about each column
  // ---------------------------------------------------------------------

  /** The record an event may write. */
  function About(e: Event): Option<Slot> {
    match e
    case Started(p) => Some(SessionSlot(p.id))
    case QuestionResolved(id, _) => Some(QuestionSlot(id))
    case _ => if Versioned(e).Some? then Some(Versioned(e).value.0) else None
  }

  /** It writes it unless it is stale; a question's resolution needs the question to be there. */
  predicate Effective(r: Replica, e: Event, slot: Slot) {
    About(e) == Some(slot) && !Stale(r, e) && (e.QuestionResolved? ==> VersionAt(r, slot).Some?)
  }

  /** The deliveries that wrote a record, in order. */
  function Effects(r: Replica, ds: seq<Delivery>, slot: Slot): seq<Delivery> {
    if ds == [] then []
    else Effects(r, Front(ds), slot) + (if Effective(Run(r, Front(ds)), Last(ds).event, slot) then [Last(ds)] else [])
  }

  /** The last value given, or `base` if none was. */
  function LastGiven<T>(es: seq<Delivery>, given: Delivery -> Option<T>, base: T): T {
    if es == [] then base
    else if given(Last(es)).Some? then given(Last(es)).value
    else LastGiven(Front(es), given, base)
  }

  function Id(d: Delivery): Option<string> {
    match d.event
    case Created(p) => Some(p.id)
    case Started(p) => Some(p.id)
    case _ => None
  }

  function Title(d: Delivery): Option<string> {
    match d.event
    case Created(p) => Some(p.title)
    case Started(p) => p.title
    case Updated(p) => p.title
    case _ => None
  }

  function State(d: Delivery): Option<string> {
    match d.event
    case Created(p) => Some(p.state)
    case Started(p) => Some(Coalesce(p.state, "running"))
    case Updated(p) => p.state
    case StateChanged(_, state, _, _) => Some(state)
    case Completed(_, _, _, _) => Some("completed")
    case _ => None
  }

  function Summary(d: Delivery): Option<string> {
    match d.event
    case Created(p) => Some(p.summary)
    case Started(p) => p.summary
    case Updated(p) => p.summary
    case Completed(_, summary, _, _) => summary
    case _ => None
  }

  /** `session.updated` can set the action to null; `session.started` cannot. */
  function CurrentAction(d: Delivery): Option<Option<string>> {
    match d.event
    case Created(p) => Some(p.currentAction)
    case Started(p) => if p.currentAction.Some? then Some(p.currentAction) else None
    case Updated(p) => p.currentAction
    case _ => None
  }

  function ApprovalCount(d: Delivery): Option<int> {
    match d.event
    case Created(p) => Some(Coalesce(p.pendingApprovalCount, 0))
    case Updated(p) => p.pendingApprovalCount
    case _ => None
  }

  function QuestionCount(d: Delivery): Option<int> {
    match d.event
    case Created(p) => Some(Coalesce(p.pendingQuestionCount, 0))
    case Updated(p) => p.pendingQuestionCount
    case _ => None
  }

  function Capabilities(d: Delivery): Option<string> {
    match d.event
    case Created(p) => Some(Coalesce(p.capabilities, "{}"))
    case Started(p) => p.capabilities
    case Updated(p) => p.capabilities
    case _ => None
  }

  function UpdatedAt(d: Delivery): Option<string> {
    match d.event
    case Created(p) => Some(p.updatedAt)
    case Started(p) => Some(Coalesce(p.updatedAt, d.now))
    case Updated(p) => Some(p.updatedAt)
    case StateChanged(_, _, _, at) => Some(at)
    case Completed(_, _, _, at) => Some(at)
    case _ => None
  }

  function CreatedAt(d: Delivery): Option<string> {
    match d.event
    case Created(p) => Some(p.createdAt)
    case Started(p) => p.createdAt
    case _ => None
  }

  /** What a session is before any event gave it anything: the defaults of `session.started`. */
  function FirstSession(id: string, es: seq<Delivery>): Session {
    var at := if es != [] && UpdatedAt(es[0]).Some? then UpdatedAt(es[0]).value else "";
    Session(id, "Agent session", "running", "", None, 0, 0, "{}", 0, at, "")
  }

  // ---------------------------------------------------------------------
  // Sessions
  // ---------------------------------------------------------------------

  /** Every column but the version, which `VersionsRise` is about. */
  ghost predicate SessionSays(s: Session, base: Session, es: seq<Delivery>) {
    && s.id == LastGiven(es, Id, base.id)
    && s.title == LastGiven(es, Title, base.title)
    && s.state == LastGiven(es, State, base.state)
    && s.summary == LastGiven(es, Summary, base.summary)
    && s.currentAction == LastGiven(es, CurrentAction, base.currentAction)
    && s.pendingApprovalCount == LastGiven(es, ApprovalCount, base.pendingApprovalCount)
    && s.pendingQuestionCount == LastGiven(es, QuestionCount, base.pendingQuestionCount)
    && s.capabilities == LastGiven(es, Capabilities, base.capabilities)
    && s.updatedAt == LastGiven(es, UpdatedAt, base.updatedAt)
    && s.createdAt == LastGiven(es, CreatedAt, base.createdAt)
  }

  lemma LastGivenSnoc<T>(es: seq<Delivery>, d: Delivery, given: Delivery -> Option<T>, base: T)
    ensures LastGiven(es + [d], given, base) == Coalesce(given(d), LastGiven(es, given, base))
  {
    assert Front(es + [d]) == es;
  }

  /** One delivery: each column is what it gives, or what was there. */
  ghost predicate Says(s: Session, base: Session, d: Delivery) {
    && s.id == Coalesce(Id(d), base.id)
    && s.title == Coalesce(Title(d), base.title)
    && s.state == Coalesce(State(d), base.state)
    && s.summary == Coalesce(Summary(d), base.summary)
    && s.currentAction == Coalesce(CurrentAction(d), base.currentAction)
    && s.pendingApprovalCount == Coalesce(ApprovalCount(d), base.pendingApprovalCount)
    && s.pendingQuestionCount == Coalesce(QuestionCount(d), base.pendingQuestionCount)
    && s.capabilities == Coalesce(Capabilities(d), base.capabilities)
    && s.updatedAt == Coalesce(UpdatedAt(d), base.updatedAt)
    && s.createdAt == Coalesce(CreatedAt(d), base.createdAt)
  }

  /** One effective event on one session, whatever its type. */
  lemma SessionWritten(r: Replica, d: Delivery, id: string)
    requires Effective(r, d.event, SessionSlot(id))
    ensures var q := Apply(r, d.event, d.now);
            id in q.sessions
                && Says(q.sessions[id], if id in r.sessions then r.sessions[id] else FirstSession(id, [d]), d)
  {
  }

  /** And the version: the one the event carries, or the next one. */
  lemma VersionWritten(r: Replica, d: Delivery, slot: Slot)
    requires Effective(r, d.event, slot) && !slot.QuestionSlot?
    ensures VersionAt(Apply(r, d.event, d.now), slot)
         == Some(if Versioned(d.event).Some? then Versioned(d.event).value.1 else Coalesce(VersionAt(r, slot), 0) + 1)
  {
  }

  lemma SessionLeftAlone(r: Replica, d: Delivery, id: string)
    requires !d.event.HostSnapshot? && !Effective(r, d.event, SessionSlot(id))
    ensures var q := Apply(r, d.event, d.now);
            (id in q.sessions <==> id in r.sessions) && (id in q.sessions ==> q.sessions[id] == r.sessions[id])
  {
  }

  lemma SessionChain(s: Session, t: Session, base: Session, es: seq<Delivery>, d: Delivery)
    requires SessionSays(s, base, es) && Says(t, s, d)
    ensures SessionSays(t, base, es + [d])
  {
    hide LastGiven;
    LastGivenSnoc(es, d, Id, base.id);
    LastGivenSnoc(es, d, Title, base.title);
    LastGivenSnoc(es, d, State, base.state);
    LastGivenSnoc(es, d, Summary, base.summary);
    LastGivenSnoc(es, d, CurrentAction, base.currentAction);
    LastGivenSnoc(es, d, ApprovalCount, base.pendingApprovalCount);
    LastGivenSnoc(es, d, QuestionCount, base.pendingQuestionCount);
    LastGivenSnoc(es, d, Capabilities, base.capabilities);
    LastGivenSnoc(es, d, UpdatedAt, base.updatedAt);
    LastGivenSnoc(es, d, CreatedAt, base.createdAt);
  }

  /** Whatever is delivered, repeated or reordered: a session shows in each column what the last
      effective event said about it, starting from what it was before, or from the defaults. */
  lemma {:induction false} SessionColumns(r: Replica, ds: seq<Delivery>, id: string)
    requires forall i :: 0 <= i < |ds| ==> !ds[i].event.HostSnapshot?
    ensures var q := Run(r, ds);
            var es := Effects(r, ds, SessionSlot(id));
            && (id in q.sessions <==> id in r.sessions || es != [])
            && (id in q.sessions ==>
                  SessionSays(q.sessions[id], if id in r.sessions then r.sessions[id] else FirstSession(id, es), es))
  {
    hide Apply, Effective, FirstSession, SessionSays, Says;
    if ds == [] {
      if id in r.sessions {
        NothingSaid(r.sessions[id]);
      }
    } else {
      var q, d := Run(r, Front(ds)), Last(ds);
      var es := Effects(r, Front(ds), SessionSlot(id));
      SessionColumns(r, Front(ds), id);
      assert es + [] == es;
      if !Effective(q, d.event, SessionSlot(id)) {
        SessionLeftAlone(q, d, id);
      } else {
        SessionWritten(q, d, id);
        var base := if id in r.sessions then r.sessions[id] else FirstSession(id, es + [d]);
        if id in q.sessions {
          SameFirst(id, es, d);
          SessionChain(q.sessions[id], Run(r, ds).sessions[id], base, es, d);
        } else {
          assert es == [] && [] + [d] == [d];
          NothingSaid(base);
          SessionChain(base, Run(r, ds).sessions[id], base, [], d);
        }
      }
    }
  }

  lemma NothingSaid(s: Session)
    ensures SessionSays(s, s, [])
  {
  }

  lemma SameFirst(id: string, es: seq<Delivery>, d: Delivery)
    ensures es != [] ==> FirstSession(id, es + [d]) == FirstSession(id, es)
  {
  }

  // ---------------------------------------------------------------------
  // Approvals and questions
  // ---------------------------------------------------------------------

  /** The card of the last effective request, with the state given since. */
  function LastRequest(es: seq<Delivery>, base: Option<Approval>): Option<Approval> {
    if es == [] then base
    else
      match Last(es).event
      case Requested(p) =>
        Some(Approval(p.id, p.sessionId, p.category, p.risk, p.reversible, p.title, p.summary, p.decisions,
                      "pending", p.expiresAt, p.version))
      case ApprovalUpdated(_, state, version) => Restated(LastRequest(Front(es), base), state, version)
      case ApprovalResolved(_, state, version) => Restated(LastRequest(Front(es), base), state, version)
      case _ => LastRequest(Front(es), base)
  }

  function Restated(a: Option<Approval>, state: string, version: int): Option<Approval> {
    if a.None? then None else Some(a.value.(state := state, version := version))
  }

  function CardOf(r: Replica, id: string): Option<Approval> {
    if id in r.approvals then Some(r.approvals[id]) else None
  }

  lemma ApprovalStep(r: Replica, d: Delivery, id: string)
    requires !d.event.HostSnapshot?
    ensures CardOf(Apply(r, d.event, d.now), id)
         == if Effective(r, d.event, ApprovalSlot(id)) then LastRequest([d], CardOf(r, id)) else CardOf(r, id)
  {
    assert Front([d]) == [];
  }

  lemma LastRequestSnoc(es: seq<Delivery>, d: Delivery, base: Option<Approval>)
    ensures LastRequest(es + [d], base) == LastRequest([d], LastRequest(es, base))
  {
    assert Front(es + [d]) == es && Front([d]) == [];
  }

  /** An approval card shows the last effective request, in the state of the last effective update. */
  lemma {:induction false} ApprovalColumns(r: Replica, ds: seq<Delivery>, id: string)
    requires forall i :: 0 <= i < |ds| ==> !ds[i].event.HostSnapshot?
    ensures CardOf(Run(r, ds), id) == LastRequest(Effects(r, ds, ApprovalSlot(id)), CardOf(r, id))
  {
    hide Apply, Effective, LastRequest, CardOf;
    var es := Effects(r, ds, ApprovalSlot(id));
    if ds == [] {
      NoRequest(CardOf(r, id));
    } else {
      var before := Effects(r, Front(ds), ApprovalSlot(id));
      ApprovalColumns(r, Front(ds), id);
      ApprovalStep(Run(r, Front(ds)), Last(ds), id);
      LastRequestSnoc(before, Last(ds), CardOf(r, id));
      assert before + [] == before;
    }
  }

  lemma NoRequest(base: Option<Approval>)
    ensures LastRequest([], base) == base
  {
  }

  /** The first question asked under an id, in the state given last. */
  function FirstQuestion(es: seq<Delivery>, base: Option<Question>): Option<Question> {
    if es == [] then base
    else
      var was := FirstQuestion(Front(es), base);
      match Last(es).event
      case Asked(p) => if was.Some? then was else Some(Question(p.id, p.sessionId, p.prompt, p.options, "pending"))
      case QuestionResolved(_, state) => if was.Some? then Some(was.value.(state := state)) else None
      case _ => was
  }

  function QuestionOf(r: Replica, id: string): Option<Question> {
    if id in r.questions then Some(r.questions[id]) else None
  }

  lemma QuestionStep(r: Replica, d: Delivery, id: string)
    requires !d.event.HostSnapshot?
    ensures QuestionOf(Apply(r, d.event, d.now), id)
         == if Effective(r, d.event, QuestionSlot(id)) then FirstQuestion([d], QuestionOf(r, id)) else QuestionOf(r, id)
  {
    assert Front([d]) == [];
  }

  /** A question shows what was asked first under its id, in the state given last. */
  lemma {:induction false} QuestionColumns(r: Replica, ds: seq<Delivery>, id: string)
    requires forall i :: 0 <= i < |ds| ==> !ds[i].event.HostSnapshot?
    ensures QuestionOf(Run(r, ds), id) == FirstQuestion(Effects(r, ds, QuestionSlot(id)), QuestionOf(r, id))
  {
    hide Apply, Effective, FirstQuestion, QuestionOf;
    if ds == [] {
      NoQuestion(QuestionOf(r, id));
    } else {
      var before := Effects(r, Front(ds), QuestionSlot(id));
      QuestionColumns(r, Front(ds), id);
      QuestionStep(Run(r, Front(ds)), Last(ds), id);
      FirstQuestionSnoc(before, Last(ds), QuestionOf(r, id));
      assert before + [] == before;
    }
  }

  lemma FirstQuestionSnoc(es: seq<Delivery>, d: Delivery, base: Option<Question>)
    ensures FirstQuestion(es + [d], base) == FirstQuestion([d], FirstQuestion(es, base))
  {
    assert Front(es + [d]) == es && Front([d]) == [];
  }

  lemma NoQuestion(base: Option<Question>)
    ensures FirstQuestion([], base) == base
  {
  }

  // ---------------------------------------------------------------------
  // Command outcomes and the cursor
  // ---------------------------------------------------------------------

  /** The last answer to a command in a trace: the payload of a `command.ack` or a `command.nack`. */
  function LastAnswer(ds: seq<Delivery>, id: string): Option<CommandOutcome> {
    if ds == [] then None
    else
      match Last(ds).event
      case CommandAck(command, status, error) =>
        if command == id then Some(CommandOutcome(status, error, true)) else LastAnswer(Front(ds), id)
      case CommandNack(command, status, error) =>
        if command == id then Some(CommandOutcome(status, error, false)) else LastAnswer(Front(ds), id)
      case _ => LastAnswer(Front(ds), id)
  }

  function LastWatermark(ds: seq<Delivery>, base: int): int {
    if ds == [] then base
    else if Last(ds).event.HostSnapshot? then Last(ds).event.snapshot.sequence
    else LastWatermark(Front(ds), base)
  }

  function OutcomeOf(r: Replica, id: string): Option<CommandOutcome> {
    if id in r.outcomes then Some(r.outcomes[id]) else None
  }

  /** Over any trace, snapshots included, the store holds for each command the last answer to it, or
      else what it held before: no other answer and no other event touches it. */
  lemma {:induction false} OutcomeColumns(r: Replica, ds: seq<Delivery>, id: string)
    ensures OutcomeOf(Run(r, ds), id) == if LastAnswer(ds, id).Some? then LastAnswer(ds, id) else OutcomeOf(r, id)
  {
    hide NextSessions, NextApprovals, NextQuestions;
    if ds != [] {
      OutcomeColumns(r, Front(ds), id);
    }
  }

  /** And the cursor is the watermark of the last snapshot. */
  lemma {:induction false} CursorIsWatermark(r: Replica, ds: seq<Delivery>)
    ensures Run(r, ds).lastSyncSequence == LastWatermark(ds, r.lastSyncSequence)
  {
    hide NextSessions, NextApprovals, NextQuestions, NextOutcomes;
    if ds != [] {
      CursorIsWatermark(r, Front(ds));
    }
  }

  // ---------------------------------------------------------------------
  // Repeated resolutions
  // ---------------------------------------------------------------------

  function Resolution(d: Delivery): Option<string> {
    if d.event.QuestionResolved? then Some(d.event.state) else None
  }

  /** The state a question is in: that of the last effective resolution, else what it was before, or
      pending when it was asked since. */
  lemma {:induction false} LastResolution(es: seq<Delivery>, base: Option<Question>)
    requires base.None? ==> es == [] || es[0].event.Asked?
    ensures FirstQuestion(es, base).Some? ==>
              FirstQuestion(es, base).value.state
              == LastGiven(es, Resolution, if base.Some? then base.value.state else "pending")
    ensures FirstQuestion(es, base).Some? <==> base.Some? || es != []
  {
    if es != [] {
      assert |es| > 1 ==> Front(es)[0] == es[0];
      LastResolution(Front(es), base);
    }
  }

  /** In an effective history of an absent question the first delivery is the asking. */
  lemma {:induction false} AskedFirst(r: Replica, ds: seq<Delivery>, id: string)
    requires id !in r.questions && forall i :: 0 <= i < |ds| ==> !ds[i].event.HostSnapshot?
    ensures var es := Effects(r, ds, QuestionSlot(id)); es == [] || es[0].event.Asked?
  {
    hide Apply, FirstQuestion;
    if ds != [] {
      AskedFirst(r, Front(ds), id);
      QuestionColumns(r, Front(ds), id);
      var before := Effects(r, Front(ds), QuestionSlot(id));
      if before == [] {
        NoQuestion(QuestionOf(r, id));
      }
    }
  }

  /** Exactly when delivering a resolution after a trace changes nothing: the question is not there,
      or the last effective resolution in the trace gave the same state. */
  lemma RepeatedResolutionIff(r: Replica, ds: seq<Delivery>, id: string, state: string, now: string)
    requires forall i :: 0 <= i < |ds| ==> !ds[i].event.HostSnapshot?
    ensures var q := Run(r, ds);
            var first := if id in r.questions then r.questions[id].state else "pending";
            Apply(q, QuestionResolved(id, state), now) == q <==>
              id !in q.questions || LastGiven(Effects(r, ds, QuestionSlot(id)), Resolution, first) == state
  {
    hide Apply, Effects, FirstQuestion, LastGiven;
    HarmlessIff(Run(r, ds), QuestionResolved(id, state), now);
    QuestionColumns(r, ds, id);
    if id !in r.questions {
      AskedFirst(r, ds, id);
    }
    LastResolution(Effects(r, ds, QuestionSlot(id)), QuestionOf(r, id));
  }

  // ---------------------------------------------------------------------
  // When a record survives a trace
  // ---------------------------------------------------------------------

  lemma LeftAlone(r: Replica, d: Delivery, slot: Slot)
    requires !slot.QuestionSlot? && !d.event.HostSnapshot? && !Effective(r, d.event, slot)
    ensures SameRecord(r, Apply(r, d.event, d.now), slot)
    ensures VersionAt(Apply(r, d.event, d.now), slot) == VersionAt(r, slot)
  {
  }

  lemma EffectRaises(r: Replica, d: Delivery, slot: Slot)
    requires !slot.QuestionSlot? && Effective(r, d.event, slot) && VersionAt(r, slot).Some?
    ensures var q := Apply(r, d.event, d.now);
            VersionAt(q, slot).Some? && VersionAt(q, slot).value > VersionAt(r, slot).value
  {
  }

  /** A record is the same after a trace if and only if every event about it was stale from the
      start. An unversioned `session.started` is never stale. */
  lemma {:induction false} RecordKeptIff(r: Replica, ds: seq<Delivery>, slot: Slot)
    requires !slot.QuestionSlot? && VersionAt(r, slot).Some?
    requires forall i :: 0 <= i < |ds| ==> !ds[i].event.HostSnapshot?
    ensures SameRecord(r, Run(r, ds), slot) <==>
              forall i :: 0 <= i < |ds| && About(ds[i].event) == Some(slot) ==> Stale(r, ds[i].event)
    ensures SameRecord(r, Run(r, ds), slot) <==> VersionAt(Run(r, ds), slot) == VersionAt(r, slot)
  {
    hide Apply, About, VersionAt, SameRecord;
    if ds == [] {
      SameMeans(r, r, slot);
    } else {
      var m, d := Run(r, Front(ds)), Last(ds);
      RecordKeptIff(r, Front(ds), slot);
      VersionsNeverFall(r, Front(ds), slot);
      assert ds == Front(ds) + [d];
      assert forall i :: 0 <= i < |ds| - 1 ==> Front(ds)[i] == ds[i];
      SameMeans(r, m, slot);
      SameMeans(r, Run(r, ds), slot);
      if Effective(m, d.event, slot) {
        EffectRaises(m, d, slot);
        StaleAlike(r, m, d.event, slot);
      } else {
        LeftAlone(m, d, slot);
        SameMeans(m, Run(r, ds), slot);
        if About(d.event) == Some(slot) {
          StaleAlike(r, m, d.event, slot);
        }
      }
    }
  }

  lemma SameMeans(r: Replica, q: Replica, slot: Slot)
    ensures SameRecord(r, q, slot) ==> VersionAt(r, slot) == VersionAt(q, slot)
    ensures r == q ==> SameRecord(r, q, slot)
    ensures forall p :: SameRecord(r, q, slot) ==> (SameRecord(q, p, slot) <==> SameRecord(r, p, slot))
  {
  }

  lemma StaleAlike(r: Replica, q: Replica, e: Event, slot: Slot)
    requires About(e) == Some(slot) && !slot.QuestionSlot?
    ensures VersionAt(r, slot) == VersionAt(q, slot) ==> (Stale(r, e) <==> Stale(q, e))
    ensures (&& VersionAt(r, slot).Some? && VersionAt(q, slot).Some?
             && VersionAt(r, slot).value <= VersionAt(q, slot).value && Stale(r, e)) ==> Stale(q, e)
    ensures Effective(q, e, slot) <==> !Stale(q, e)
  {
  }

  // ---------------------------------------------------------------------
  // Records that are not there, and questions that are
  // ---------------------------------------------------------------------

  /** Can this event bring the record into being? */
  predicate CreatesAt(e: Event, slot: Slot) {
    About(e) == Some(slot) && Creates(e)
  }

  ghost predicate SomeCreates(ds: seq<Delivery>, slot: Slot) {
    exists i :: 0 <= i < |ds| && CreatesAt(ds[i].event, slot)
  }

  lemma CreatesStep(r: Replica, d: Delivery, slot: Slot)
    requires !d.event.HostSnapshot?
    ensures VersionAt(Apply(r, d.event, d.now), slot).Some? <==> VersionAt(r, slot).Some? || CreatesAt(d.event, slot)
  {
  }

  /** A record that is absent is there after a trace if and only if some event of the trace creates
      it, whatever version that event carries and whatever else is delivered. */
  lemma {:induction false} AbsentUntilCreated(r: Replica, ds: seq<Delivery>, slot: Slot)
    requires VersionAt(r, slot).None? && forall i :: 0 <= i < |ds| ==> !ds[i].event.HostSnapshot?
    ensures VersionAt(Run(r, ds), slot).Some? <==> SomeCreates(ds, slot)
  {
    hide Apply, CreatesAt, VersionAt;
    if ds != [] {
      AbsentUntilCreated(r, Front(ds), slot);
      CreatesStep(Run(r, Front(ds)), Last(ds), slot);
      assert forall i :: 0 <= i < |ds| - 1 ==> Front(ds)[i] == ds[i];
      assert Last(ds) == ds[|ds| - 1];
    }
  }

  /** The state that the last resolution of a question gave it. */
  function StateGiven(ds: seq<Delivery>, id: string, base: string): string {
    if ds == [] then base
    else if Last(ds).event.QuestionResolved? && Last(ds).event.id == id then Last(ds).event.state
    else StateGiven(Front(ds), id, base)
  }

  /** Of a question that is there, any trace changes the state alone, to the one given last. */
  lemma {:induction false} QuestionAfter(r: Replica, ds: seq<Delivery>, id: string)
    requires id in r.questions && forall i :: 0 <= i < |ds| ==> !ds[i].event.HostSnapshot?
    ensures var q := Run(r, ds);
            && id in q.questions
            && q.questions[id] == r.questions[id].(state := StateGiven(ds, id, r.questions[id].state))
  {
    hide Apply;
    if ds != [] {
      QuestionAfter(r, Front(ds), id);
      QuestionOnce(Run(r, Front(ds)), Last(ds), id);
    }
  }

  lemma QuestionOnce(r: Replica, d: Delivery, id: string)
    requires id in r.questions && !d.event.HostSnapshot?
    ensures var q := Apply(r, d.event, d.now);
            && id in q.questions
            && q.questions[id] == (if d.event.QuestionResolved? && d.event.id == id
                                   then r.questions[id].(state := d.event.state) else r.questions[id])
  {
  }
}
