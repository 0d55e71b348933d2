/** Delivery is at least once and may be repeated: why the phone's replica is safe under it. */
module DeliverySafety {
  import opened Common
  import opened SessionStore

  /** An event as it reaches the store, with the wall clock at that moment. */
  datatype Delivery = Delivery(event: Event, now: string)

  function Run(r: Replica, ds: seq<Delivery>): Replica {
    if ds == [] then r else Apply(Run(r, Front(ds)), Last(ds).event, Last(ds).now)
  }

  // ---------------------------------------------------------------------
  // Records, their versions, and the events that concern them
  // ---------------------------------------------------------------------

  datatype Slot = SessionSlot(id: string) | ApprovalSlot(id: string) | QuestionSlot(id: string)

  /** The version stored for a record. Questions have none; being there counts as version 0. */
  function VersionAt(r: Replica, slot: Slot): Option<int> {
    match slot
    case SessionSlot(id) => if id in r.sessions then Some(r.sessions[id].version) else None
    case ApprovalSlot(id) => if id in r.approvals then Some(r.approvals[id].version) else None
    case QuestionSlot(id) => if id in r.questions then Some(0) else None
  }

  predicate SameRecord(r: Replica, q: Replica, slot: Slot) {
    match slot
    case SessionSlot(id) =>
      (id in r.sessions <==> id in q.sessions) && (id in r.sessions ==> r.sessions[id] == q.sessions[id])
    case ApprovalSlot(id) =>
      (id in r.approvals <==> id in q.approvals) && (id in r.approvals ==> r.approvals[id] == q.approvals[id])
    case QuestionSlot(id) => id in r.questions <==> id in q.questions
  }

  /** The record an event is about and the version it carries. Events without one can apply
      every time they are delivered. */
  function Versioned(e: Event): Option<(Slot, int)> {
    match e
    case Started(p) => if p.version.Some? then Some((SessionSlot(p.id), p.version.value)) else None
    case Created(p) => Some((SessionSlot(p.id), p.version))
    case Updated(p) => Some((SessionSlot(p.id), p.version))
    case StateChanged(id, _, version, _) => Some((SessionSlot(id), version))
    case Completed(id, _, version, _) => Some((SessionSlot(id), version))
    case Requested(p) => Some((ApprovalSlot(p.id), p.version))
    case ApprovalUpdated(id, _, version) => Some((ApprovalSlot(id), version))
    case ApprovalResolved(id, _, version) => Some((ApprovalSlot(id), version))
    case Asked(p) => Some((QuestionSlot(p.id), 0))
    case _ => None
  }

  predicate Creates(e: Event) {
    e.Started? || e.Created? || e.Requested? || e.Asked?
  }

  /** The guard: the record is already at this version or a later one, or the event cannot
      create the record it is about. */
  predicate Stale(r: Replica, e: Event) {
    Versioned(e).Some? &&
    var (slot, version) := Versioned(e).value;
    if VersionAt(r, slot).Some? then VersionAt(r, slot).value >= version else !Creates(e)
  }

  /** A delivery changes nothing exactly when the guard says so. */
  lemma NoOpIffStale(r: Replica, e: Event, now: string)
    requires Versioned(e).Some?
    ensures Apply(r, e, now) == r <==> Stale(r, e)
  {
    var (slot, version) := Versioned(e).value;
    assert !Stale(r, e) ==> VersionAt(Apply(r, e, now), slot) == Some(version);
  }

  /** `session.started` without a version takes the next one, so it always applies. */
  lemma UnversionedAlwaysApplies(r: Replica, p: SessionStarted, now: string)
    requires p.version == None
    ensures Apply(r, Started(p), now) != r
    ensures VersionAt(Apply(r, Started(p), now), SessionSlot(p.id))
              == Some(Coalesce(VersionAt(r, SessionSlot(p.id)), 0) + 1)
  {
  }

  function Repeats(e: Event, nows: seq<string>): seq<Delivery> {
    seq(|nows|, i requires 0 <= i < |nows| => Delivery(e, nows[i]))
  }

  /** So no number of earlier deliveries makes the next one harmless: each raises the version. */
  lemma {:induction false} EveryRepeatApplies(r: Replica, p: SessionStarted, nows: seq<string>)
    requires p.version == None && nows != []
    ensures VersionAt(Run(r, Repeats(Started(p), nows)), SessionSlot(p.id))
         == Some(Coalesce(VersionAt(r, SessionSlot(p.id)), 0) + |nows|)
  {
    hide Apply;
    var ds := Repeats(Started(p), nows);
    assert Front(ds) == Repeats(Started(p), Front(nows));
    UnversionedAlwaysApplies(Run(r, Front(ds)), p, Last(nows));
    if |nows| > 1 {
      EveryRepeatApplies(r, p, Front(nows));
    }
  }

  /** The state a delivery would leave as it is, for every kind of event but a snapshot. */
  predicate Harmless(r: Replica, e: Event) {
    match e
    case QuestionResolved(id, state) => id in r.questions ==> r.questions[id].state == state
    case CommandAck(id, status, error) => id in r.outcomes && r.outcomes[id] == CommandOutcome(status, error, true)
    case CommandNack(id, status, error) => id in r.outcomes && r.outcomes[id] == CommandOutcome(status, error, false)
    case Unknown(_) => true
    case _ => Stale(r, e)
  }

  /** When a delivery changes nothing, exactly. An unversioned `session.started` is never stale. */
  lemma HarmlessIff(r: Replica, e: Event, now: string)
    requires !e.HostSnapshot?
    ensures Apply(r, e, now) == r <==> Harmless(r, e)
  {
    if Versioned(e).Some? {
      NoOpIffStale(r, e, now);
    } else if e.Started? {
      UnversionedAlwaysApplies(r, e.started, now);
    } else if e.QuestionResolved? && e.id in r.questions {
      assert Apply(r, e, now).questions[e.id].state == e.state;
    } else if e.CommandAck? || e.CommandNack? {
      assert Apply(r, e, now).outcomes[e.commandId] == CommandOutcome(e.status, e.error, e.CommandAck?);
    }
  }

  /** Of a question only the state can differ. */
  predicate AskedAlike(r: Replica, q: Replica, slot: Slot) {
    slot.QuestionSlot? ==>
      && slot.id in r.questions && slot.id in q.questions
      && q.questions[slot.id] == r.questions[slot.id].(state := q.questions[slot.id].state)
  }

  /** Does a delivery resolve this question? */
  predicate ResolvesSlot(e: Event, slot: Slot) {
    e.QuestionResolved? && slot == QuestionSlot(e.id)
  }

  /** No event but a snapshot lowers a version or removes a record. A session or an approval changes
      only when its version strictly rises, of a question only the state changes, and only by its
      resolution. */
  lemma VersionsRise(r: Replica, e: Event, now: string, slot: Slot)
    requires !e.HostSnapshot? && VersionAt(r, slot).Some?
    ensures var q := Apply(r, e, now);
            && VersionAt(q, slot).Some? && VersionAt(q, slot).value >= VersionAt(r, slot).value
            && (VersionAt(q, slot) == VersionAt(r, slot) ==> SameRecord(r, q, slot))
            && AskedAlike(r, q, slot)
            && (slot.QuestionSlot? && !ResolvesSlot(e, slot) ==> q.questions[slot.id] == r.questions[slot.id])
  {
  }

  lemma {:induction false} VersionsNeverFall(r: Replica, ds: seq<Delivery>, slot: Slot)
    requires forall i :: 0 <= i < |ds| ==> !ds[i].event.HostSnapshot?
    requires VersionAt(r, slot).Some?
    ensures var q := Run(r, ds);
            && VersionAt(q, slot).Some? && VersionAt(q, slot).value >= VersionAt(r, slot).value
            && (VersionAt(q, slot) == VersionAt(r, slot) ==> SameRecord(r, q, slot))
            && AskedAlike(r, q, slot)
            && (slot.QuestionSlot? && (forall i :: 0 <= i < |ds| ==> !ResolvesSlot(ds[i].event, slot)) ==>
                  q.questions[slot.id] == r.questions[slot.id])
  {
    hide Apply, ResolvesSlot;
    if ds != [] {
      VersionsNeverFall(r, Front(ds), slot);
      assert forall i :: 0 <= i < |ds| - 1 ==> Front(ds)[i] == ds[i];
      VersionsRise(Run(r, Front(ds)), Last(ds).event, Last(ds).now, slot);
    }
  }

  // ---------------------------------------------------------------------
  // Redeliveries can be dropped
  // ---------------------------------------------------------------------

  /** The events whose redelivery is redundant after `ds`: versioned ones whose record was in the
      store once they had been delivered, since the last snapshot. */
  ghost function Delivered(r: Replica, ds: seq<Delivery>): set<Event> {
    if ds == [] || Last(ds).event.HostSnapshot? then {}
    else Delivered(r, Front(ds)) + (if Tracked(Run(r, ds), Last(ds).event) then {Last(ds).event} else {})
  }

  predicate Tracked(r: Replica, e: Event) {
    Versioned(e).Some? && VersionAt(r, Versioned(e).value.0).Some?
  }

  /** The trace without those redeliveries. */
  ghost function WithoutRedeliveries(r: Replica, ds: seq<Delivery>): seq<Delivery> {
    if ds == [] then []
    else WithoutRedeliveries(r, Front(ds)) + (if Last(ds).event in Delivered(r, Front(ds)) then [] else [Last(ds)])
  }

  lemma AppliedIsTracked(r: Replica, e: Event, now: string)
    requires Tracked(Apply(r, e, now), e)
    ensures Stale(Apply(r, e, now), e)
  {
  }

  lemma StaysStale(r: Replica, e: Event, now: string, done: Event)
    requires !e.HostSnapshot? && Tracked(r, done) && Stale(r, done)
    ensures var q := Apply(r, e, now); Tracked(q, done) && Stale(q, done)
  {
    hide Apply;
    VersionsRise(r, e, now, Versioned(done).value.0);
  }

  lemma {:induction false} DeliveredIsStale(r: Replica, ds: seq<Delivery>, e: Event)
    requires e in Delivered(r, ds)
    ensures Tracked(Run(r, ds), e) && Stale(Run(r, ds), e)
  {
    hide Apply;
    var q := Run(r, Front(ds));
    if e in Delivered(r, Front(ds)) {
      DeliveredIsStale(r, Front(ds), e);
      StaysStale(q, Last(ds).event, Last(ds).now, e);
    } else {
      AppliedIsTracked(q, e, Last(ds).now);
    }
  }

  /** At-least-once delivery is safe. For any trace of events whatever, snapshots included,
      dropping every such redelivery leaves the replica exactly as it was. */
  lemma {:induction false} RedeliveryIsHarmless(r: Replica, ds: seq<Delivery>)
    ensures Run(r, WithoutRedeliveries(r, ds)) == Run(r, ds)
  {
    hide Apply, Delivered;
    if ds != [] {
      var kept := WithoutRedeliveries(r, Front(ds));
      RedeliveryIsHarmless(r, Front(ds));
      if Last(ds).event in Delivered(r, Front(ds)) {
        DeliveredIsStale(r, Front(ds), Last(ds).event);
        NoOpIffStale(Run(r, Front(ds)), Last(ds).event, Last(ds).now);
        assert kept + [] == kept;
      } else {
        assert Front(kept + [Last(ds)]) == kept;
      }
    }
  }

  /** The condition matters: an update that arrives before its session is not in the store, and
      its redelivery is what applies it. */
  lemma EarlyUpdateNeedsRedelivery(p: SessionCreated, state: string, version: int, at: string, now: string)
    requires version > p.version
    ensures var u, c := Delivery(StateChanged(p.id, state, version, at), now), Delivery(Created(p), now);
            && u.event !in Delivered(Blank, [u, c])
            && VersionAt(Run(Blank, [u, c]), SessionSlot(p.id)) == Some(p.version)
            && VersionAt(Run(Blank, [u, c, u]), SessionSlot(p.id)) == Some(version)
  {
    var u, c := Delivery(StateChanged(p.id, state, version, at), now), Delivery(Created(p), now);
    RunSnoc(Blank, [], u);
    RunSnoc(Blank, [u], c);
    RunSnoc(Blank, [u, c], u);
    assert [] + [u] == [u] && [u] + [c] == [u, c] && [u, c] + [u] == [u, c, u];
    assert Front([u, c]) == [u] && Front([u]) == [] && Delivered(Blank, []) == {};
    assert Delivered(Blank, [u]) == {};
  }

  function QuestionState(r: Replica, id: string): Option<string> {
    if id in r.questions then Some(r.questions[id].state) else None
  }

  /** `question.resolved` carries no version: repeating an earlier one undoes a later one. */
  lemma QuestionResolutionIsNotSafe(p: QuestionRequested, first: string, second: string, now: string)
    ensures var q, a, b := Delivery(Asked(p), now), Delivery(QuestionResolved(p.id, first), now),
              Delivery(QuestionResolved(p.id, second), now);
            && QuestionState(Run(Blank, [q, a, b]), p.id) == Some(second)
            && QuestionState(Run(Blank, [q, a, b, a]), p.id) == Some(first)
  {
    var q, a, b := Delivery(Asked(p), now), Delivery(QuestionResolved(p.id, first), now),
        Delivery(QuestionResolved(p.id, second), now);
    RunSnoc(Blank, [], q);
    RunSnoc(Blank, [q], a);
    RunSnoc(Blank, [q, a], b);
    RunSnoc(Blank, [q, a, b], a);
    assert [] + [q] == [q] && [q] + [a] == [q, a] && [q, a] + [b] == [q, a, b] && [q, a, b] + [a] == [q, a, b, a];
  }

  lemma RunSnoc(r: Replica, ds: seq<Delivery>, d: Delivery)
    ensures Run(r, ds + [d]) == Apply(Run(r, ds), d.event, d.now)
  {
  }

  // ---------------------------------------------------------------------
  // A batch of versioned events changes nothing iff each event is stale
  // ---------------------------------------------------------------------

  lemma SameVersionsSameReplica(r: Replica, q: Replica)
    requires forall slot :: VersionAt(r, slot) == VersionAt(q, slot) && SameRecord(r, q, slot)
    ensures r.sessions == q.sessions && r.approvals == q.approvals && r.questions.Keys == q.questions.Keys
  {
    forall id ensures (id in r.sessions <==> id in q.sessions)
        && (id in r.sessions ==> r.sessions[id] == q.sessions[id]) {
      assert VersionAt(r, SessionSlot(id)) == VersionAt(q, SessionSlot(id));
    }
    forall id ensures (id in r.approvals <==> id in q.approvals)
        && (id in r.approvals ==> r.approvals[id] == q.approvals[id]) {
      assert VersionAt(r, ApprovalSlot(id)) == VersionAt(q, ApprovalSlot(id));
    }
    forall id ensures id in r.questions <==> id in q.questions {
      assert VersionAt(r, QuestionSlot(id)) == VersionAt(q, QuestionSlot(id));
    }
  }

  lemma {:induction false} VersionedKeepRest(r: Replica, ds: seq<Delivery>)
    requires forall i :: 0 <= i < |ds| ==> Versioned(ds[i].event).Some?
    ensures var q := Run(r, ds);
            && q.outcomes == r.outcomes && q.lastSyncSequence == r.lastSyncSequence
            && forall id :: id in r.questions ==> id in q.questions && q.questions[id] == r.questions[id]
  {
    hide Apply, Versioned;
    if ds != [] {
      VersionedKeepRest(r, Front(ds));
      VersionedKeepsRest(Run(r, Front(ds)), Last(ds).event, Last(ds).now);
    }
  }

  lemma VersionedKeepsRest(r: Replica, e: Event, now: string)
    requires Versioned(e).Some?
    ensures var q := Apply(r, e, now);
            && q.outcomes == r.outcomes && q.lastSyncSequence == r.lastSyncSequence
            && forall id :: id in r.questions ==> id in q.questions && q.questions[id] == r.questions[id]
  {
  }

  /** Versions only rise, so the effects of a batch can never cancel out: the replica is where it
      was exactly when every single event of the batch was stale from the start. */
  lemma {:induction false} BatchIsNoOpIff(r: Replica, ds: seq<Delivery>)
    requires forall i :: 0 <= i < |ds| ==> Versioned(ds[i].event).Some?
    ensures Run(r, ds) == r <==> forall i :: 0 <= i < |ds| ==> Stale(r, ds[i].event)
  {
    hide Apply, Stale, VersionAt, SameRecord;
    if ds != [] {
      var m, e, now := Run(r, Front(ds)), Last(ds).event, Last(ds).now;
      BatchIsNoOpIff(r, Front(ds));
      NoOpIffStale(m, e, now);
      if Run(r, ds) == r {
        NothingCancels(r, ds);
      }
      assert forall i :: 0 <= i < |ds| - 1 ==> Front(ds)[i] == ds[i];
    }
  }

  lemma NothingCancels(r: Replica, ds: seq<Delivery>)
    requires ds != [] && Run(r, ds) == r
    requires forall i :: 0 <= i < |ds| ==> Versioned(ds[i].event).Some?
    ensures Run(r, Front(ds)) == r
  {
    hide Apply;
    var m, e, now := Run(r, Front(ds)), Last(ds).event, Last(ds).now;
    forall slot ensures VersionAt(r, slot) == VersionAt(m, slot) && SameRecord(r, m, slot) {
      if VersionAt(r, slot).Some? {
        VersionsNeverFall(r, Front(ds), slot);
      }
      if VersionAt(m, slot).Some? {
        VersionsRise(m, e, now, slot);
      }
    }
    SameVersionsSameReplica(r, m);
    VersionedKeepRest(r, Front(ds));
  }

  // ---------------------------------------------------------------------
  // Convergence
  // ---------------------------------------------------------------------

  predicate SameView(r: Replica, q: Replica) {
    r.sessions == q.sessions && r.approvals == q.approvals && r.questions == q.questions
        && r.lastSyncSequence == q.lastSyncSequence
  }

  /** Two phones that see the same snapshot and then the same events show the same sessions,
      approvals and questions, whatever each had seen before. */
  lemma {:induction false} SnapshotConvergence(r: Replica, q: Replica, s: Snapshot, now: string, ds: seq<Delivery>)
    ensures SameView(Run(Apply(r, HostSnapshot(s), now), ds), Run(Apply(q, HostSnapshot(s), now), ds))
  {
    if ds != [] {
      hide Apply;
      SnapshotConvergence(r, q, s, now, Front(ds));
      StepKeepsView(Run(Apply(r, HostSnapshot(s), now), Front(ds)), Run(Apply(q, HostSnapshot(s), now), Front(ds)),
                    Last(ds));
    }
  }

  lemma StepKeepsView(r: Replica, q: Replica, d: Delivery)
    requires SameView(r, q)
    ensures SameView(Apply(r, d.event, d.now), Apply(q, d.event, d.now))
  {
  }

  /** Ids and versions of payloads, in order: all that the guards of the snapshot loops look at. */
  type Keys = seq<(string, int)>

  /** The payload that a snapshot loop leaves standing for an id. */
  function Winner(keys: Keys, id: string): (w: Option<nat>)
    ensures w.Some? ==> w.value < |keys|
  {
    if keys == [] then None
    else
      var w := Winner(Front(keys), id);
      if Last(keys).0 == id && (w.Some? ==> keys[w.value].1 < Last(keys).1) then Some(|keys| - 1) else w
  }

  /** It is the first of the highest version among those with the id. */
  ghost predicate Highest(keys: Keys, id: string, w: Option<nat>) {
    match w
    case None => forall j :: 0 <= j < |keys| ==> keys[j].0 != id
    case Some(k) =>
      && k < |keys| && keys[k].0 == id
      && forall j :: 0 <= j < |keys| && keys[j].0 == id ==> keys[j].1 <= keys[k].1 && (j < k ==> keys[j].1 < keys[k].1)
  }

  lemma {:induction false} WinnerIsHighest(keys: Keys, id: string)
    ensures Highest(keys, id, Winner(keys, id))
  {
    if keys != [] {
      WinnerIsHighest(Front(keys), id);
      assert forall j :: 0 <= j < |keys| - 1 ==> Front(keys)[j] == keys[j];
    }
  }

  function SessionKeys(ps: seq<SessionCreated>): Keys {
    seq(|ps|, i requires 0 <= i < |ps| => (ps[i].id, ps[i].version))
  }

  function ApprovalKeys(ps: seq<ApprovalRequested>): Keys {
    seq(|ps|, i requires 0 <= i < |ps| => (ps[i].id, ps[i].version))
  }

  /** The session loop of a snapshot keeps, for each id, the first payload with the highest
      version, and knows no other ids. */
  lemma {:induction false} SnapshotKeepsHighest(ps: seq<SessionCreated>, id: string)
    ensures var w := Winner(SessionKeys(ps), id);
            && Highest(SessionKeys(ps), id, w)
            && (id in CreateAll(ps) <==> w.Some?)
            && (w.Some? ==> CreateAll(ps)[id] == SessionOf(ps[w.value]))
  {
    hide Highest;
    WinnerIsHighest(SessionKeys(ps), id);
    if ps != [] {
      SnapshotKeepsHighest(Front(ps), id);
      assert Front(SessionKeys(ps)) == SessionKeys(Front(ps));
    }
  }

  /** So does the approval loop. */
  lemma {:induction false} SnapshotKeepsHighestApproval(ps: seq<ApprovalRequested>, id: string)
    ensures var w := Winner(ApprovalKeys(ps), id);
            && Highest(ApprovalKeys(ps), id, w)
            && (id in RequestAll(ps) <==> w.Some?)
            && (w.Some? ==> RequestAll(ps)[id] == ApprovalOf(ps[w.value]))
  {
    hide Highest;
    WinnerIsHighest(ApprovalKeys(ps), id);
    if ps != [] {
      SnapshotKeepsHighestApproval(Front(ps), id);
      assert Front(ApprovalKeys(ps)) == ApprovalKeys(Front(ps));
    }
  }

  // ---------------------------------------------------------------------
  // Order does not matter among creations
  // ---------------------------------------------------------------------

  predicate Creation(e: Event) {
    e.Created? || e.Requested?
  }

  ghost predicate Occurs(e: Event, ds: seq<Delivery>) {
    exists i :: 0 <= i < |ds| && ds[i].event == e
  }

  /** Versions tell creations of one record apart. */
  ghost predicate Distinct(ds: seq<Delivery>) {
    forall i, j :: 0 <= i < |ds| && 0 <= j < |ds| && Versioned(ds[i].event) == Versioned(ds[j].event) ==>
        ds[i].event == ds[j].event
  }

  /** The record is exactly what this creation stores. */
  predicate Writes(e: Event, q: Replica, slot: Slot) {
    match e
    case Created(p) => slot == SessionSlot(p.id) && p.id in q.sessions && q.sessions[p.id] == SessionOf(p)
    case Requested(p) => slot == ApprovalSlot(p.id) && p.id in q.approvals && q.approvals[p.id] == ApprovalOf(p)
    case _ => false
  }

  /** Is this creation about the record, and newer than version `v`? */
  predicate Newer(e: Event, slot: Slot, v: Option<int>) {
    Versioned(e).Some? && Versioned(e).value.0 == slot && (v.Some? ==> Versioned(e).value.1 > v.value)
  }

  /** The stored record is the newest among what was there and what was delivered: no delivered
      creation beats it, and it is the old record or a delivered creation that beat the old one. */
  ghost predicate Newest(r: Replica, q: Replica, ds: seq<Delivery>, slot: Slot) {
    && (forall i :: 0 <= i < |ds| ==>
        !Newer(ds[i].event, slot, VersionAt(q, slot)) && (VersionAt(q, slot).None? ==> !Newer(ds[i].event, slot, None)))
    && (SameRecord(r, q, slot) || exists i ::
          0 <= i < |ds| && Newer(ds[i].event, slot, VersionAt(r, slot)) && Writes(ds[i].event, q, slot))
  }

  /** A creation that beats the stored version is stored; any other leaves the record alone. */
  lemma CreationStep(q: Replica, e: Event, now: string, slot: Slot)
    requires Creation(e)
    ensures var p := Apply(q, e, now);
            if Newer(e, slot, VersionAt(q, slot)) then Writes(e, p, slot)
                && VersionAt(p, slot) == Some(Versioned(e).value.1)
            else SameRecord(q, p, slot) && VersionAt(p, slot) == VersionAt(q, slot)
  {
  }

  lemma SameRecordMeans(r: Replica, q: Replica, slot: Slot)
    requires SameRecord(r, q, slot)
    ensures VersionAt(r, slot) == VersionAt(q, slot)
    ensures forall p :: SameRecord(q, p, slot) ==> SameRecord(r, p, slot)
    ensures forall e :: Writes(e, r, slot) <==> Writes(e, q, slot)
  {
  }

  lemma WrittenMeans(e: Event, q: Replica, slot: Slot)
    requires Writes(e, q, slot)
    ensures Versioned(e) == Some((slot, VersionAt(q, slot).value)) && VersionAt(q, slot).Some?
    ensures forall p :: Writes(e, p, slot) ==> SameRecord(q, p, slot)
  {
  }

  lemma NewestStep(r: Replica, q: Replica, ds: seq<Delivery>, d: Delivery, slot: Slot)
    requires Newest(r, q, ds, slot) && Creation(d.event)
    ensures Newest(r, Apply(q, d.event, d.now), ds + [d], slot)
  {
    hide Apply, SameRecord, Writes, Versioned, VersionAt, Creation;
    var p, es := Apply(q, d.event, d.now), ds + [d];
    assert es[|ds|] == d && forall i :: 0 <= i < |ds| ==> es[i] == ds[i];
    CreationStep(q, d.event, d.now, slot);
    if SameRecord(r, q, slot) {
      SameRecordMeans(r, q, slot);
    } else {
      var i :| 0 <= i < |ds| && Newer(ds[i].event, slot, VersionAt(r, slot)) && Writes(ds[i].event, q, slot);
      WrittenMeans(ds[i].event, q, slot);
      assert es[i] == ds[i];
    }
    if SameRecord(q, p, slot) {
      SameRecordMeans(q, p, slot);
    }
  }

  lemma {:induction false} NewestRun(r: Replica, ds: seq<Delivery>, slot: Slot)
    requires forall i :: 0 <= i < |ds| ==> Creation(ds[i].event)
    ensures Newest(r, Run(r, ds), ds, slot)
  {
    hide Apply, Newest, Creation;
    if ds == [] {
      NewestStart(r, slot);
    } else {
      NewestRun(r, Front(ds), slot);
      NewestStep(r, Run(r, Front(ds)), Front(ds), Last(ds), slot);
      assert Front(ds) + [Last(ds)] == ds;
    }
  }

  lemma NewestStart(r: Replica, slot: Slot)
    ensures Newest(r, r, [], slot)
  {
  }

  /** If one trace leaves the record alone, so does any other trace of the same events. */
  lemma LeftAloneByBoth(r: Replica, p: Replica, q: Replica, ds: seq<Delivery>, es: seq<Delivery>, slot: Slot)
    requires Newest(r, p, ds, slot) && Newest(r, q, es, slot) && SameRecord(r, p, slot)
    requires forall e :: Occurs(e, es) ==> Occurs(e, ds)
    ensures SameRecord(r, q, slot)
  {
    hide SameRecord, Writes, Versioned, VersionAt, Creation;
    SameRecordMeans(r, p, slot);
    assert forall i :: 0 <= i < |es| ==> Occurs(es[i].event, es);
  }

  /** If both traces wrote the record, they wrote the same one. */
  lemma WrittenByBoth(r: Replica, p: Replica, q: Replica, ds: seq<Delivery>, es: seq<Delivery>, i: nat, j: nat,
                      slot: Slot)
    requires Newest(r, p, ds, slot) && Newest(r, q, es, slot)
    requires Distinct(ds) && forall e :: Occurs(e, ds) <==> Occurs(e, es)
    requires i < |ds| && Writes(ds[i].event, p, slot) && j < |es| && Writes(es[j].event, q, slot)
    ensures SameRecord(p, q, slot) && VersionAt(p, slot) == VersionAt(q, slot)
  {
    hide SameRecord, Writes, Versioned, VersionAt, Creation;
    WrittenMeans(ds[i].event, p, slot);
    WrittenMeans(es[j].event, q, slot);
    assert Occurs(ds[i].event, ds) && Occurs(es[j].event, es);
    assert Occurs(ds[i].event, es) && Occurs(es[j].event, ds);
    var k :| 0 <= k < |ds| && ds[k].event == es[j].event;
    assert ds[i].event == ds[k].event;
  }

  lemma SameNewest(r: Replica, p: Replica, q: Replica, ds: seq<Delivery>, es: seq<Delivery>, slot: Slot)
    requires Newest(r, p, ds, slot) && Newest(r, q, es, slot)
    requires Distinct(ds) && forall e :: Occurs(e, ds) <==> Occurs(e, es)
    ensures SameRecord(p, q, slot) && VersionAt(p, slot) == VersionAt(q, slot)
  {
    hide SameRecord, Writes, Newer, VersionAt, Occurs, Distinct;
    if SameRecord(r, p, slot) {
      LeftAloneByBoth(r, p, q, ds, es, slot);
      SameBoth(r, p, q, slot);
    } else if SameRecord(r, q, slot) {
      LeftAloneByBoth(r, q, p, es, ds, slot);
    } else {
      var i :| 0 <= i < |ds| && Newer(ds[i].event, slot, VersionAt(r, slot)) && Writes(ds[i].event, p, slot);
      var j :| 0 <= j < |es| && Newer(es[j].event, slot, VersionAt(r, slot)) && Writes(es[j].event, q, slot);
      WrittenByBoth(r, p, q, ds, es, i, j, slot);
    }
  }

  lemma SameBoth(r: Replica, p: Replica, q: Replica, slot: Slot)
    requires SameRecord(r, p, slot) && SameRecord(r, q, slot)
    ensures SameRecord(p, q, slot) && VersionAt(p, slot) == VersionAt(q, slot)
  {
  }

  /** Creations commute: two traces of `session.created` and `approval.requested` that hold the
      same events, in any order and with any repetitions, lead to the same replica, provided
      versions tell the creations of one record apart. */
  lemma CreationsCommute(r: Replica, ds: seq<Delivery>, es: seq<Delivery>)
    requires forall i :: 0 <= i < |ds| ==> Creation(ds[i].event)
    requires Distinct(ds) && forall e :: Occurs(e, ds) <==> Occurs(e, es)
    ensures Run(r, ds) == Run(r, es)
  {
    hide Run, Newest;
    forall i | 0 <= i < |es| ensures Creation(es[i].event) {
      assert Occurs(es[i].event, es);
      assert Occurs(es[i].event, ds);
    }
    var p, q := Run(r, ds), Run(r, es);
    forall slot ensures VersionAt(p, slot) == VersionAt(q, slot) && SameRecord(p, q, slot) {
      NewestRun(r, ds, slot);
      NewestRun(r, es, slot);
      SameNewest(r, p, q, ds, es, slot);
    }
    SameVersionsSameReplica(p, q);
    CreationsKeepRest(r, ds);
    CreationsKeepRest(r, es);
  }

  lemma {:induction false} CreationsKeepRest(r: Replica, ds: seq<Delivery>)
    requires forall i :: 0 <= i < |ds| ==> Creation(ds[i].event)
    ensures var q := Run(r, ds);
            q.questions == r.questions && q.outcomes == r.outcomes && q.lastSyncSequence == r.lastSyncSequence
  {
    hide NextSessions, NextApprovals;
    if ds != [] {
      CreationsKeepRest(r, Front(ds));
      assert Creation(Last(ds).event);
    }
  }
}
