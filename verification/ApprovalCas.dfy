/** Approval resolution: the ApprovalService object, and the compare-and-set protocol it runs
    when several writers interleave. */
module ApprovalCas {
  import opened Common
  import opened RequestTable
  import opened BridgeTables

  /** One call of `resolve`. */
  datatype Attempt = Attempt(id: string, decision: string, device: string, expected: int)

  datatype Outcome = Resolved | Conflict | NotFound

  /** What `resolve` means: one atomic compare-and-set on the version. It does not ask for the
      row to be pending. */
  function AtomicResolve<B>(rows: Table<B>, a: Attempt): (Table<B>, Outcome) {
    if a.id !in rows then (rows, NotFound)
    else if rows[a.id].version != a.expected then (rows, Conflict)
    else
      var row := rows[a.id].(state := a.decision, version := rows[a.id].version + 1, resolvedBy := Some(a.device));
      (rows[a.id := row], Resolved)
  }

  class ApprovalService {
    const db: Database

    constructor (db: Database)
      ensures this.db == db
    {
      this.db := db;
    }

    /** `create`: a plain INSERT, so a second row for the same key throws. */
    method Create(id: string, sessionId: string, runtimeApprovalId: string, body: ApprovalBody) returns (inserted: bool)
      modifies db`approvals
      ensures inserted <==> Insert(old(db.approvals), id, sessionId, runtimeApprovalId, body).Some?
      ensures db.approvals
                == Coalesce(Insert(old(db.approvals), id, sessionId, runtimeApprovalId, body), old(db.approvals))
    {
      if id in db.approvals || Has(db.approvals, sessionId, runtimeApprovalId) {
        return false;
      }
      db.approvals := db.approvals[id := Row(sessionId, runtimeApprovalId, body, "pending", None, 1, None)];
      inserted := true;
    }

    /** `resolve`, run without interruption. */
    method Resolve(a: Attempt) returns (outcome: Outcome)
      modifies db`approvals
      ensures (db.approvals, outcome) == AtomicResolve(old(db.approvals), a)
    {
      var early := ReadVersion(a);
      if early.Some? {
        return early.value;
      }
      outcome := ConditionalUpdate(a);
    }

    /** The SELECT of `resolve`, and the answers it gives without writing. */
    method ReadVersion(a: Attempt) returns (early: Option<Outcome>)
      ensures early == ReadStep(db.approvals, a)
    {
      if a.id !in db.approvals {
        return Some(NotFound);
      }
      var existing := db.approvals[a.id].version;
      early := if existing != a.expected then Some(Conflict) else None;
    }

    /** The UPDATE of `resolve`: it matches the row only while the version is the expected one. */
    method ConditionalUpdate(a: Attempt) returns (outcome: Outcome)
      modifies db`approvals
      ensures (db.approvals, outcome) == WriteStep(old(db.approvals), a)
    {
      if a.id in db.approvals && db.approvals[a.id].version == a.expected {
        var row := db.approvals[a.id];
        row := row.(state := a.decision, version := row.version + 1, resolvedBy := Some(a.device));
        db.approvals := db.approvals[a.id := row];
        outcome := Resolved;
      } else {
        outcome := Conflict;
      }
    }

    /** `getPending`: the pending rows of a session, in some order. */
    method GetPending(sessionId: string) returns (ids: seq<string>)
      ensures forall id :: id in ids <==>
                id in db.approvals && db.approvals[id].sessionId == sessionId && db.approvals[id].state == "pending"
    {
      var rows := db.approvals;
      var rest := set id | id in rows && rows[id].sessionId == sessionId && rows[id].state == "pending";
      ghost var pending := rest;
      ids := [];
      while rest != {}
        invariant rest <= pending
        invariant forall id :: id in ids <==> id in pending - rest
      {
        var id :| id in rest;
        ids := ids + [id];
        rest := rest - {id};
      }
    }
  }

  // ---------------------------------------------------------------------
  // The protocol as interleaved statements
  // ---------------------------------------------------------------------

  function ReadStep<B>(rows: Table<B>, a: Attempt): Option<Outcome> {
    if a.id !in rows then Some(NotFound)
    else if rows[a.id].version != a.expected then Some(Conflict)
    else None
  }

  function WriteStep<B>(rows: Table<B>, a: Attempt): (Table<B>, Outcome) {
    if a.id in rows && rows[a.id].version == a.expected then AtomicResolve(rows, a) else (rows, Conflict)
  }

  /** The runtime's own update of a row it found pending. */
  function RuntimeWrite<B>(rows: Table<B>, id: string, decision: string): Table<B> {
    if id in rows && rows[id].state == "pending" then rows[id := Settled(rows[id], decision, None)] else rows
  }

  /** Each statement that touches the table is one action. Calls are numbered. */
  datatype Action<B> =
    | Create(id: string, s: string, r: string, body: B)
    | Read(call: nat, attempt: Attempt)               // SELECT of a device's resolve
    | Write(call: nat)                                // its UPDATE
    | RuntimeRead(call: nat, s: string, r: string, decision: string)   // getPending and find
    | RuntimeUpdate(call: nat)                        // UPDATE ... AND state = 'pending'

  datatype Reply = Reply(call: nat, attempt: Attempt, outcome: Outcome)

  datatype RuntimeCall = RuntimeCall(id: string, s: string, r: string, decision: string)

  datatype System<B> = System(
    rows: Table<B>,
    used: set<nat>,
    reading: map<nat, Attempt>,            // device calls between their two statements
    runtime: map<nat, RuntimeCall>,        // runtime calls between their two statements
    replies: seq<Reply>)

  function FindPending<B>(rows: Table<B>, s: string, r: string): set<string> {
    set id | id in rows && Pending(rows[id], s, r)
  }

  /** One statement. `found` is the row that `find` picks among the pending ones. An action that
      is not possible (a call number used twice, a second UPDATE of the same call) does nothing. */
  ghost function Step<B>(c: System<B>, act: Action<B>): System<B> {
    match act
    case Create(id, s, r, body) => c.(rows := Coalesce(Insert(c.rows, id, s, r, body), c.rows))
    case Read(call, a) =>
      if call in c.used then c
      else var d := c.(used := c.used + {call});
        (match ReadStep(c.rows, a)
         case Some(outcome) => d.(replies := c.replies + [Reply(call, a, outcome)])
         case None => d.(reading := c.reading[call := a]))
    case Write(call) =>
      if call !in c.reading then c
      else
        var a := c.reading[call];
        var (rows, outcome) := WriteStep(c.rows, a);
        c.(rows := rows, reading := c.reading - {call}, replies := c.replies + [Reply(call, a, outcome)])
    case RuntimeRead(call, s, r, decision) =>
      if call in c.used then c
      else if FindPending(c.rows, s, r) == {} then c.(used := c.used + {call})
      else
        var id :| id in FindPending(c.rows, s, r);
        c.(used := c.used + {call}, runtime := c.runtime[call := RuntimeCall(id, s, r, decision)])
    case RuntimeUpdate(call) =>
      if call !in c.runtime then c
      else c.(rows := RuntimeWrite(c.rows, c.runtime[call].id, c.runtime[call].decision), runtime := c.runtime - {call})
  }

  ghost function Run<B>(c: System<B>, actions: seq<Action<B>>): System<B> {
    if actions == [] then c else Step(Run(c, Front(actions)), Last(actions))
  }

  /** The start of every run: a table in which keys are unique and no call under way. */
  ghost function Start<B>(rows: Table<B>): System<B> {
    System(rows, {}, map[], map[], [])
  }

  // ---------------------------------------------------------------------
  // The atomic specification
  // ---------------------------------------------------------------------

  datatype Atomic<B> =
    | AtomicCreate(id: string, s: string, r: string, body: B)
    | AtomicCall(call: nat, attempt: Attempt)
    | AtomicRuntime(s: string, r: string, decision: string)

  function AtomicStep<B>(rows: Table<B>, replies: seq<Reply>, op: Atomic<B>): (Table<B>, seq<Reply>) {
    match op
    case AtomicCreate(id, s, r, body) => (Coalesce(Insert(rows, id, s, r, body), rows), replies)
    case AtomicCall(call, a) => var (u, outcome) := AtomicResolve(rows, a); (u, replies + [Reply(call, a, outcome)])
    case AtomicRuntime(s, r, decision) => (Settle(rows, s, r, decision, None), replies)
  }

  function RunAtomic<B>(rows: Table<B>, ops: seq<Atomic<B>>): (Table<B>, seq<Reply>) {
    if ops == [] then (rows, [])
    else var (t, replies) := RunAtomic(rows, Front(ops)); AtomicStep(t, replies, Last(ops))
  }

  /** Where an action takes effect: a resolve at the statement that returns its answer, a runtime
      update at the statement that ends it. */
  ghost function LinearizationPoint<B>(c: System<B>, act: Action<B>): seq<Atomic<B>> {
    match act
    case Create(id, s, r, body) => [AtomicCreate(id, s, r, body)]
    case Read(call, a) => if call !in c.used && ReadStep(c.rows, a).Some? then [AtomicCall(call, a)] else []
    case Write(call) => if call in c.reading then [AtomicCall(call, c.reading[call])] else []
    case RuntimeRead(call, s, r, decision) =>
      if call !in c.used && FindPending(c.rows, s, r) == {} then [AtomicRuntime(s, r, decision)] else []
    case RuntimeUpdate(call) =>
      if call in c.runtime then [AtomicRuntime(c.runtime[call].s, c.runtime[call].r, c.runtime[call].decision)] else []
  }

  ghost function Linearize<B>(c: System<B>, actions: seq<Action<B>>): seq<Atomic<B>> {
    if actions == [] then []
    else Linearize(c, Front(actions)) + LinearizationPoint(Run(c, Front(actions)), Last(actions))
  }

  ghost predicate Valid<B>(c: System<B>) {
    UniqueKeys(c.rows) && c.reading.Keys <= c.used && CallsKnow(c.rows, c.reading, c.runtime)
  }

  /** Calls under way hold the id of a row, and a runtime call the key of its row too. */
  ghost predicate CallsKnow<B>(rows: Table<B>, reading: map<nat, Attempt>, runtime: map<nat, RuntimeCall>) {
    && (forall call :: call in reading ==> reading[call].id in rows)
    && (forall call :: call in runtime ==> var k := runtime[call];
          k.id in rows && rows[k.id].sessionId == k.s && rows[k.id].runtimeId == k.r)
  }

  /** What every statement keeps: rows stay, keys stay, versions never fall, and a row that
      changes moves to the next version. */
  ghost predicate Extends<B>(t: Table<B>, u: Table<B>) {
    && UniqueKeys(u)
    && forall id :: id in t ==>
         && id in u && u[id].sessionId == t[id].sessionId && u[id].runtimeId == t[id].runtimeId
         && (u[id] == t[id] || u[id].version == t[id].version + 1)
  }

  lemma InsertExtends<B>(t: Table<B>, id: string, s: string, r: string, body: B)
    requires UniqueKeys(t)
    ensures Extends(t, Coalesce(Insert(t, id, s, r, body), t))
  {
  }

  lemma WriteExtends<B>(t: Table<B>, a: Attempt)
    requires UniqueKeys(t)
    ensures Extends(t, WriteStep(t, a).0)
  {
  }

  lemma RuntimeExtends<B>(t: Table<B>, id: string, decision: string)
    requires UniqueKeys(t)
    ensures Extends(t, RuntimeWrite(t, id, decision))
  {
  }

  lemma StepExtends<B>(c: System<B>, act: Action<B>)
    requires UniqueKeys(c.rows)
    ensures Extends(c.rows, Step(c, act).rows)
  {
    hide Insert, WriteStep, RuntimeWrite;
    match act {
      case Create(id, s, r, body) => InsertExtends(c.rows, id, s, r, body);
      case Write(call) => if call in c.reading { WriteExtends(c.rows, c.reading[call]); }
      case RuntimeUpdate(call) =>
        if call in c.runtime {
          RuntimeExtends(c.rows, c.runtime[call].id, c.runtime[call].decision);
        }
      case Read(call, a) =>
      case RuntimeRead(call, s, r, decision) =>
    }
  }

  lemma StillKnow<B>(t: Table<B>, u: Table<B>, reading: map<nat, Attempt>, runtime: map<nat, RuntimeCall>)
    requires Extends(t, u) && CallsKnow(t, reading, runtime)
    ensures CallsKnow(u, reading, runtime)
  {
  }

  lemma StepKnows<B>(c: System<B>, act: Action<B>)
    requires c.reading.Keys <= c.used && CallsKnow(c.rows, c.reading, c.runtime)
    ensures Step(c, act).reading.Keys <= Step(c, act).used
    ensures CallsKnow(c.rows, Step(c, act).reading, Step(c, act).runtime)
  {
    hide Insert, WriteStep, RuntimeWrite, Coalesce;
    if act.RuntimeRead? {
      hide FindPending;
      FoundIsPending(c.rows, act.s, act.r);
    }
  }

  lemma FoundIsPending<B>(rows: Table<B>, s: string, r: string)
    ensures forall id :: id in FindPending(rows, s, r) <==> id in rows && Pending(rows[id], s, r)
  {
  }

  lemma StepValid<B>(c: System<B>, act: Action<B>)
    requires Valid(c)
    ensures Valid(Step(c, act)) && Extends(c.rows, Step(c, act).rows)
  {
    hide Step, CallsKnow;
    StepExtends(c, act);
    StepKnows(c, act);
    StillKnow(c.rows, Step(c, act).rows, Step(c, act).reading, Step(c, act).runtime);
  }

  lemma {:induction false} RunValid<B>(c: System<B>, actions: seq<Action<B>>)
    requires Valid(c)
    ensures Valid(Run(c, actions))
  {
    if actions != [] {
      RunValid(c, Front(actions));
      StepValid(Run(c, Front(actions)), Last(actions));
    }
  }

  lemma StepRefines<B>(c: System<B>, act: Action<B>)
    requires Valid(c)
    ensures var d := Step(c, act);
            var points := LinearizationPoint(c, act);
            && |points| <= 1
            && (d.rows, d.replies) == if points == [] then (c.rows, c.replies)
              else AtomicStep(c.rows, c.replies, points[0])
  {
    hide Insert, Settle;
    if act.RuntimeRead? {
      if FindPending(c.rows, act.s, act.r) == {} {
        FoundIsPending(c.rows, act.s, act.r);
        SettleNone(c.rows, act.s, act.r, act.decision, None);
      }
    } else if act.RuntimeUpdate? && act.call in c.runtime {
      var k := c.runtime[act.call];
      SettleOne(c.rows, k.id, k.s, k.r, k.decision, None);
    }
  }

  /** Linearizability. However the statements of concurrent calls interleave, the table and every
      answer given are those of the same calls run atomically, one after the other, each at a
      moment inside the call. */
  lemma {:induction false} RefinesAtomic<B>(rows: Table<B>, actions: seq<Action<B>>)
    requires UniqueKeys(rows)
    ensures var c := Run(Start(rows), actions);
            RunAtomic(rows, Linearize(Start(rows), actions)) == (c.rows, c.replies)
  {
    hide Step, AtomicStep, LinearizationPoint;
    if actions != [] {
      var c := Run(Start(rows), Front(actions));
      var before := Linearize(Start(rows), Front(actions));
      var points := LinearizationPoint(c, Last(actions));
      RefinesAtomic(rows, Front(actions));
      RunValid(Start(rows), Front(actions));
      StepRefines(c, Last(actions));
      if points == [] {
        assert before + points == before;
      } else {
        assert points == [points[0]];
        assert Front(before + points) == before;
      }
    }
  }

  /** A call answers once, and only after it began: it is either under way or answered. */
  lemma {:induction false} OneAnswerPerCall<B>(rows: Table<B>, actions: seq<Action<B>>)
    ensures var c := Run(Start(rows), actions);
            && (forall i :: 0 <= i < |c.replies| ==> c.replies[i].call in c.used && c.replies[i].call !in c.reading)
            && (forall i, j :: 0 <= i < j < |c.replies| ==> c.replies[i].call != c.replies[j].call)
            && c.reading.Keys <= c.used
  {
    hide ReadStep, WriteStep, RuntimeWrite, Insert, FindPending;
    if actions != [] {
      OneAnswerPerCall(rows, Front(actions));
    }
  }

  // ---------------------------------------------------------------------
  // Winners and versions
  // ---------------------------------------------------------------------

  predicate Won(reply: Reply, id: string) {
    reply.outcome == Resolved && reply.attempt.id == id
  }

  /** Winners on one approval, in the order they answered, won at strictly increasing versions,
      all of them below the present one. */
  ghost predicate WinnersOrdered<B>(rows: Table<B>, replies: seq<Reply>, id: string) {
    && (forall i :: 0 <= i < |replies| && Won(replies[i], id) ==>
        id in rows && replies[i].attempt.expected < rows[id].version)
    && (forall i, j :: 0 <= i < j < |replies| && Won(replies[i], id) && Won(replies[j], id) ==>
          replies[i].attempt.expected < replies[j].attempt.expected)
  }

  /** So at most one call wins per (approval, version). A later call that names the new version
      may win again. */
  lemma {:induction false} OneWinnerPerVersion<B>(rows: Table<B>, actions: seq<Action<B>>, id: string)
    requires UniqueKeys(rows)
    ensures WinnersOrdered(Run(Start(rows), actions).rows, Run(Start(rows), actions).replies, id)
  {
    hide Step;
    if actions != [] {
      var c := Run(Start(rows), Front(actions));
      OneWinnerPerVersion(rows, Front(actions), id);
      RunValid(Start(rows), Front(actions));
      StepValid(c, Last(actions));
      NewReply(c, Last(actions));
      NextWinner(c, Step(c, Last(actions)), id);
    }
  }

  lemma NextWinner<B>(c: System<B>, d: System<B>, id: string)
    requires WinnersOrdered(c.rows, c.replies, id) && Extends(c.rows, d.rows)
    requires d.replies != c.replies ==>
               && d.replies != [] && d.replies == c.replies + [Last(d.replies)]
               && (Won(Last(d.replies), id) ==>
                     id in c.rows && c.rows[id].version == Last(d.replies).attempt.expected == d.rows[id].version - 1)
    ensures WinnersOrdered(d.rows, d.replies, id)
  {
    assert id in c.rows ==> c.rows[id].version <= d.rows[id].version;
  }

  /** A statement adds at most one answer, and an answer `Resolved` names the version the row had
      just before. */
  lemma NewReply<B>(c: System<B>, act: Action<B>)
    requires Valid(c)
    ensures var d := Step(c, act);
            d.replies != c.replies ==>
              && d.replies != [] && d.replies == c.replies + [Last(d.replies)]
              && (Last(d.replies).outcome == Resolved ==>
                    var a := Last(d.replies).attempt;
                    a.id in c.rows && a.id in d.rows && c.rows[a.id].version == a.expected
                        && d.rows[a.id].version == a.expected + 1)
  {
    hide Insert, RuntimeWrite, FindPending;
  }

  /** Did this statement update the row? */
  ghost predicate Touches<B>(c: System<B>, act: Action<B>, id: string) {
    id in c.rows && id in Step(c, act).rows && Step(c, act).rows[id] != c.rows[id]
  }

  ghost function Updates<B>(c: System<B>, actions: seq<Action<B>>, id: string): nat {
    if actions == [] then 0
    else Updates(c, Front(actions), id) + (if Touches(Run(c, Front(actions)), Last(actions), id) then 1 else 0)
  }

  /** The version counts the updates: nothing is lost and nothing is counted twice. */
  lemma {:induction false} VersionCountsUpdates<B>(c: System<B>, actions: seq<Action<B>>, id: string)
    requires Valid(c) && id in c.rows
    ensures id in Run(c, actions).rows
    ensures Run(c, actions).rows[id].version == c.rows[id].version + Updates(c, actions, id)
  {
    hide Step;
    if actions != [] {
      VersionCountsUpdates(c, Front(actions), id);
      RunValid(c, Front(actions));
      StepValid(Run(c, Front(actions)), Last(actions));
    }
  }

  /** Exactly when a device wins: its UPDATE succeeds if and only if no statement of any other
      writer, device or runtime, updated the row since its SELECT. */
  lemma {:induction false} WinsIffUntouched<B>(c: System<B>, call: nat, between: seq<Action<B>>)
    requires Valid(c) && call in c.reading
    requires c.rows[c.reading[call].id].version == c.reading[call].expected
    requires forall i :: 0 <= i < |between| ==> between[i] != Write(call)
    ensures var d := Run(c, between + [Write(call)]);
            && d.replies != [] && Last(d.replies).call == call
            && (Last(d.replies).outcome == Resolved <==> Updates(c, between, c.reading[call].id) == 0)
            && (Last(d.replies).outcome == Conflict <==> Updates(c, between, c.reading[call].id) > 0)
  {
    hide Run;
    VersionCountsUpdates(c, between, c.reading[call].id);
    StillReading(c, call, between);
    RunSnoc(c, between, Write(call));
  }

  lemma RunSnoc<B>(c: System<B>, actions: seq<Action<B>>, act: Action<B>)
    ensures Run(c, actions + [act]) == Step(Run(c, actions), act)
  {
  }

  lemma {:induction false} StillReading<B>(c: System<B>, call: nat, between: seq<Action<B>>)
    requires call in c.reading && call in c.used
    requires forall i :: 0 <= i < |between| ==> between[i] != Write(call)
    ensures var d := Run(c, between); call in d.reading && d.reading[call] == c.reading[call] && call in d.used
  {
    hide ReadStep, WriteStep, RuntimeWrite, Insert, FindPending;
    if between != [] {
      StillReading(c, call, Front(between));
      assert Last(between) != Write(call);
    }
  }

  // ---------------------------------------------------------------------
  // Which decision stands
  // ---------------------------------------------------------------------

  /** The first decision need not stand: whatever a row's state, a decision at its version and then
      another at the next version are both answered Resolved, and the second overwrites the first. A
      decision writes state, version and device, and no other column or row. */
  lemma FirstDecisionOverwritten<B>(rows: Table<B>, id: string, one: string, two: string, device: string, other: string)
    requires id in rows
    ensures var v := rows[id].version;
            var (t, first) := AtomicResolve(rows, Attempt(id, one, device, v));
            var (u, second) := AtomicResolve(t, Attempt(id, two, other, v + 1));
            && first == Resolved && t[id].state == one && t[id].resolvedBy == Some(device)
            && second == Resolved && u[id].state == two && u[id].resolvedBy == Some(other)
            && u == rows[id := rows[id].(state := two, version := v + 2, resolvedBy := Some(other))]
  {
  }

  ghost predicate Answered(replies: seq<Reply>, call: nat, outcome: Outcome) {
    exists i :: 0 <= i < |replies| && replies[i].call == call && replies[i].outcome == outcome
  }

  ghost predicate Unanswered(replies: seq<Reply>, call: nat) {
    forall i :: 0 <= i < |replies| ==> replies[i].call != call
  }

  /** Until its own UPDATE a begun call gets no answer from other statements, and once it is over it
      gets no further one. */
  lemma {:induction false} OthersAnswer<B>(c: System<B>, call: nat, actions: seq<Action<B>>)
    requires call in c.used && (call in c.reading ==> forall i :: 0 <= i < |actions| ==> actions[i] != Write(call))
    ensures var d := Run(c, actions);
            && call in d.used && (call in d.reading <==> call in c.reading)
            && c.replies <= d.replies && Unanswered(d.replies[|c.replies|..], call)
  {
    hide ReadStep, WriteStep, RuntimeWrite, Insert, FindPending;
    if actions != [] {
      OthersAnswer(c, call, Front(actions));
      assert call in c.reading ==> Last(actions) != Write(call);
    }
  }

  lemma WriteAnswers<B>(c: System<B>, call: nat)
    ensures var d := Step(c, Write(call));
            if call in c.reading then
              d.replies == c.replies + [Reply(call, c.reading[call], WriteStep(c.rows, c.reading[call]).1)]
            else d == c
  {
  }

  /** The SELECT of a call: it goes on to its UPDATE, or is answered at once: not found, or a conflict. */
  lemma ReadAnswers<B>(c: System<B>, call: nat, a: Attempt)
    requires call !in c.used
    ensures var d := Step(c, Read(call, a));
            && call in d.used && d.rows == c.rows
            && (call in d.reading <==> call in c.reading || (a.id in c.rows && c.rows[a.id].version == a.expected))
            && (a.id in c.rows && c.rows[a.id].version == a.expected ==> d.reading[call] == a && d.replies == c.replies)
            && (!(a.id in c.rows && c.rows[a.id].version == a.expected) ==>
                  && |d.replies| == |c.replies| + 1 && c.replies <= d.replies && Last(d.replies).call == call
                  && Last(d.replies).outcome == (if a.id in c.rows then Conflict else NotFound))
  {
  }

  /** Exactly which decisions win, whatever the state of the row: those that name the version they
      read and whose row nobody, device or runtime, updates until they write. Of the others, those
      about an approval that is not there are told so, and the rest meet a conflict. */
  lemma {:induction false} WinsIff<B>(c: System<B>, call: nat, a: Attempt, between: seq<Action<B>>)
    requires Valid(c) && call !in c.used && Unanswered(c.replies, call)
    requires forall i :: 0 <= i < |between| ==> between[i] != Write(call)
    ensures var begun := Step(c, Read(call, a));
            var d := Step(Run(begun, between), Write(call));
            var wins := a.id in c.rows && c.rows[a.id].version == a.expected && Updates(begun, between, a.id) == 0;
            && (Answered(d.replies, call, Resolved) <==> wins)
            && (Answered(d.replies, call, NotFound) <==> a.id !in c.rows)
            && (Answered(d.replies, call, Conflict) <==> a.id in c.rows && !wins)
  {
    assert call !in c.reading;
    ReadAnswers(c, call, a);
    StepValid(c, Read(call, a));
    hide Run, Updates, Valid, Step, WriteStep;
    var begun := Step(c, Read(call, a));
    var late := Run(begun, between);
    OthersAnswer(begun, call, between);
    WriteAnswers(late, call);
    var d := Step(late, Write(call));
    if call in begun.reading {
      WinsIffUntouched(begun, call, between);
      RunSnoc(begun, between, Write(call));
    }
    if call in begun.reading {
      OnlyAnswer(c.replies, [], late.replies[|begun.replies|..], [Last(d.replies)], d.replies, call);
    } else {
      OnlyAnswer(c.replies, [Last(begun.replies)], late.replies[|begun.replies|..], [], d.replies, call);
    }
  }

  /** One reply is the call's answer. */
  lemma OnlyAnswer(a: seq<Reply>, b: seq<Reply>, e: seq<Reply>, f: seq<Reply>, all: seq<Reply>, call: nat)
    requires all == a + b + e + f && Unanswered(a, call) && Unanswered(e, call)
    requires |b + f| == 1 && (b + f)[0].call == call
    ensures forall outcome :: Answered(all, call, outcome) <==> outcome == (b + f)[0].outcome
  {
    assert forall i :: 0 <= i < |b| ==> all[|a| + i] == b[i];
    assert forall i :: 0 <= i < |e| ==> all[|a| + |b| + i] == e[i];
    assert forall i :: 0 <= i < |f| ==> all[|a| + |b| + |e| + i] == f[i];
  }

  /** The UPDATE of a call that named version `v` of the row. */
  ghost predicate Names<B>(c: System<B>, act: Action<B>, id: string, v: int) {
    act.Write? && act.call in c.reading && c.reading[act.call].id == id && c.reading[act.call].expected == v
  }

  ghost predicate SomeoneNames<B>(c: System<B>, actions: seq<Action<B>>, id: string, v: int) {
    && actions != []
    && (SomeoneNames(c, Front(actions), id, v) || Names(Run(c, Front(actions)), Last(actions), id, v))
  }

  lemma DecidedStep<B>(c: System<B>, act: Action<B>, id: string)
    requires Valid(c) && id in c.rows && c.rows[id].state != "pending"
    ensures id in Step(c, act).rows
    ensures Step(c, act).rows[id] != c.rows[id] <==> Names(c, act, id, c.rows[id].version)
  {
    hide Insert, FindPending, CallsKnow, UniqueKeys;
    InsertKeepsRow(c.rows, id, act);
  }

  lemma InsertKeepsRow<B>(rows: Table<B>, id: string, act: Action<B>)
    requires id in rows
    ensures act.Create? ==>
              var u := Coalesce(Insert(rows, act.id, act.s, act.r, act.body), rows);
              id in u && u[id] == rows[id]
  {
  }

  /** When the first decision is final: a decided row stays as it is if and only if no call that
      names the version the decision left gets to its UPDATE. The runtime never changes it. */
  lemma {:induction false} DecisionFinalIff<B>(c: System<B>, actions: seq<Action<B>>, id: string)
    requires Valid(c) && id in c.rows && c.rows[id].state != "pending"
    ensures id in Run(c, actions).rows
    ensures Run(c, actions).rows[id] == c.rows[id] <==> !SomeoneNames(c, actions, id, c.rows[id].version)
    ensures Run(c, actions).rows[id].version == c.rows[id].version <==> Run(c, actions).rows[id] == c.rows[id]
  {
    hide Step, Valid, Names;
    if actions != [] {
      var d := Run(c, Front(actions));
      DecisionFinalIff(c, Front(actions), id);
      RunValid(c, Front(actions));
      StepValid(d, Last(actions));
      VersionCountsUpdates(c, Front(actions), id);
      if d.rows[id] == c.rows[id] {
        DecidedStep(d, Last(actions), id);
      }
    }
  }
}
