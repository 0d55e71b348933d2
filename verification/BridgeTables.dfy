/** The bridge's SQLite tables that runtime events are journaled in and projected onto. */
module BridgeTables {
  import opened Common
  import opened RequestTable

  /** Event types the bridge tells apart. `session.*` types it has no state for still count as
      session events. */
  datatype Kind =
    | SessionStarted | SessionCompleted | SessionFailed | SessionCancelled
    | SessionInterrupted | SessionIdle | SessionWorking
    | SessionOther(suffix: string)
    | ApprovalRequested | ApprovalResolved
    | QuestionRequested | QuestionAnswered
    | Other(name: string)
  {
    predicate IsSession() {
      SessionStarted? || SessionCompleted? || SessionFailed? || SessionCancelled?
      || SessionInterrupted? || SessionIdle? || SessionWorking? || SessionOther?
    }
  }

  /** The payload members the bridge reads. A member is absent, or holds text (JSON for the
      structured ones). */
  datatype Payload = Payload(
    status: Option<string>, title: Option<string>, summary: Option<string>,
    currentAction: Option<string>, message: Option<string>,
    approvalId: Option<string>, category: Option<string>, risk: Option<string>, reversible: Option<string>,
    details: Option<string>, decisions: Option<string>, decision: Option<string>,
    questionId: Option<string>, prompt: Option<string>, options: Option<string>, answer: Option<string>)

  /** What kind of value the payload is. A value that is no object has no members. */
  datatype Shape = Members | NullPayload | UndefinedPayload | Unserializable

  datatype Event = Event(kind: Kind, sessionId: string, shape: Shape, payload: Payload)

  datatype Entry = Entry(sequence: nat, event: Event)

  datatype SessionContent = SessionContent(title: string, state: string, summary: string,
                                           currentAction: Option<string>, version: nat)

  /** What the INSERT of a session row writes. */
  const InitialSession: SessionContent := SessionContent("Session", "running", "", None, 1)

  datatype SessionRow = SessionRow(runtimeInstance: string, content: SessionContent)

  datatype ApprovalBody = ApprovalBody(
    category: string, risk: string, reversible: string, title: string, summary: string, details: string,
        decisions: string)

  datatype QuestionBody = QuestionBody(prompt: string, options: Option<string>)

  /** `counter` is the last number that AUTOINCREMENT gave out in the journal. */
  datatype Tables = Tables(
    journal: seq<Entry>,
    counter: nat,
    sessions: map<string, SessionRow>,
    approvals: Table<ApprovalBody>,
    questions: Table<QuestionBody>)

  class Database {
    var journal: seq<Entry>
    var counter: nat
    var sessions: map<string, SessionRow>
    var approvals: Table<ApprovalBody>
    var questions: Table<QuestionBody>

    constructor ()
      ensures Contents() == Tables([], 0, map[], map[], map[])
    {
      journal, counter, sessions, approvals, questions := [], 0, map[], map[], map[];
    }

    ghost function Contents(): Tables
      reads this
    {
      Tables(journal, counter, sessions, approvals, questions)
    }
  }

  // ---------------------------------------------------------------------
  // The journal
  // ---------------------------------------------------------------------

  /** Sequences are positive and rise from row to row. */
  ghost predicate Rising(journal: seq<Entry>) {
    && (forall i :: 0 <= i < |journal| ==> journal[i].sequence > 0)
    && (forall i, j :: 0 <= i < j < |journal| ==> journal[i].sequence < journal[j].sequence)
  }

  /** The largest sequence, 0 for an empty journal. */
  function LastSequence(journal: seq<Entry>): nat {
    if journal == [] then 0 else Last(journal).sequence
  }

  /** AUTOINCREMENT never gives out a number twice, and not every number goes to a row. */
  ghost predicate Numbered(db: Tables) {
    Rising(db.journal) && LastSequence(db.journal) <= db.counter
  }

  /** Is the row selected by a query for one session, or for all of them? */
  predicate Selects(session: Option<string>, after: int, e: Entry) {
    e.sequence > after && (session.Some? ==> e.event.sessionId == session.value)
  }

  /** All rows after a cursor, in sequence order. */
  function RowsAfter(journal: seq<Entry>, session: Option<string>, after: int): (rows: seq<Entry>)
    ensures |rows| <= |journal|
  {
    if journal == [] then []
    else
      var e := Last(journal);
      RowsAfter(Front(journal), session, after) + (if Selects(session, after, e) then [e] else [])
  }

  function Take<T>(s: seq<T>, n: nat): (r: seq<T>)
    ensures |r| <= n && r <= s
  {
    if |s| <= n then s else s[..n]
  }

  /** The tables with one more journal row, under the next number. */
  function WithRow(db: Tables, e: Event): Tables {
    db.(journal := db.journal + [Entry(db.counter + 1, e)], counter := db.counter + 1)
  }

  /** The tables after an append, and the sequence it answers; None when it throws. INSERT OR IGNORE
      skips a row whose payload has no JSON text, but uses up its number; the foreign key is not
      ignored, it refuses an event whose session has no row, and the number is taken back. */
  function Appended(db: Tables, e: Event): (Tables, Option<nat>) {
    if e.shape.Unserializable? then (db, None)
    else if e.shape.UndefinedPayload? then (db.(counter := db.counter + 1), Some(0))
    else if e.sessionId !in db.sessions then (db, None)
    else (WithRow(db, e), Some(db.counter + 1))
  }

  class EventJournal {
    const db: Database

    constructor (db: Database)
      ensures this.db == db
    {
      this.db := db;
    }

    /** `append`: the new row gets the next number, and the sequence is read back by event id. */
    method Append(event: Event) returns (sequence: Option<nat>)
      requires Numbered(db.Contents())
      modifies db`journal, db`counter
      ensures Numbered(db.Contents()) && (db.Contents(), sequence) == Appended(old(db.Contents()), event)
      ensures sequence.Some? && sequence.value > 0 ==>
                && LastSequence(old(db.journal)) < sequence.value == LastSequence(db.journal)
                && db.journal == old(db.journal) + [Entry(sequence.value, event)]
      ensures sequence.None? || sequence.value == 0 ==> db.journal == old(db.journal)
    {
      if event.shape.Unserializable? {
        return None;
      }
      if event.shape.UndefinedPayload? {
        db.counter := db.counter + 1;
        return Some(0);
      }
      if event.sessionId !in db.sessions {
        return None;
      }
      db.counter := db.counter + 1;
      db.journal := db.journal + [Entry(db.counter, event)];
      sequence := Some(db.counter);
    }

    /** `getAfter`, and the gateway's query over all sessions: rows in order up to a limit. */
    method GetAfter(session: Option<string>, after: int, limit: nat) returns (rows: seq<Entry>)
      ensures rows == Take(RowsAfter(db.journal, session, after), limit)
      ensures |rows| == (if |RowsAfter(db.journal, session, after)| <= limit
                         then |RowsAfter(db.journal, session, after)| else limit)
    {
      rows := [];
      var i := 0;
      while i < |db.journal| && |rows| < limit
        invariant 0 <= i <= |db.journal| && |rows| <= limit
        invariant rows == RowsAfter(db.journal[..i], session, after)
      {
        assert Front(db.journal[..i + 1]) == db.journal[..i];
        if Selects(session, after, db.journal[i]) {
          rows := rows + [db.journal[i]];
        }
        i := i + 1;
      }
      RowsGrow(db.journal, i, session, after);
      assert db.journal[..|db.journal|] == db.journal;
    }

    /** `getLatestSequence`: COALESCE(MAX(sequence), 0). */
    method GetLatestSequence(session: Option<string>) returns (latest: nat)
      ensures forall i ::
                0 <= i < |db.journal| && (session == None || session == Some(db.journal[i].event.sessionId)) ==>
                db.journal[i].sequence <= latest
      ensures latest == 0 || exists i ::
                && 0 <= i < |db.journal| && (session == None || session == Some(db.journal[i].event.sessionId))
                && db.journal[i].sequence == latest
    {
      latest := 0;
      var i := 0;
      while i < |db.journal|
        invariant 0 <= i <= |db.journal|
        invariant forall k :: 0 <= k < i && Selects(session, 0, db.journal[k]) ==> db.journal[k].sequence <= latest
        invariant latest == 0 || exists k ::
                    0 <= k < i && Selects(session, 0, db.journal[k]) && db.journal[k].sequence == latest
      {
        if Selects(session, 0, db.journal[i]) && db.journal[i].sequence > latest {
          latest := db.journal[i].sequence;
        }
        i := i + 1;
      }
    }
  }

  lemma {:induction false} RowsGrow(journal: seq<Entry>, i: nat, session: Option<string>, after: int)
    requires i <= |journal|
    ensures RowsAfter(journal[..i], session, after) <= RowsAfter(journal, session, after)
  {
    if i == |journal| {
      assert journal[..i] == journal;
    } else {
      RowsGrow(Front(journal), i, session, after);
      assert Front(journal)[..i] == journal[..i];
    }
  }

  /** A query returns exactly the selected rows, each once, in sequence order. */
  lemma {:induction false} RowsAfterExact(journal: seq<Entry>, session: Option<string>, after: int)
    requires Rising(journal)
    ensures var rows := RowsAfter(journal, session, after);
            && (forall e :: e in rows <==>
                  && e in journal && e.sequence > after
                  && (session == None || session == Some(e.event.sessionId)))
            && (forall i, j :: 0 <= i < j < |rows| ==> rows[i].sequence < rows[j].sequence)
  {
    hide Rising;
    forall e ensures e in RowsAfter(journal, session, after) <==> e in journal && Selects(session, after, e) {
      RowIsSelected(journal, session, after, e);
    }
    if journal != [] {
      RisingFront(journal);
      RowsAfterExact(Front(journal), session, after);
      var rows := RowsAfter(Front(journal), session, after);
      forall i | 0 <= i < |rows| ensures rows[i].sequence < Last(journal).sequence {
        RowIsSelected(Front(journal), session, after, rows[i]);
        NoneAboveLast(Front(journal));
      }
    }
  }

  lemma {:induction false} RowIsSelected(journal: seq<Entry>, session: Option<string>, after: int, e: Entry)
    ensures e in RowsAfter(journal, session, after) <==> e in journal && Selects(session, after, e)
  {
    hide Selects;
    if journal != [] {
      RowIsSelected(Front(journal), session, after, e);
      assert journal == Front(journal) + [Last(journal)];
    }
  }

  lemma RisingFront(journal: seq<Entry>)
    requires Rising(journal) && journal != []
    ensures Rising(Front(journal)) && LastSequence(Front(journal)) < LastSequence(journal)
  {
  }

  lemma NoneAboveLast(journal: seq<Entry>)
    requires Rising(journal)
    ensures forall i :: 0 <= i < |journal| ==> 0 < journal[i].sequence <= LastSequence(journal)
  {
  }
}
