/** The `approvals` and `questions` tables. Both have the shape of a table of requests put to
    the user: a primary key, UNIQUE(session, runtime id), a state that starts as `pending` and
    a version that starts at 1 and grows by one with every update. */
module RequestTable {
  import opened Common

  /** `B` is what the request says (category, risk, title, ... or prompt and options). */
  datatype Row<+B> = Row(
    sessionId: string,
    runtimeId: string,
    body: B,
    state: string,
    answer: Option<string>,
    version: nat,
    resolvedBy: Option<string>)

  /** Rows by primary key. */
  type Table<+B> = map<string, Row<B>>

  ghost predicate UniqueKeys<B>(t: Table<B>) {
    forall a, b :: a in t && b in t && t[a].sessionId == t[b].sessionId && t[a].runtimeId == t[b].runtimeId ==> a == b
  }

  predicate Has<B>(t: Table<B>, s: string, r: string) {
    exists id :: id in t && t[id].sessionId == s && t[id].runtimeId == r
  }

  /** INSERT of a pending row; None when a uniqueness constraint refuses it. */
  function Insert<B>(t: Table<B>, id: string, s: string, r: string, body: B): Option<Table<B>> {
    if id in t || Has(t, s, r) then None else Some(t[id := Row(s, r, body, "pending", None, 1, None)])
  }

  /** The row the runtime means is the pending one with its session and runtime id. */
  predicate Pending<B>(row: Row<B>, s: string, r: string) {
    row.sessionId == s && row.runtimeId == r && row.state == "pending"
  }

  function Settled<B>(row: Row<B>, state: string, answer: Option<string>): Row<B> {
    row.(state := state, answer := answer, version := row.version + 1)
  }

  /** UPDATE ... WHERE session, runtime id and state = 'pending'. */
  function Settle<B>(t: Table<B>, s: string, r: string, state: string, answer: Option<string>): Table<B> {
    map id | id in t :: if Pending(t[id], s, r) then Settled(t[id], state, answer) else t[id]
  }

  /** Keys are unique, so updating the one pending row by its id is the whole UPDATE. */
  lemma SettleOne<B>(t: Table<B>, id: string, s: string, r: string, state: string, answer: Option<string>)
    requires UniqueKeys(t) && id in t && t[id].sessionId == s && t[id].runtimeId == r
    ensures Settle(t, s, r, state, answer) == if t[id].state == "pending" then t[id := Settled(t[id], state, answer)]
              else t
  {
  }

  lemma SettleNone<B>(t: Table<B>, s: string, r: string, state: string, answer: Option<string>)
    requires forall id :: id in t ==> !Pending(t[id], s, r)
    ensures Settle(t, s, r, state, answer) == t
  {
  }

  // ---------------------------------------------------------------------
  // The fold of a journal
  // ---------------------------------------------------------------------

  /** What one journal entry says about requests. */
  datatype Change<+B> =
    | Request(s: string, r: string, body: B)
    | Answer(s: string, r: string, state: string, answer: Option<string>)
    | Nothing

  /** The row that the changes alone determine for one (session, runtime id). */
  function Fold<B>(changes: seq<Change<B>>, s: string, r: string): Option<Row<B>> {
    if changes == [] then None else Apply(Fold(Front(changes), s, r), Last(changes), s, r)
  }

  function Apply<B>(row: Option<Row<B>>, c: Change<B>, s: string, r: string): Option<Row<B>> {
    match c
    case Request(s', r', body) =>
      if s' == s && r' == r && row.None? then Some(Row(s, r, body, "pending", None, 1, None)) else row
    case Answer(s', r', state, answer) =>
      if s' == s && r' == r && row.Some? && row.value.state == "pending" then Some(Settled(row.value, state, answer))
        else row
    case Nothing => row
  }

  /** The table agrees with the fold at (s, r): no row on either side, or one row on each, equal
      exactly when no device has written it. Devices write the row without journaling. */
  ghost predicate Agrees<B>(t: Table<B>, row: Option<Row<B>>, s: string, r: string) {
    && (Has(t, s, r) <==> row.Some?)
    && forall id :: id in t && t[id].sessionId == s && t[id].runtimeId == r ==>
         && t[id].body == row.value.body
         && row.value.resolvedBy == None
         && (t[id].resolvedBy == None <==> t[id] == row.value)
  }

  lemma InsertUnique<B>(t: Table<B>, id: string, s: string, r: string, body: B)
    requires UniqueKeys(t)
    ensures UniqueKeys(Coalesce(Insert(t, id, s, r, body), t))
  {
  }

  lemma SettleUnique<B>(t: Table<B>, s: string, r: string, state: string, answer: Option<string>)
    requires UniqueKeys(t)
    ensures UniqueKeys(Settle(t, s, r, state, answer))
  {
  }

  /** An INSERT and the fold move together, also when the INSERT is refused. */
  lemma InsertAgrees<B>(t: Table<B>, id: string, s: string, r: string, body: B, row: Option<Row<B>>, s': string,
                        r': string)
    requires id !in t && Agrees(t, row, s', r')
    ensures Agrees(Coalesce(Insert(t, id, s, r, body), t), Apply(row, Request(s, r, body), s', r'), s', r')
  {
    if !Has(t, s, r) {
      var u := t[id := Row(s, r, body, "pending", None, 1, None)];
      assert u[id].sessionId == s && u[id].runtimeId == r;
      assert forall other :: other in t ==> other in u && u[other] == t[other];
      assert Has(u, s', r') <==> Has(t, s', r') || (s == s' && r == r');
    }
  }

  lemma SettleAgrees<B>(t: Table<B>, s: string, r: string, state: string, answer: Option<string>,
                        row: Option<Row<B>>, s': string, r': string)
    requires Agrees(t, row, s', r')
    ensures Agrees(Settle(t, s, r, state, answer), Apply(row, Answer(s, r, state, answer), s', r'), s', r')
  {
    var u := Settle(t, s, r, state, answer);
    assert forall id :: id in t ==> id in u && u[id].sessionId == t[id].sessionId && u[id].runtimeId == t[id].runtimeId;
    assert Has(u, s', r') <==> Has(t, s', r');
  }

  // ---------------------------------------------------------------------
  // First request, first answer
  // ---------------------------------------------------------------------

  predicate Requests<B>(c: Change<B>, s: string, r: string) {
    c.Request? && c.s == s && c.r == r
  }

  predicate Answers<B>(c: Change<B>, s: string, r: string) {
    c.Answer? && c.s == s && c.r == r
  }

  /** A request exists once it was asked, and only then. */
  lemma {:induction false} FoldExists<B>(changes: seq<Change<B>>, s: string, r: string)
    ensures Fold(changes, s, r).Some? <==> exists i :: 0 <= i < |changes| && Requests(changes[i], s, r)
  {
    if changes != [] {
      FoldExists(Front(changes), s, r);
      assert changes == Front(changes) + [Last(changes)];
      assert forall i :: 0 <= i < |changes| - 1 ==> Front(changes)[i] == changes[i];
    }
  }

  /** What a row says is what some request for its key said. */
  lemma {:induction false} BodyWasRequested<B>(changes: seq<Change<B>>, s: string, r: string)
    requires Fold(changes, s, r).Some?
    ensures var row := Fold(changes, s, r).value;
            && row.sessionId == s && row.runtimeId == r
            && exists i :: 0 <= i < |changes| && Requests(changes[i], s, r) && changes[i].body == row.body
  {
    var before := Front(changes);
    if Fold(before, s, r).Some? {
      BodyWasRequested(before, s, r);
      var i :| 0 <= i < |before| && Requests(before[i], s, r) && before[i].body == Fold(before, s, r).value.body;
      assert changes[i] == before[i];
    } else {
      assert Requests(changes[|changes| - 1], s, r);
    }
  }

  /** The answers to a key, in order: the state each one gives, and what it says. */
  function AnswersTo<B>(changes: seq<Change<B>>, s: string, r: string): seq<(string, Option<string>)> {
    if changes == [] then []
    else
      var c := Last(changes);
      AnswersTo(Front(changes), s, r) + (if Answers(c, s, r) then [(c.state, c.answer)] else [])
  }

  lemma AnswersSnoc<B>(changes: seq<Change<B>>, i: nat, s: string, r: string)
    requires i < |changes|
    ensures var c := Last(changes);
            AnswersTo(changes[i..], s, r)
            == AnswersTo(Front(changes)[i..], s, r) + (if Answers(c, s, r) then [(c.state, c.answer)] else [])
  {
    assert Front(changes[i..]) == Front(changes)[i..] && Last(changes[i..]) == Last(changes);
  }

  /** Asked and answered so often, with this last answer. */
  ghost predicate Answered<B>(row: Row<B>, s: string, r: string, body: B, state: string,
                        answers: seq<(string, Option<string>)>)
  {
    && row.sessionId == s && row.runtimeId == r && row.body == body && row.state == state
    && row.answer == (if answers == [] then None else Last(answers).1)
    && row.version == 1 + |answers| && row.resolvedBy == None
  }

  /** The first request fixes what is asked and the first answer after it that leaves the state
      `pending` fixes the outcome; every later request or answer for the same key changes nothing.
      An answer that gives the state `pending` counts as an update and decides nothing. */
  lemma {:induction false} FirstAnswerWins<B>(changes: seq<Change<B>>, s: string, r: string, i: nat, k: nat)
    requires i < k <= |changes|
    requires Requests(changes[i], s, r) && forall j :: 0 <= j < i ==> !Requests(changes[j], s, r)
    requires forall j :: i < j < k && Answers(changes[j], s, r) ==> changes[j].state == "pending"
    requires k < |changes| ==> Answers(changes[k], s, r) && changes[k].state != "pending"
    ensures var answers := AnswersTo(changes[i..if k < |changes| then k + 1 else k], s, r);
            var row := Fold(changes, s, r);
            row.Some? && Answered(row.value, s, r, changes[i].body,
                                  if k < |changes| then changes[k].state else "pending", answers)
  {
    hide AnswersTo;
    var before := Front(changes);
    assert forall j :: 0 <= j < |before| ==> before[j] == changes[j];
    AnswersSnoc(changes, i, s, r);
    assert changes[i..|changes|] == changes[i..] && before[i..|before|] == before[i..];
    if i == |before| {
      FoldExists(before, s, r);
      NoAnswers<B>(before[i..], s, r);
    } else if k == |changes| {
      FirstAnswerWins(before, s, r, i, k - 1);
      assert AnswersTo(before[i..], s, r) + [] == AnswersTo(before[i..], s, r);
    } else {
      FirstAnswerWins(before, s, r, i, k);
      assert k < |before| ==> changes[i..k + 1] == before[i..k + 1];
    }
  }

  lemma NoAnswers<B>(changes: seq<Change<B>>, s: string, r: string)
    ensures changes == [] ==> AnswersTo(changes, s, r) == []
  {
  }

  /** Every row has such a history. */
  lemma HistoryOf<B>(changes: seq<Change<B>>, s: string, r: string) returns (i: nat, k: nat)
    requires Fold(changes, s, r).Some?
    ensures i < k <= |changes|
    ensures Requests(changes[i], s, r) && forall j :: 0 <= j < i ==> !Requests(changes[j], s, r)
    ensures forall j :: i < j < k && Answers(changes[j], s, r) ==> changes[j].state == "pending"
    ensures k < |changes| ==> Answers(changes[k], s, r) && changes[k].state != "pending"
  {
    FoldExists(changes, s, r);
    i := 0;
    while !Requests(changes[i], s, r)
      invariant i < |changes| && forall j :: 0 <= j < i ==> !Requests(changes[j], s, r)
      invariant exists j :: i <= j < |changes| && Requests(changes[j], s, r)
      decreases |changes| - i
    {
      i := i + 1;
    }
    k := i + 1;
    while k < |changes| && !(Answers(changes[k], s, r) && changes[k].state != "pending")
      invariant i < k <= |changes|
      invariant forall j :: i < j < k && Answers(changes[j], s, r) ==> changes[j].state == "pending"
    {
      k := k + 1;
    }
  }
}
