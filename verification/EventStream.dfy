/** The bridge and all its connections together: handled events, handshakes, replies and lost
    sockets in any order, and what each phone's connection carries as a result. */
module EventStream {
  import opened Common
  import opened BridgeTables
  import opened Frames
  import opened GatewayStream
  import A = AdapterManager
  import P = Projection

  /** A connection with what is remembered about its handshake: the journal at that moment, whose last
      sequence is the watermark, and the number of frames sent by then. `since` is every journaled event
      whose broadcast got past it. */
  datatype Link = Link(
    conn: Conn,
    cursor: int,
    seen: seq<Entry>,
    complete: bool,
    shake: nat,
    replayed: seq<nat>,
    since: seq<nat>)

  /** `links` in the order of their handshakes, lost ones included. */
  datatype World = World(bridge: A.Bridge, links: seq<Link>)

  const Start: World := World(A.Empty, [])

  /** `size` is the length of the event's envelope, `sizes` that of each message of a handshake. */
  datatype Step =
    | Bridge(op: P.Op, size: nat)
    | Connect(cursor: int, wantsHostKey: bool, sizes: Message -> nat)
    | Reply(k: nat, text: string, size: nat)
    | Lose(k: nat)

  function Conns(links: seq<Link>): seq<Conn> {
    seq(|links|, k requires 0 <= k < |links| => links[k].conn)
  }

  /** `broadcast` of one event to the connections in turn, up to the first that throws. */
  function Publish(links: seq<Link>, sequence: nat, size: nat): seq<Link> {
    var passed := Passed(Conns(links), size);
    seq(|links|, k requires 0 <= k < |links| =>
      var l := links[k];
      if k > passed then l
      else l.(conn := Send(l.conn, EventMessage(sequence), size),
              since := if k < passed && sequence > 0 then l.since + [sequence] else l.since))
  }

  function Closed(links: seq<Link>): seq<Link> {
    seq(|links|, k requires 0 <= k < |links| => links[k].(conn := links[k].conn.(open := false)))
  }

  function Next(w: World, s: Step): World {
    match s
    case Bridge(op, size) =>
      if op.Handle? then
        var throws := Passed(Conns(w.links), size) < |w.links|;
        var (b, outcome) := A.HandleEvent(w.bridge, op.adapter, op.e, op.rowId, op.runtimeId, throws);
        World(b, if outcome.Threw? then w.links else Publish(w.links, outcome.sequence, size))
      else World(P.Step(w.bridge, op), if op.Restart? then Closed(w.links) else w.links)
    case Connect(cursor, wantsHostKey, sizes) =>
      var journal := w.bridge.db.journal;
      var (c, threw) := Opened(journal, cursor, wantsHostKey, sizes);
      w.(links := w.links + [Link(c, cursor, journal, !threw, |c.wire|, EventNumbers(c.wire), [])])
    case Reply(k, text, size) =>
      if k >= |w.links| then w
      else w.(links := w.links[k := w.links[k].(conn := Send(w.links[k].conn, Acknowledgement(text), size))])
    case Lose(k) =>
      if k >= |w.links| then w
      else w.(links := w.links[k := w.links[k].(conn := w.links[k].conn.(open := false))])
  }

  function Run(steps: seq<Step>): World {
    if steps == [] then Start else Next(Run(Front(steps)), Last(steps))
  }

  function OpsOf(steps: seq<Step>): seq<P.Op> {
    if steps == [] then [] else OpsOf(Front(steps)) + (if Last(steps).Bridge? then [Last(steps).op] else [])
  }

  /** Connections do not reach back: the bridge's tables are those of its own operations. */
  lemma {:induction false} BridgeRuns(steps: seq<Step>)
    ensures Run(steps).bridge == P.Run(OpsOf(steps))
  {
    hide A.HandleEvent;
    if steps != [] {
      BridgeRuns(Front(steps));
      var s, b := Last(steps), Run(Front(steps)).bridge;
      if s.Bridge? {
        P.RunSnoc(OpsOf(Front(steps)), s.op);
        if s.op.Handle? {
          var throws := Passed(Conns(Run(Front(steps)).links), s.size) < |Run(Front(steps)).links|;
          P.BroadcastChangesNothing(b, s.op.adapter, s.op.e, s.op.rowId, s.op.runtimeId, throws);
        }
      } else {
        assert OpsOf(Front(steps)) + [] == OpsOf(Front(steps));
      }
    }
  }

  // ---------------------------------------------------------------------
  // Order on every connection
  // ---------------------------------------------------------------------

  ghost predicate RisingWithin(numbers: seq<nat>, low: nat, high: nat) {
    && (forall i :: 0 <= i < |numbers| ==> low < numbers[i] <= high)
    && (forall i, j :: 0 <= i < j < |numbers| ==> numbers[i] < numbers[j])
  }

  lemma RisingWithinSnoc(numbers: seq<nat>, low: nat, high: nat)
    requires RisingWithin(numbers, low, high) && low <= high
    ensures RisingWithin(numbers, low, high + 1) && RisingWithin(numbers + [high + 1], low, high + 1)
  {
  }

  ghost predicate Follows(replayed: seq<nat>, since: seq<nat>, numbers: seq<nat>, open: bool) {
    replayed <= numbers <= replayed + since && (open ==> numbers == replayed + since)
  }

  /** With this last number given out: the wire holds the replay, then a prefix of what was broadcast
      since, and all of it while the socket is open. */
  ghost predicate LinkOrdered(l: Link, n: nat) {
    && Rising(l.seen) && LastSequence(l.seen) <= n
    && RisingWithin(l.since, LastSequence(l.seen), n)
    && FramesNumbered(l.conn)
    && l.replayed <= Sequences(Replay(l.seen, l.cursor))
    && (l.complete ==> l.replayed == Sequences(Replay(l.seen, l.cursor)))
    && Follows(l.replayed, l.since, EventNumbers(l.conn.wire), l.conn.open)
  }

  ghost predicate Ordered(w: World) {
    && Numbered(w.bridge.db)
    && forall k :: 0 <= k < |w.links| ==>
         LinkOrdered(w.links[k], w.bridge.db.counter) && w.links[k].seen <= w.bridge.db.journal
  }

  lemma MoreRows(l: Link, n: nat, m: nat)
    requires LinkOrdered(l, n) && n <= m
    ensures LinkOrdered(l, m)
  {
    hide FramesNumbered, EventNumbers, Replay, Sequences, Rising, LastSequence;
  }

  /** An event is journaled with the next sequence, or not at all and then sent with sequence 0. */
  lemma HandleJournals(b: A.Bridge, op: P.Op, throws: bool)
    requires op.Handle? && Numbered(b.db)
    ensures var (c, outcome) := A.HandleEvent(b, op.adapter, op.e, op.rowId, op.runtimeId, throws);
            && Numbered(c.db) && b.db.counter <= c.db.counter <= b.db.counter + 1
            && (|| (c.db.journal == b.db.journal && (outcome.Threw? || outcome.sequence == 0))
                || (c.db.journal == b.db.journal + [Entry(b.db.counter + 1, op.e)] && c.db.counter == b.db.counter + 1
                    && (outcome.Threw? || outcome.sequence == c.db.counter)))
  {
    hide A.Project, A.EnsureSession, Appended, Numbered;
    var ensured := if op.e.sessionId == "" then Some(b) else A.EnsureSession(b, op.e.sessionId, op.adapter);
    if ensured.Some? {
      if op.e.sessionId != "" {
        P.EnsureOnlySessions(b, op.e.sessionId, op.adapter);
      }
      var db := Appended(ensured.value.db, op.e).0;
      P.ProjectOthers(db, op.e, op.rowId, op.runtimeId);
      SameJournal(b.db, ensured.value.db);
      AppendJournals(ensured.value.db, op.e);
      SameJournal(db, Coalesce(A.Project(db, op.e, op.rowId, op.runtimeId), db));
    }
  }

  lemma AppendJournals(db: Tables, e: Event)
    requires Numbered(db)
    ensures var (after, sequence) := Appended(db, e);
            && Numbered(after) && db.counter <= after.counter <= db.counter + 1
            && (|| (after.journal == db.journal && (sequence == None || sequence == Some(0)))
                || (after.journal == db.journal + [Entry(db.counter + 1, e)] && after.counter == db.counter + 1
                    && sequence == Some(after.counter)))
  {
    NoneAboveLast(db.journal);
  }

  lemma SameJournal(db: Tables, other: Tables)
    ensures db.journal == other.journal && db.counter == other.counter ==> (Numbered(db) <==> Numbered(other))
  {
  }

  lemma StepJournals(b: A.Bridge, op: P.Op)
    requires !op.Handle?
    ensures P.Step(b, op).db.journal == b.db.journal && P.Step(b, op).db.counter == b.db.counter
  {
  }

  lemma ReachedKeeps(l: Link, n: nat, size: nat)
    requires LinkOrdered(l, n) && !Blocks(l.conn, size)
    ensures LinkOrdered(l.(conn := Send(l.conn, EventMessage(n + 1), size), since := l.since + [n + 1]), n + 1)
  {
    NumberSent(l.conn, n + 1, size);
    RisingWithinSnoc(l.since, LastSequence(l.seen), n);
    WireGrows(l.replayed, l.since, EventNumbers(l.conn.wire), l.conn.open, n + 1);
    hide Follows, RisingWithin, FramesNumbered, EventNumbers, Replay, Sequences, Rising, LastSequence, Send, Blocks;
  }

  lemma NumberSent(c: Conn, x: nat, size: nat)
    requires FramesNumbered(c) && !Blocks(c, size) && x > 0
    ensures var d := Send(c, EventMessage(x), size);
            && d.open == c.open && FramesNumbered(d)
            && EventNumbers(d.wire) == if c.open then EventNumbers(c.wire) + [x] else EventNumbers(c.wire)
  {
    SendEffect(c, EventMessage(x), size);
    hide FramesNumbered, EventNumbers;
  }

  lemma WireGrows(replayed: seq<nat>, since: seq<nat>, wire: seq<nat>, open: bool, x: nat)
    requires Follows(replayed, since, wire, open)
    ensures Follows(replayed, since + [x], if open then wire + [x] else wire, open)
  {
  }

  lemma FollowsNothing(numbers: seq<nat>, open: bool)
    ensures Follows(numbers, [], numbers, open)
  {
  }

  /** A message that carries no number, or is too large, leaves the order alone. */
  lemma UnnumberedKeeps(l: Link, n: nat, m: Message, size: nat)
    requires LinkOrdered(l, n) && (Numbers(m) ==> Blocks(l.conn, size))
    ensures LinkOrdered(l.(conn := Send(l.conn, m, size)), n)
  {
    SendEffect(l.conn, m, size);
    hide RisingWithin, FramesNumbered, EventNumbers, Replay, Sequences, Rising, LastSequence, Send, Blocks;
    assert EventNumbers(l.conn.wire) + [] == EventNumbers(l.conn.wire);
  }

  lemma PublishKeeps(links: seq<Link>, n: nat, sequence: nat, size: nat, k: nat)
    requires k < |links| && LinkOrdered(links[k], n) && (sequence == 0 || sequence == n + 1)
    ensures LinkOrdered(Publish(links, sequence, size)[k], if sequence == 0 then n else n + 1)
  {
    hide LinkOrdered, Send, Blocks;
    var l, passed := links[k], Passed(Conns(links), size);
    BlocksAt(links, k, size);
    MoreRows(l, n, n + 1);
    if k < passed && sequence > 0 {
      ReachedKeeps(l, n, size);
    } else if k <= passed {
      UnnumberedKeeps(l, n, EventMessage(sequence), size);
      MoreRows(l.(conn := Send(l.conn, EventMessage(sequence), size)), n, n + 1);
    }
  }

  lemma CloseKeeps(l: Link, n: nat)
    requires LinkOrdered(l, n)
    ensures LinkOrdered(l.(conn := l.conn.(open := false)), n)
  {
    StillNumbered(l.conn);
  }

  lemma ConnectKeeps(journal: seq<Entry>, cursor: int, wantsHostKey: bool, sizes: Message -> nat, n: nat)
    requires Rising(journal) && LastSequence(journal) <= n
    ensures var (c, threw) := Opened(journal, cursor, wantsHostKey, sizes);
            LinkOrdered(Link(c, cursor, journal, !threw, |c.wire|, EventNumbers(c.wire), []), n)
  {
    OpenedEffect(journal, cursor, wantsHostKey, sizes);
    hide Follows, FramesNumbered, EventNumbers, Replay, Sequences, Rising, LastSequence, Opened;
    var (c, threw) := Opened(journal, cursor, wantsHostKey, sizes);
    FollowsNothing(EventNumbers(c.wire), c.open);
  }

  lemma NextOrdered(w: World, s: Step)
    requires Ordered(w)
    ensures Ordered(Next(w, s))
  {
    hide LinkOrdered, A.HandleEvent, Opened, P.Step, Publish, Send, Rising;
    var v, n := Next(w, s), w.bridge.db.counter;
    match s
    case Bridge(op, size) =>
      if op.Handle? {
        PublishOrdered(w, op, size);
      } else {
        StepJournals(w.bridge, op);
        forall k | 0 <= k < |w.links| ensures LinkOrdered(v.links[k], n) {
          CloseKeeps(w.links[k], n);
        }
      }
    case Connect(cursor, wantsHostKey, sizes) =>
      ConnectKeeps(w.bridge.db.journal, cursor, wantsHostKey, sizes, n);
    case Reply(k, text, size) =>
      if k < |w.links| {
        UnnumberedKeeps(w.links[k], n, Acknowledgement(text), size);
      }
    case Lose(k) =>
      if k < |w.links| {
        CloseKeeps(w.links[k], n);
      }
  }

  lemma PublishOrdered(w: World, op: P.Op, size: nat)
    requires Ordered(w) && op.Handle?
    ensures Ordered(Next(w, Bridge(op, size)))
  {
    hide LinkOrdered, A.HandleEvent, Publish, Numbered;
    var v, n := Next(w, Bridge(op, size)), w.bridge.db.counter;
    var throws := Passed(Conns(w.links), size) < |w.links|;
    HandleJournals(w.bridge, op, throws);
    var (b, outcome) := A.HandleEvent(w.bridge, op.adapter, op.e, op.rowId, op.runtimeId, throws);
    PublishLength(w.links, if outcome.Threw? then 0 else outcome.sequence, size);
    forall k | 0 <= k < |w.links|
      ensures LinkOrdered(v.links[k], b.db.counter) && v.links[k].seen == w.links[k].seen
    {
      if outcome.Threw? {
        MoreRows(w.links[k], n, b.db.counter);
      } else {
        PublishKeeps(w.links, n, outcome.sequence, size, k);
        MoreRows(v.links[k], if outcome.sequence == 0 then n else n + 1, b.db.counter);
      }
    }
  }

  lemma PublishLength(links: seq<Link>, sequence: nat, size: nat)
    ensures |Publish(links, sequence, size)| == |links|
    ensures forall k :: 0 <= k < |links| ==> Publish(links, sequence, size)[k].seen == links[k].seen
  {
  }

  /** On every connection, in every reachable state: first the replay, then the live events, no
      journaled one of them missing whose broadcast got that far. */
  lemma {:induction false} StreamOrder(steps: seq<Step>)
    ensures Ordered(Run(steps))
  {
    hide Next, LinkOrdered;
    if steps != [] {
      StreamOrder(Front(steps));
      NextOrdered(Run(Front(steps)), Last(steps));
    }
  }

  /** On each connection the event numbers are strictly increasing. The replayed ones are the first of
      the journal rows after the cursor, with none left out between them, at most 500 and up to the
      watermark; the live ones are all above the watermark. */
  lemma EventsStrictlyIncrease(steps: seq<Step>, k: nat)
    requires k < |Run(steps).links|
    ensures var l, journal := Run(steps).links[k], Run(steps).bridge.db.journal;
            var numbers := EventNumbers(l.conn.wire);
            var replayed := |l.replayed|;
            && replayed <= |numbers| && replayed <= 500
            && (forall i, j :: 0 <= i < j < |numbers| ==> numbers[i] < numbers[j])
            && numbers[..replayed] <= Sequences(RowsAfter(journal, None, l.cursor))
            && (forall i :: 0 <= i < replayed ==> l.cursor < numbers[i] <= LastSequence(l.seen))
            && (forall i :: replayed <= i < |numbers| ==> numbers[i] > LastSequence(l.seen))
  {
    hide EventNumbers, FramesNumbered, Run, Replay, RowsAfter, LastSequence, Numbered;
    StreamOrder(steps);
    var l, journal := Run(steps).links[k], Run(steps).bridge.db.journal;
    assert LinkOrdered(l, Run(steps).bridge.db.counter) && l.seen <= journal;
    ReplayRises(l.seen, l.cursor);
    RowsAfterGrow(l.seen, journal, l.cursor);
  }

  // ---------------------------------------------------------------------
  // Everything on the wire
  // ---------------------------------------------------------------------

  /** The journal and the cursor at the handshake of the k-th connection. */
  function ShakeOf(steps: seq<Step>, k: nat): Option<(seq<Entry>, int)> {
    if steps == [] then None
    else
      var w := Run(Front(steps));
      if Last(steps).Connect? && |w.links| == k then Some((w.bridge.db.journal, Last(steps).cursor))
      else ShakeOf(Front(steps), k)
  }

  /** Was the k-th socket lost, or the bridge restarted, since its handshake? */
  function WasLost(steps: seq<Step>, k: nat): bool {
    if steps == [] then false
    else if Last(steps).Connect? && |Run(Front(steps)).links| == k then false
    else
      || WasLost(Front(steps), k)
      || (Last(steps).Lose? && Last(steps).k == k)
      || (Last(steps).Bridge? && Last(steps).op.Restart?)
  }

  /** The replies that went out on the k-th connection: those handed to it while it was open and small
      enough for the number they got. */
  function RepliesTo(steps: seq<Step>, k: nat): seq<string> {
    if steps == [] then []
    else
      var w, s := Run(Front(steps)), Last(steps);
      if s.Connect? && |w.links| == k then []
      else
        RepliesTo(Front(steps), k)
        + (if && s.Reply? && s.k == k && k < |w.links| && !WasLost(Front(steps), k)
              && Fits(s.size, w.links[k].conn.nextSend + 1)
           then [s.text] else [])
  }

  function Acknowledged(ms: seq<Message>): seq<string> {
    if ms == [] then []
    else Acknowledged(Front(ms)) + (if Last(ms).Acknowledgement? then [Last(ms).text] else [])
  }

  /** First the handshake and nothing else, then events and these replies. */
  ghost predicate WireTold(l: Link, replies: seq<string>, lost: bool) {
    var ms := Messages(l.conn.wire);
    && l.conn.open == !lost
    && l.shake <= |ms|
    && ms[..l.shake] <= Told(l.seen, l.cursor) && (l.complete ==> ms[..l.shake] == Told(l.seen, l.cursor))
    && (forall i :: l.shake <= i < |ms| ==> ms[i].EventMessage? || ms[i].Acknowledgement?)
    && Acknowledged(ms[l.shake..]) == replies
  }

  lemma SendTells(l: Link, m: Message, size: nat, replies: seq<string>, lost: bool)
    requires WireTold(l, replies, lost) && (m.EventMessage? || m.Acknowledgement?)
    ensures WireTold(l.(conn := Send(l.conn, m, size)),
                     replies + (if m.Acknowledgement? && !lost && Fits(size, l.conn.nextSend + 1) then [m.text]
                                else []),
                     lost)
  {
    hide Fits, Told;
    var ms := Messages(l.conn.wire);
    var more := Messages(Send(l.conn, m, size).wire);
    assert replies + [] == replies;
    if l.conn.open && Fits(size, l.conn.nextSend + 1) {
      assert more == ms + [m];
      assert more[..l.shake] == ms[..l.shake];
      assert more[l.shake..] == ms[l.shake..] + [m] && Front(more[l.shake..]) == ms[l.shake..];
    }
  }

  lemma CloseTells(l: Link, replies: seq<string>, lost: bool)
    requires WireTold(l, replies, lost)
    ensures WireTold(l.(conn := l.conn.(open := false)), replies, true)
  {
  }

  lemma ConnectTells(journal: seq<Entry>, cursor: int, wantsHostKey: bool, sizes: Message -> nat)
    ensures var (c, threw) := Opened(journal, cursor, wantsHostKey, sizes);
            WireTold(Link(c, cursor, journal, !threw, |c.wire|, EventNumbers(c.wire), []), [], false)
  {
    HandshakeTells(journal, cursor, wantsHostKey, sizes);
    OpenedIsOpen(journal, cursor, wantsHostKey, sizes);
    hide Opened, Told, EventNumbers;
    var ms := Messages(Opened(journal, cursor, wantsHostKey, sizes).0.wire);
    assert ms[..|ms|] == ms && ms[|ms|..] == [];
  }

  lemma OpenedIsOpen(journal: seq<Entry>, cursor: int, wantsHostKey: bool, sizes: Message -> nat)
    ensures Opened(journal, cursor, wantsHostKey, sizes).0.open
  {
    var start := Conn(true, 0, 0, if wantsHostKey then [Plain(Initialized)] else []);
    var n := SendAllSeals(start, Opening(journal, cursor, wantsHostKey), sizes);
  }

  lemma PublishTells(links: seq<Link>, sequence: nat, size: nat, k: nat, replies: seq<string>, lost: bool)
    requires k < |links| && WireTold(links[k], replies, lost)
    ensures k < |Publish(links, sequence, size)| && WireTold(Publish(links, sequence, size)[k], replies, lost)
    ensures Publish(links, sequence, size)[k].cursor == links[k].cursor
  {
    hide Send, Told, Acknowledged;
    var l := links[k];
    SendTells(l, EventMessage(sequence), size, replies, lost);
    assert replies + [] == replies;
    var m := Publish(links, sequence, size)[k];
    assert m.conn == l.conn || m.conn == l.(conn := Send(l.conn, EventMessage(sequence), size)).conn;
  }

  lemma NextTells(w: World, s: Step, k: nat, replies: seq<string>, lost: bool)
    requires k < |w.links| && WireTold(w.links[k], replies, lost)
    ensures var v := Next(w, s);
            && k < |v.links| && v.links[k].seen == w.links[k].seen && v.links[k].cursor == w.links[k].cursor
            && WireTold(v.links[k],
                        replies + (if s.Reply? && s.k == k && !lost && Fits(s.size, w.links[k].conn.nextSend + 1)
                                   then [s.text] else []),
                        lost || (s.Lose? && s.k == k) || (s.Bridge? && s.op.Restart?))
  {
    hide WireTold, A.HandleEvent, Opened, P.Step, Publish, Send, Fits;
    assert replies + [] == replies;
    match s
    case Bridge(op, size) =>
      if op.Handle? {
        var throws := Passed(Conns(w.links), size) < |w.links|;
        var outcome := A.HandleEvent(w.bridge, op.adapter, op.e, op.rowId, op.runtimeId, throws).1;
        if !outcome.Threw? {
          PublishTells(w.links, outcome.sequence, size, k, replies, lost);
          PublishLength(w.links, outcome.sequence, size);
        }
      } else {
        CloseTells(w.links[k], replies, lost);
      }
    case Connect(cursor, wantsHostKey, sizes) =>
    case Reply(j, text, size) =>
      if j == k {
        SendTells(w.links[k], Acknowledgement(text), size, replies, lost);
      }
    case Lose(j) =>
      CloseTells(w.links[k], replies, lost);
  }

  /** Every connection, in every reachable state: its wire holds the handshake ahead of everything else,
      with one greeting, one snapshot under the watermark of that moment's journal, and the replay;
      after that events and exactly the replies handed to it, as they were given. It is open until its
      socket is lost or the bridge restarts. */
  lemma {:induction false} WireIsTold(steps: seq<Step>, k: nat)
    requires k < |Run(steps).links|
    ensures WireTold(Run(steps).links[k], RepliesTo(steps, k), WasLost(steps, k))
    ensures ShakeOf(steps, k) == Some((Run(steps).links[k].seen, Run(steps).links[k].cursor))
  {
    hide WireTold, Fits;
    var w, s := Run(Front(steps)), Last(steps);
    if k < |w.links| {
      WireIsTold(Front(steps), k);
      NextTells(w, s, k, RepliesTo(Front(steps), k), WasLost(Front(steps), k));
    } else {
      NewLink(w, s, k);
      hide Next;
      ConnectTells(w.bridge.db.journal, s.cursor, s.wantsHostKey, s.sizes);
    }
  }

  lemma NewLink(w: World, s: Step, k: nat)
    requires |w.links| <= k < |Next(w, s).links|
    ensures s.Connect? && k == |w.links|
    ensures var (c, threw) := Opened(w.bridge.db.journal, s.cursor, s.wantsHostKey, s.sizes);
            Next(w, s).links[k]
              == Link(c, s.cursor, w.bridge.db.journal, !threw, |c.wire|, EventNumbers(c.wire), [])
  {
    hide A.HandleEvent, Opened, P.Step, Send;
  }

  // ---------------------------------------------------------------------
  // Which events arrive
  // ---------------------------------------------------------------------

  /** Nothing stands between an event and the k-th connection: neither its own frame nor that of an
      open connection before it is too large. */
  ghost predicate Clear(links: seq<Link>, k: nat, size: nat) {
    forall j :: 0 <= j <= k && j < |links| ==> !Blocks(links[j].conn, size)
  }

  lemma ClearIff(links: seq<Link>, k: nat, size: nat)
    requires k < |links|
    ensures Clear(links, k, size) <==> k < Passed(Conns(links), size)
  {
    var passed := Passed(Conns(links), size);
    assert forall j :: 0 <= j < |links| ==> Conns(links)[j] == links[j].conn;
    if k >= passed {
      assert Blocks(links[passed].conn, size);
    }
  }

  /** Exactly which runtime events reach an open connection with their journal sequence: seen before
      the call, those that can be journaled, do not make a branch read a null payload, repeat no
      request, and are small enough for the frame number of this connection and of every open one
      before it. */
  lemma DeliveredIff(steps: seq<Step>, op: P.Op, size: nat, k: nat)
    requires op.Handle? && P.Possible(OpsOf(steps) + [op])
    requires k < |Run(steps).links| && Run(steps).links[k].conn.open
    ensures var w := Run(steps);
            var before := EventNumbers(w.links[k].conn.wire);
            var after := Next(w, Bridge(op, size)).links;
            && k < |after|
            && EventNumbers(after[k].conn.wire)
               == before + (if && P.CanJournal(w.bridge, op.adapter, op.e)
                               && !P.ReadsNull(op.e) && !P.Repeats(w.bridge.db, op.e, op.runtimeId)
                               && Clear(w.links, k, size)
                            then [w.bridge.db.counter + 1] else [])
  {
    hide P.Projected, P.Repeats, P.CanJournal, P.ReadsNull, Run, EventNumbers, Send, Blocks,
        A.HandleEvent, Clear, P.Possible, Publish;
    var w := Run(steps);
    var throws := Passed(Conns(w.links), size) < |w.links|;
    BridgeRuns(steps);
    P.StepsAfter(OpsOf(steps), op, throws);
    ClearIff(w.links, k, size);
    var (b, outcome) := A.HandleEvent(w.bridge, op.adapter, op.e, op.rowId, op.runtimeId, throws);
    assert EventNumbers(w.links[k].conn.wire) + [] == EventNumbers(w.links[k].conn.wire);
    if !outcome.Threw? {
      SendEffect(w.links[k].conn, EventMessage(outcome.sequence), size);
      BlocksAt(w.links, k, size);
    }
    PublishedAt(w.links, if outcome.Threw? then 0 else outcome.sequence, size, k);
  }

  lemma PublishedAt(links: seq<Link>, sequence: nat, size: nat, k: nat)
    requires k < |links|
    ensures var after := Publish(links, sequence, size);
            && |after| == |links|
            && after[k].conn
               == if k <= Passed(Conns(links), size) then Send(links[k].conn, EventMessage(sequence), size)
                 else links[k].conn
  {
  }

  lemma BlocksAt(links: seq<Link>, k: nat, size: nat)
    requires k < |links|
    ensures k < Passed(Conns(links), size) ==> !Blocks(links[k].conn, size)
    ensures k == Passed(Conns(links), size) ==> Blocks(links[k].conn, size)
  {
    assert Conns(links)[k] == links[k].conn;
  }
}
