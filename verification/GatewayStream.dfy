/** The gateway's side of a connection: the index of live connections, the opening sequence of a
    handshake (snapshot, then replay) and the broadcast of later events. */
module GatewayStream {
  import opened Common
  import opened BridgeTables
  import opened Frames

  const REPLAY_LIMIT := 500

  datatype Message =
    | Initialized
    | SnapshotMessage(watermark: nat)
    | EventMessage(sequence: nat)
    | Acknowledgement(text: string)

  /** What is handed to the socket: a sealed frame carries the connection's frame number. */
  datatype Frame = Sealed(number: nat, message: Message) | Plain(message: Message)

  /** One connection as the gateway sees it. `wire` is everything sent so far, `failed` the number
      of frames that were given a number and then turned out to be too large. */
  datatype Conn = Conn(open: bool, nextSend: nat, failed: nat, wire: seq<Frame>)

  /** Sending an envelope of this many bytes throws: the socket is open, and under the number that
      the frame would get it is too large. */
  predicate Blocks(c: Conn, size: nat) {
    c.open && !Fits(size, c.nextSend + 1)
  }

  /** `sendEncrypted`: nothing once the socket is not open. A message over the frame limit uses up
      a number and throws; any other is one more numbered frame. */
  function Send(c: Conn, m: Message, size: nat): Conn {
    if !c.open then c
    else if Blocks(c, size) then c.(nextSend := c.nextSend + 1, failed := c.failed + 1)
    else c.(nextSend := c.nextSend + 1, wire := c.wire + [Sealed(c.nextSend + 1, m)])
  }

  /** One message after another, up to the first that throws. */
  function SendAll(c: Conn, ms: seq<Message>, sizes: Message -> nat): (Conn, bool) {
    if ms == [] then (c, false)
    else
      var (d, threw) := SendAll(c, Front(ms), sizes);
      if threw then (d, true) else (Send(d, Last(ms), sizes(Last(ms))), Blocks(d, sizes(Last(ms))))
  }

  /** How many connections a broadcast gets past before one throws. */
  function Passed(cs: seq<Conn>, size: nat): (n: nat)
    ensures n <= |cs|
    ensures forall j :: 0 <= j < n ==> !Blocks(cs[j], size)
    ensures n < |cs| ==> Blocks(cs[n], size)
  {
    if cs == [] || Blocks(cs[0], size) then 0 else 1 + Passed(cs[1..], size)
  }

  /** The rows a client with this cursor gets replayed: none for a client without a cursor. */
  function Replay(journal: seq<Entry>, cursor: int): seq<Entry> {
    if cursor <= 0 then [] else Take(RowsAfter(journal, None, cursor), REPLAY_LIMIT)
  }

  function EventMessages(rows: seq<Entry>): seq<Message> {
    seq(|rows|, i requires 0 <= i < |rows| => EventMessage(rows[i].sequence))
  }

  /** The sealed messages of a handshake. A client that asked for the host key gets its first
      message in the clear instead. */
  function Opening(journal: seq<Entry>, cursor: int, wantsHostKey: bool): seq<Message> {
    (if wantsHostKey then [] else [Initialized]) + [SnapshotMessage(LastSequence(journal))]
    + EventMessages(Replay(journal, cursor))
  }

  function Opened(journal: seq<Entry>, cursor: int, wantsHostKey: bool, sizes: Message -> nat): (Conn, bool) {
    var start := Conn(true, 0, 0, if wantsHostKey then [Plain(Initialized)] else []);
    SendAll(start, Opening(journal, cursor, wantsHostKey), sizes)
  }

  class AuthenticatedClient {
    const deviceKey: string
    var open: bool
    var nextSendSequence: nat
    ghost var failed: nat
    var wire: seq<Frame>

    constructor (deviceKey: string)
      ensures this.deviceKey == deviceKey && State() == Conn(true, 0, 0, [])
    {
      this.deviceKey := deviceKey;
      open, nextSendSequence, failed, wire := true, 0, 0, [];
    }

    ghost function State(): Conn
      reads this
    {
      Conn(open, nextSendSequence, failed, wire)
    }

    method SendEncrypted(m: Message, size: nat) returns (threw: bool)
      modifies this
      ensures State() == Send(old(State()), m, size) && (threw <==> Blocks(old(State()), size))
    {
      if !open {
        return false;
      }
      nextSendSequence := nextSendSequence + 1;
      if FrameSize(size, nextSendSequence) > FRAME_SIZE_LIMIT {
        failed := failed + 1;
        return true;
      }
      wire := wire + [Sealed(nextSendSequence, m)];
      threw := false;
    }

    method SendPlaintext(m: Message)
      modifies this
      ensures State() == if old(open) then old(State()).(wire := old(wire) + [Plain(m)]) else old(State())
    {
      if open {
        wire := wire + [Plain(m)];
      }
    }
  }

  class UcpGateway {
    const db: Database
    const journal: EventJournal
    /** A JavaScript set is iterated in the order of insertion. */
    var authenticated: seq<AuthenticatedClient>
    var byDeviceKey: map<string, set<AuthenticatedClient>>
    /** The clients in the index: those authenticated and not cleaned up yet. */
    ghost var indexed: set<AuthenticatedClient>

    constructor (db: Database, journal: EventJournal)
      requires journal.db == db
      ensures this.db == db && this.journal == journal && authenticated == [] && Indexed()
    {
      this.db, this.journal := db, journal;
      authenticated, byDeviceKey, indexed := [], map[], {};
    }

    /** The index groups its clients by device key, with no empty group. */
    ghost predicate Valid()
      reads this
    {
      && journal.db == db
      && (forall c :: c in authenticated ==> c in indexed)
      && (forall i, j :: 0 <= i < j < |authenticated| ==> authenticated[i] != authenticated[j])
      && (forall k :: k in byDeviceKey ==>
            byDeviceKey[k] != {} && forall c :: c in byDeviceKey[k] ==> c in indexed && c.deviceKey == k)
      && (forall c :: c in indexed ==> c.deviceKey in byDeviceKey && c in byDeviceKey[c.deviceKey])
    }

    /** Until `stop()` the index is exactly the grouping of the live connections. */
    ghost predicate Indexed()
      reads this
    {
      Valid() && forall c :: c in indexed ==> c in authenticated
    }

    /** The part of the handshake that follows a granted device. It throws when the snapshot or a
        replayed row is too large for a frame; the client stays registered. */
    method Authenticate(deviceKey: string, cursor: int, wantsHostKey: bool, sizes: Message -> nat)
      returns (client: AuthenticatedClient, threw: bool)
      requires Valid() && Rising(db.journal)
      modifies this
      ensures Valid() && (old(Indexed()) ==> Indexed()) && fresh(client) && client.deviceKey == deviceKey
      ensures authenticated == old(authenticated) + [client] && indexed == old(indexed) + {client}
      ensures (client.State(), threw) == Opened(db.journal, cursor, wantsHostKey, sizes)
    {
      hide Opened;
      client := new AuthenticatedClient(deviceKey);
      Register(client);
      threw := SendOpening(client, cursor, wantsHostKey, sizes);
    }

    method Register(client: AuthenticatedClient)
      requires Valid() && client !in indexed
      modifies this
      ensures Valid() && authenticated == old(authenticated) + [client] && indexed == old(indexed) + {client}
    {
      authenticated := authenticated + [client];
      var clients := if client.deviceKey in byDeviceKey then byDeviceKey[client.deviceKey] else {};
      byDeviceKey := byDeviceKey[client.deviceKey := clients + {client}];
      indexed := indexed + {client};
    }

    method SendOpening(client: AuthenticatedClient, cursor: int, wantsHostKey: bool, sizes: Message -> nat)
      returns (threw: bool)
      requires journal.db == db && Rising(db.journal) && client.State() == Conn(true, 0, 0, [])
      modifies client
      ensures (client.State(), threw) == Opened(db.journal, cursor, wantsHostKey, sizes)
    {
      hide SendAll, EventMessages, Opened;
      OpeningInParts(db.journal, cursor, wantsHostKey, sizes);
      assert [] + [Plain(Initialized)] == [Plain(Initialized)];
      if wantsHostKey {
        client.SendPlaintext(Initialized);
      } else {
        threw := client.SendEncrypted(Initialized, sizes(Initialized));
        if threw {
          return;
        }
      }
      var watermark := journal.GetLatestSequence(None);
      assert db.journal != [] ==> Selects(None, 0, db.journal[|db.journal| - 1]);
      assert watermark == LastSequence(db.journal);
      threw := client.SendEncrypted(SnapshotMessage(watermark), sizes(SnapshotMessage(watermark)));
      if threw {
        return;
      }
      threw := ReplayEvents(client, cursor, sizes);
    }

    method ReplayEvents(client: AuthenticatedClient, cursor: int, sizes: Message -> nat) returns (threw: bool)
      requires journal.db == db
      modifies client
      ensures (client.State(), threw) == SendAll(old(client.State()), EventMessages(Replay(db.journal, cursor)), sizes)
    {
      if cursor <= 0 {
        return false;
      }
      var rows := journal.GetAfter(None, cursor, REPLAY_LIMIT);
      ghost var ms := EventMessages(rows);
      var i := 0;
      while i < |rows|
        invariant 0 <= i <= |rows|
        invariant (client.State(), false) == SendAll(old(client.State()), ms[..i], sizes)
      {
        assert Front(ms[..i + 1]) == ms[..i];
        SendAllSplits(old(client.State()), ms[..i + 1], ms[i + 1..], sizes);
        assert ms[..i + 1] + ms[i + 1..] == ms;
        var failed := client.SendEncrypted(EventMessage(rows[i].sequence), sizes(EventMessage(rows[i].sequence)));
        if failed {
          return true;
        }
        i := i + 1;
      }
      assert ms[..i] == ms;
      threw := false;
    }

    /** `broadcast`: the clients get the message in turn. It throws at the first one under whose
        frame number the message is too large; that one loses a number, those after it get nothing.
        `passed` is the number of clients before it. */
    method Broadcast(m: Message, size: nat) returns (threw: bool, ghost passed: nat)
      requires Valid()
      modifies authenticated
      ensures passed <= |authenticated| && (threw <==> passed < |authenticated|)
      ensures forall k :: 0 <= k < passed ==> !Blocks(old(authenticated[k].State()), size)
      ensures threw ==> Blocks(old(authenticated[passed].State()), size)
      ensures forall k :: 0 <= k < |authenticated| ==>
                authenticated[k].State()
                == if k <= passed then Send(old(authenticated[k].State()), m, size) else old(authenticated[k].State())
    {
      hide Send, Blocks;
      var i := 0;
      while i < |authenticated|
        invariant 0 <= i <= |authenticated|
        invariant forall k :: 0 <= k < i ==> !Blocks(old(authenticated[k].State()), size)
        invariant forall k :: 0 <= k < |authenticated| ==>
                    authenticated[k].State()
                    == if k < i then Send(old(authenticated[k].State()), m, size) else old(authenticated[k].State())
      {
        threw := authenticated[i].SendEncrypted(m, size);
        if threw {
          passed := i;
          return;
        }
        i := i + 1;
      }
      threw, passed := false, i;
    }

    /** `cleanup`, which may run several times for one connection, and after `stop()`. */
    method Cleanup(client: AuthenticatedClient)
      requires Valid()
      modifies this
      ensures Valid() && (old(Indexed()) ==> Indexed()) && indexed == old(indexed) - {client}
      ensures forall c :: c in authenticated <==> c in old(authenticated) && c != client
    {
      Remove(client);
      indexed := indexed - {client};
      if client.deviceKey in byDeviceKey {
        var clients := byDeviceKey[client.deviceKey] - {client};
        if clients == {} {
          byDeviceKey := byDeviceKey - {client.deviceKey};
        } else {
          byDeviceKey := byDeviceKey[client.deviceKey := clients];
        }
      }
    }

    /** `Set.prototype.delete`: the others keep their order. */
    method Remove(client: AuthenticatedClient)
      requires forall i, j :: 0 <= i < j < |authenticated| ==> authenticated[i] != authenticated[j]
      modifies this`authenticated
      ensures forall c :: c in authenticated <==> c in old(authenticated) && c != client
      ensures forall i, j :: 0 <= i < j < |authenticated| ==> authenticated[i] != authenticated[j]
      ensures client !in old(authenticated) ==> authenticated == old(authenticated)
      ensures client in old(authenticated) ==>
                exists i :: 0 <= i < |old(authenticated)| && old(authenticated)[i] == client
                            && authenticated == old(authenticated)[..i] + old(authenticated)[i + 1..]
    {
      var i := 0;
      while i < |authenticated| && authenticated[i] != client
        invariant 0 <= i <= |authenticated| && client !in authenticated[..i]
      {
        i := i + 1;
      }
      if i < |authenticated| {
        authenticated := authenticated[..i] + authenticated[i + 1..];
      }
    }

    /** `disconnectDevice` closes precisely the indexed connections of the device. */
    method DisconnectDevice(deviceKey: string)
      requires Valid()
      modifies indexed
      ensures forall c :: c in indexed ==>
                c.State() == if c.deviceKey == deviceKey then old(c.State()).(open := false) else old(c.State())
    {
      if deviceKey in byDeviceKey {
        var rest := byDeviceKey[deviceKey];
        while rest != {}
          invariant rest <= byDeviceKey[deviceKey]
          invariant forall c :: c in indexed ==>
                      c.State()
                      == if c.deviceKey == deviceKey && c !in rest then old(c.State()).(open := false)
                        else old(c.State())
        {
          var c :| c in rest;
          c.open := false;
          rest := rest - {c};
        }
      }
    }

    /** `stop` closes every live connection and forgets it, but leaves the index to the close events
        that follow, so the index is right at once only if nobody was connected. */
    method Stop()
      requires Indexed()
      modifies this`authenticated, authenticated
      ensures Valid() && authenticated == []
      ensures forall c :: c in indexed ==> c.State() == old(c.State()).(open := false)
      ensures Indexed() <==> old(authenticated) == []
    {
      CloseAll();
      assert authenticated != [] ==> authenticated[0] in indexed;
      authenticated := [];
    }

    method CloseAll()
      requires Indexed()
      modifies authenticated
      ensures forall c :: c in indexed ==> c.State() == old(c.State()).(open := false)
    {
      var i := 0;
      while i < |authenticated|
        invariant 0 <= i <= |authenticated|
        invariant forall k :: 0 <= k < |authenticated| ==>
                    authenticated[k].State()
                    == if k < i then old(authenticated[k].State()).(open := false) else old(authenticated[k].State())
      {
        authenticated[i].open := false;
        i := i + 1;
      }
    }

    /** The close events of some connections, in any order: each runs its cleanup. Once they have
        come for every client, the index is empty, also after `stop()`. */
    method CloseEvents(clients: set<AuthenticatedClient>)
      requires Valid()
      modifies this
      ensures Valid() && (old(Indexed()) ==> Indexed()) && indexed == old(indexed) - clients
      ensures old(indexed) <= clients ==> byDeviceKey == map[] && authenticated == [] && Indexed()
    {
      var rest := clients;
      while rest != {}
        invariant rest <= clients && Valid() && (old(Indexed()) ==> Indexed())
        invariant indexed == old(indexed) - (clients - rest)
      {
        var c :| c in rest;
        Cleanup(c);
        rest := rest - {c};
      }
      if old(indexed) <= clients {
        FirstIsMember(authenticated, indexed);
        GroupsHaveMembers(byDeviceKey, indexed);
      }
    }
  }

  lemma FirstIsMember<T>(s: seq<T>, members: set<T>)
    requires forall i :: 0 <= i < |s| ==> s[i] in members
    ensures s != [] ==> members != {}
  {
    if s != [] {
      assert s[0] in members;
    }
  }

  lemma GroupsHaveMembers<T>(groups: map<string, set<T>>, members: set<T>)
    requires forall k :: k in groups ==> groups[k] != {} && groups[k] <= members
    ensures groups != map[] ==> members != {}
  {
    if k :| k in groups {
      assert groups[k] <= members;
    }
  }

  // ---------------------------------------------------------------------
  // What is on the wire
  // ---------------------------------------------------------------------

  /** A message about a journaled event. An event without a journal row is sent with sequence 0. */
  predicate Numbers(m: Message) {
    m.EventMessage? && m.sequence > 0
  }

  /** The journal sequences of the events on the wire, in order. */
  function EventNumbers(wire: seq<Frame>): seq<nat> {
    if wire == [] then []
    else EventNumbers(Front(wire)) + (if Numbers(Last(wire).message) then [Last(wire).message.sequence] else [])
  }

  /** The number of sealed frames. */
  function SealedCount(wire: seq<Frame>): nat {
    if wire == [] then 0 else SealedCount(Front(wire)) + (if Last(wire).Sealed? then 1 else 0)
  }

  /** Sealed frames carry rising numbers, one number is missing for each frame that was too large,
      and without such frames the numbers are 1, 2, 3, ... */
  ghost predicate FramesNumbered(c: Conn) {
    && c.nextSend == SealedCount(c.wire) + c.failed
    && (forall i :: 0 <= i < |c.wire| && c.wire[i].Sealed? ==>
          && SealedCount(c.wire[..i + 1]) <= c.wire[i].number <= c.nextSend
          && (c.failed == 0 ==> c.wire[i].number == SealedCount(c.wire[..i + 1])))
    && (forall i, j :: 0 <= i < j < |c.wire| && c.wire[i].Sealed? && c.wire[j].Sealed? ==>
        c.wire[i].number < c.wire[j].number)
  }

  lemma SendAllUnfolds(c: Conn, ms: seq<Message>, sizes: Message -> nat)
    ensures SendAll(c, ms, sizes) ==
              if ms == [] then (c, false)
              else
                var (d, threw) := SendAll(c, Front(ms), sizes);
                if threw then (d, true) else (Send(d, Last(ms), sizes(Last(ms))), Blocks(d, sizes(Last(ms))))
  {
  }

  lemma {:induction false} SendAllSplits(c: Conn, a: seq<Message>, b: seq<Message>, sizes: Message -> nat)
    ensures var (d, threw) := SendAll(c, a, sizes);
            SendAll(c, a + b, sizes) == if threw then (d, true) else SendAll(d, b, sizes)
  {
    if b == [] {
      assert a + b == a;
    } else {
      SendAllSplits(c, a, Front(b), sizes);
      assert Front(a + b) == a + Front(b);
    }
  }

  /** A handshake, message by message. */
  lemma OpeningInParts(journal: seq<Entry>, cursor: int, wantsHostKey: bool, sizes: Message -> nat)
    ensures var start := Conn(true, 0, 0, if wantsHostKey then [Plain(Initialized)] else []);
            var c := if wantsHostKey then start else Send(start, Initialized, sizes(Initialized));
            var d := Send(c, SnapshotMessage(LastSequence(journal)), sizes(SnapshotMessage(LastSequence(journal))));
            Opened(journal, cursor, wantsHostKey, sizes) == (
              if !wantsHostKey && Blocks(start, sizes(Initialized)) then (c, true)
              else if Blocks(c, sizes(SnapshotMessage(LastSequence(journal)))) then (d, true)
              else SendAll(d, EventMessages(Replay(journal, cursor)), sizes))
  {
    hide SendAll, EventMessages;
    var start := Conn(true, 0, 0, if wantsHostKey then [Plain(Initialized)] else []);
    var hello := if wantsHostKey then [] else [Initialized];
    var snapshot := hello + [SnapshotMessage(LastSequence(journal))];
    assert Front(snapshot) == hello;
    SendAllUnfolds(start, [], sizes);
    SendAllUnfolds(start, hello, sizes);
    SendAllUnfolds(start, snapshot, sizes);
    SendAllSplits(start, snapshot, EventMessages(Replay(journal, cursor)), sizes);
  }

  lemma SendEffect(c: Conn, m: Message, size: nat)
    ensures var d := Send(c, m, size);
            && d.open == c.open && (!c.open ==> d == c)
            && EventNumbers(d.wire)
               == EventNumbers(c.wire) + (if c.open && !Blocks(c, size) && Numbers(m) then [m.sequence] else [])
            && (FramesNumbered(c) ==> FramesNumbered(d))
            && (c.open ==> d.nextSend == c.nextSend + 1)
  {
    hide FramesNumbered;
    var d := Send(c, m, size);
    assert EventNumbers(c.wire) + [] == EventNumbers(c.wire);
    if c.open {
      if !Blocks(c, size) {
        assert Front(d.wire) == c.wire;
      }
      if FramesNumbered(c) {
        NextFrame(c, m, size);
      }
    }
  }

  lemma NextFrame(c: Conn, m: Message, size: nat)
    requires FramesNumbered(c) && c.open
    ensures FramesNumbered(Send(c, m, size))
  {
    hide Fits;
    var d := Send(c, m, size);
    if !Blocks(c, size) {
      assert Front(d.wire) == c.wire && d.wire[..|c.wire| + 1] == d.wire;
      assert forall i :: 0 <= i < |c.wire| ==> d.wire[i] == c.wire[i] && d.wire[..i + 1] == c.wire[..i + 1];
    }
  }

  lemma StillNumbered(c: Conn)
    requires FramesNumbered(c)
    ensures FramesNumbered(c.(open := false))
  {
  }

  function EventsOf(ms: seq<Message>): seq<nat> {
    if ms == [] then [] else EventsOf(Front(ms)) + (if Numbers(Last(ms)) then [Last(ms).sequence] else [])
  }

  /** Is there a message too large for the number that its turn gives it? */
  ghost predicate Unfit(ms: seq<Message>, sizes: Message -> nat, sent: nat) {
    exists i :: 0 <= i < |ms| && !Fits(sizes(ms[i]), sent + i + 1)
  }

  lemma UnfitSnoc(ms: seq<Message>, sizes: Message -> nat, sent: nat)
    requires ms != []
    ensures Unfit(ms, sizes, sent) <==> Unfit(Front(ms), sizes, sent) || !Fits(sizes(Last(ms)), sent + |ms|)
  {
    assert forall i :: 0 <= i < |ms| - 1 ==> Front(ms)[i] == ms[i];
    assert !Fits(sizes(Last(ms)), sent + |ms|) ==> !Fits(sizes(ms[|ms| - 1]), sent + (|ms| - 1) + 1);
    if i :| 0 <= i < |Front(ms)| && !Fits(sizes(Front(ms)[i]), sent + i + 1) {
      assert !Fits(sizes(ms[i]), sent + i + 1);
    }
  }

  /** Sending to an open connection delivers a prefix of the messages, all of them exactly when
      every one fits under the number that its turn gives it. */
  lemma {:induction false} SendAllEffect(c: Conn, ms: seq<Message>, sizes: Message -> nat)
    requires c.open && FramesNumbered(c)
    ensures var (d, threw) := SendAll(c, ms, sizes);
            && d.open && FramesNumbered(d)
            && EventNumbers(c.wire) <= EventNumbers(d.wire) <= EventNumbers(c.wire) + EventsOf(ms)
            && (!threw ==>
                EventNumbers(d.wire) == EventNumbers(c.wire) + EventsOf(ms) && d.nextSend == c.nextSend + |ms|)
            && (threw <==> Unfit(ms, sizes, c.nextSend))
  {
    hide FramesNumbered, EventNumbers, Send, Fits, Numbers;
    if ms != [] {
      UnfitSnoc(ms, sizes, c.nextSend);
      hide Unfit;
    }
    if ms == [] {
      assert EventNumbers(c.wire) + EventsOf(ms) == EventNumbers(c.wire);
    } else {
      var (d, threw) := SendAll(c, Front(ms), sizes);
      SendAllEffect(c, Front(ms), sizes);
      EventsGrow(EventNumbers(c.wire), ms);
      if !threw {
        SendEffect(d, Last(ms), sizes(Last(ms)));
        assert EventNumbers(d.wire) + [] == EventNumbers(d.wire);
      }
    }
  }

  lemma EventsGrow(before: seq<nat>, ms: seq<Message>)
    requires ms != []
    ensures before + EventsOf(Front(ms)) <= before + EventsOf(ms)
    ensures before + EventsOf(ms)
         == before + EventsOf(Front(ms)) + (if Numbers(Last(ms)) then [Last(ms).sequence] else [])
  {
  }

  function Sequences(rows: seq<Entry>): seq<nat> {
    seq(|rows|, i requires 0 <= i < |rows| => rows[i].sequence)
  }

  lemma EventsOfSnoc(ms: seq<Message>, m: Message)
    ensures EventsOf(ms + [m]) == EventsOf(ms) + (if Numbers(m) then [m.sequence] else [])
  {
    assert Front(ms + [m]) == ms;
  }

  lemma {:induction false} EventsOfRows(before: seq<Message>, rows: seq<Entry>)
    requires EventsOf(before) == [] && forall i :: 0 <= i < |rows| ==> rows[i].sequence > 0
    ensures EventsOf(before + EventMessages(rows)) == Sequences(rows)
  {
    hide EventsOf;
    if rows == [] {
      assert before + EventMessages(rows) == before;
    } else {
      EventsOfRows(before, Front(rows));
      EventsOfSnoc(before + EventMessages(Front(rows)), EventMessage(Last(rows).sequence));
      assert before + EventMessages(rows)
          == before + EventMessages(Front(rows)) + [EventMessage(Last(rows).sequence)];
      assert Sequences(rows) == Sequences(Front(rows)) + [Last(rows).sequence];
    }
  }

  /** These rows are the end of the journal, and everything before them is at or below the cursor. */
  ghost predicate SuffixAfter(journal: seq<Entry>, rows: seq<Entry>, cursor: int) {
    && |rows| <= |journal| && rows == journal[|journal| - |rows|..]
    && (forall i :: 0 <= i < |journal| - |rows| ==> journal[i].sequence <= cursor)
    && (forall i :: 0 <= i < |rows| ==> rows[i].sequence > cursor)
  }

  lemma SuffixSnoc(journal: seq<Entry>, rows: seq<Entry>, e: Entry, cursor: int)
    requires SuffixAfter(journal, rows, cursor) && e.sequence > cursor
    ensures SuffixAfter(journal + [e], rows + [e], cursor)
  {
    var k := |journal| - |rows|;
    assert (journal + [e])[k..] == journal[k..] + [e];
  }

  lemma EmptySuffix(journal: seq<Entry>, cursor: int)
    requires Rising(journal) && LastSequence(journal) <= cursor
    ensures SuffixAfter(journal, [], cursor)
  {
    NoneAboveLast(journal);
  }

  /** Sequences rise, so the rows after a cursor are a suffix of the journal. */
  lemma {:induction false} RowsAfterIsSuffix(journal: seq<Entry>, cursor: int)
    requires Rising(journal)
    ensures SuffixAfter(journal, RowsAfter(journal, None, cursor), cursor)
  {
    if LastSequence(journal) <= cursor {
      hide Rising, SuffixAfter;
      NothingAfter(journal, cursor);
      EmptySuffix(journal, cursor);
    } else if journal != [] {
      hide Rising, SuffixAfter;
      RisingFront(journal);
      RowsAfterIsSuffix(Front(journal), cursor);
      SuffixSnoc(Front(journal), RowsAfter(Front(journal), None, cursor), Last(journal), cursor);
      assert journal == Front(journal) + [Last(journal)];
    }
  }

  lemma {:induction false} NothingAfter(journal: seq<Entry>, cursor: int)
    requires Rising(journal) && LastSequence(journal) <= cursor
    ensures RowsAfter(journal, None, cursor) == []
  {
    hide Rising;
    if journal != [] {
      RisingFront(journal);
      NothingAfter(Front(journal), cursor);
    }
  }

  lemma {:induction false} AllRowsAfterZero(journal: seq<Entry>, cursor: int)
    requires Rising(journal) && cursor <= 0
    ensures RowsAfter(journal, None, cursor) == journal
  {
    hide Rising;
    if journal != [] {
      RisingFront(journal);
      AllRowsAfterZero(Front(journal), cursor);
      assert journal == Front(journal) + [Last(journal)];
    }
  }

  /** What is replayed are the first rows of those after the cursor: they rise from just above it to
      at most the watermark. */
  lemma ReplayRises(journal: seq<Entry>, cursor: int)
    requires Rising(journal)
    ensures var rows := Replay(journal, cursor);
            && Rising(rows) && rows <= RowsAfter(journal, None, cursor)
            && |rows| == (if cursor <= 0 then 0
                          else if |RowsAfter(journal, None, cursor)| <= 500 then |RowsAfter(journal, None, cursor)|
                          else 500)
            && forall i :: 0 <= i < |rows| ==> cursor < rows[i].sequence <= LastSequence(journal) && rows[i] in journal
  {
    hide RowsAfter, Rising, LastSequence;
    var rows := Replay(journal, cursor);
    RowsAfterExact(journal, None, cursor);
    forall i | 0 <= i < |rows|
      ensures cursor < rows[i].sequence <= LastSequence(journal) && rows[i].sequence > 0 && rows[i] in journal
    {
      RowIsSelected(journal, None, cursor, rows[i]);
      AtMostLast(journal, rows[i]);
    }
    assert Rising(rows) by {
      RisingIf(rows);
    }
  }

  lemma AtMostLast(journal: seq<Entry>, e: Entry)
    requires Rising(journal) && e in journal
    ensures 0 < e.sequence <= LastSequence(journal)
  {
    NoneAboveLast(journal);
  }

  lemma RisingIf(rows: seq<Entry>)
    requires forall i :: 0 <= i < |rows| ==> rows[i].sequence > 0
    requires forall i, j :: 0 <= i < j < |rows| ==> rows[i].sequence < rows[j].sequence
    ensures Rising(rows)
  {
  }

  /** Rows that are journaled later come after those. */
  lemma {:induction false} RowsAfterGrow(journal: seq<Entry>, later: seq<Entry>, cursor: int)
    requires journal <= later
    ensures RowsAfter(journal, None, cursor) <= RowsAfter(later, None, cursor)
  {
    RowsGrow(later, |journal|, None, cursor);
    assert later[..|journal|] == journal;
  }

  /** Before the replay nothing on the wire is an event. */
  lemma NoEventsYet(watermark: nat, wantsHostKey: bool)
    ensures var start := Conn(true, 0, 0, if wantsHostKey then [Plain(Initialized)] else []);
            FramesNumbered(start) && EventNumbers(start.wire) == []
    ensures EventsOf((if wantsHostKey then [] else [Initialized]) + [SnapshotMessage(watermark)]) == []
  {
    assert Front([Plain(Initialized)]) == [];
    EventsOfSnoc([], Initialized);
    assert [] + [Initialized] == [Initialized];
    EventsOfSnoc(if wantsHostKey then [] else [Initialized], SnapshotMessage(watermark));
  }

  /** A handshake replays, in order and leaving none out, the rows after the cursor, all of them up to
      the limit exactly when every message of the handshake fits in a frame. */
  lemma OpenedEffect(journal: seq<Entry>, cursor: int, wantsHostKey: bool, sizes: Message -> nat)
    requires Rising(journal)
    ensures var (c, threw) := Opened(journal, cursor, wantsHostKey, sizes);
            && c.open && FramesNumbered(c)
            && EventNumbers(c.wire) <= Sequences(Replay(journal, cursor))
            && (!threw ==> EventNumbers(c.wire) == Sequences(Replay(journal, cursor)))
            && (threw <==> Unfit(Opening(journal, cursor, wantsHostKey), sizes, 0))
  {
    var start := Conn(true, 0, 0, if wantsHostKey then [Plain(Initialized)] else []);
    var hello := (if wantsHostKey then [] else [Initialized]) + [SnapshotMessage(LastSequence(journal))];
    NoEventsYet(LastSequence(journal), wantsHostKey);
    hide EventsOf;
    ReplayRises(journal, cursor);
    EventsOfRows(hello, Replay(journal, cursor));
    hide Replay, FramesNumbered, EventNumbers, SendAll, Unfit;
    SendAllEffect(start, Opening(journal, cursor, wantsHostKey), sizes);
    assert [] + Sequences(Replay(journal, cursor)) == Sequences(Replay(journal, cursor));
  }

  /** Which replays are complete: with a cursor every row after it is replayed exactly when the 501st
      row from the end is not one of them; without one, exactly when the journal is empty. */
  lemma ReplayCompleteIff(journal: seq<Entry>, cursor: int)
    requires Rising(journal)
    ensures Replay(journal, cursor) == RowsAfter(journal, None, cursor) <==>
              if cursor <= 0 then journal == []
              else |journal| <= 500 || journal[|journal| - 501].sequence <= cursor
  {
    RowsAfterIsSuffix(journal, cursor);
  }

  // ---------------------------------------------------------------------
  // The messages of a handshake
  // ---------------------------------------------------------------------

  function Messages(wire: seq<Frame>): seq<Message> {
    seq(|wire|, i requires 0 <= i < |wire| => wire[i].message)
  }

  /** These messages, sealed under consecutive numbers. */
  function Seals(ms: seq<Message>, first: nat): seq<Frame> {
    seq(|ms|, i requires 0 <= i < |ms| => Sealed(first + i, ms[i]))
  }

  /** Sending message after message puts exactly these messages on the wire, up to the first that is too
      large for its number. */
  lemma {:induction false} SendAllSeals(c: Conn, ms: seq<Message>, sizes: Message -> nat) returns (n: nat)
    requires c.open
    ensures n <= |ms|
    ensures var (d, threw) := SendAll(c, ms, sizes);
            && d.open && d.wire == c.wire + Seals(ms[..n], c.nextSend + 1) && (threw <==> n < |ms|)
            && d.nextSend == c.nextSend + n + (if threw then 1 else 0)
            && d.failed == c.failed + (if threw then 1 else 0)
    ensures forall i :: 0 <= i < n ==> Fits(sizes(ms[i]), c.nextSend + i + 1)
    ensures n < |ms| ==> !Fits(sizes(ms[n]), c.nextSend + n + 1)
  {
    hide Fits;
    if ms == [] {
      n := 0;
      assert c.wire + Seals(ms[..n], c.nextSend + 1) == c.wire;
    } else {
      n := SendAllSeals(c, Front(ms), sizes);
      var d := SendAll(c, Front(ms), sizes).0;
      assert Front(ms)[..n] == ms[..n];
      if n == |ms| - 1 && Fits(sizes(Last(ms)), d.nextSend + 1) {
        assert Seals(ms[..n + 1], c.nextSend + 1)
            == Seals(ms[..n], c.nextSend + 1) + [Sealed(d.nextSend + 1, Last(ms))];
        n := n + 1;
      }
    }
  }

  /** What a handshake tells the phone. */
  function Told(journal: seq<Entry>, cursor: int): seq<Message> {
    var watermark := if journal == [] then 0 else Last(journal).sequence;
    [Initialized] + [SnapshotMessage(watermark)] + EventMessages(Replay(journal, cursor))
  }

  /** As frames: the greeting of a client that asked for the host key is in the clear and has no number. */
  function Sealing(all: seq<Message>, wantsHostKey: bool): seq<Frame>
    requires all != []
  {
    if wantsHostKey then [Plain(all[0])] + Seals(all[1..], 1) else Seals(all, 1)
  }

  lemma SealingMeans(all: seq<Message>, wantsHostKey: bool)
    requires all != [] && all[0] == Initialized
    ensures Messages(Sealing(all, wantsHostKey)) == all
    ensures Sealing(all, wantsHostKey)
         == (if wantsHostKey then [Plain(Initialized)] else []) + Seals(if wantsHostKey then all[1..] else all, 1)
  {
    assert [] + Seals(all, 1) == Seals(all, 1);
  }

  lemma SealsPrefix(before: seq<Frame>, ms: seq<Message>, n: nat)
    requires n <= |ms|
    ensures before + Seals(ms[..n], 1) <= before + Seals(ms, 1)
    ensures before + Seals(ms[..n], 1) == before + Seals(ms, 1) <==> n == |ms|
  {
    assert ms[..|ms|] == ms;
  }

  lemma MessagesPrefix(a: seq<Frame>, b: seq<Frame>)
    requires a <= b
    ensures Messages(a) <= Messages(b) && (a == b <==> Messages(a) == Messages(b))
  {
  }

  /** After a handshake that does not throw the wire holds exactly the greeting, the snapshot with the
      last sequence of the journal as its watermark, and the replayed events, numbered from 1. A
      handshake that throws got as far as the first message that is too large. */
  lemma HandshakeTells(journal: seq<Entry>, cursor: int, wantsHostKey: bool, sizes: Message -> nat)
    ensures var (c, threw) := Opened(journal, cursor, wantsHostKey, sizes);
            var all := Told(journal, cursor);
            && all != []
            && c.wire <= Sealing(all, wantsHostKey) && (!threw <==> c.wire == Sealing(all, wantsHostKey))
            && Messages(c.wire) <= all && (!threw <==> Messages(c.wire) == all)
  {
    var start := Conn(true, 0, 0, if wantsHostKey then [Plain(Initialized)] else []);
    var all, ms := Told(journal, cursor), Opening(journal, cursor, wantsHostKey);
    OpeningIsTold(journal, cursor, wantsHostKey);
    hide Told, Opening, SendAll, Sealing, Seals, Messages;
    var n := SendAllSeals(start, ms, sizes);
    SealingMeans(all, wantsHostKey);
    SealsPrefix(start.wire, ms, n);
    MessagesPrefix(SendAll(start, ms, sizes).0.wire, Sealing(all, wantsHostKey));
  }

  lemma OpeningIsTold(journal: seq<Entry>, cursor: int, wantsHostKey: bool)
    ensures var all := Told(journal, cursor);
            all != [] && all[0] == Initialized
                && Opening(journal, cursor, wantsHostKey) == if wantsHostKey then all[1..] else all
  {
    hide Replay;
  }
}
