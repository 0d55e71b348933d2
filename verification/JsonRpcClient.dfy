/** The Codex JSON-RPC client: line framing of the child's standard output and the table of
    pending requests. */
module JsonRpcClient {
  import opened Common
  import opened TextSplitting

  /** What `onData` makes of one line. */
  datatype LineKind =
    | Blank
    | Response(id: string)       // has an id, and a result or an error
    | Notification               // has a method and is not a response
    | Ignored                    // well formed, but neither
    | Malformed                  // JSON.parse failed, or the value has no members

  /** How the promise of a request ended. */
  datatype Settlement = Resolved(message: string) | TimedOut | WriteFailed | ConnectionClosed | ClientClosed

  datatype Client = Client(
    buffer: string,
    closed: bool,
    pending: set<string>,
    settled: map<string, Settlement>,
    notified: seq<string>,
    errors: seq<string>)

  const Fresh: Client := Client("", false, {}, map[], [], [])

  /** A promise settles at most once: a later resolve or reject has no effect. */
  function Settle(c: Client, id: string, how: Settlement): Client {
    var rest := c.(pending := c.pending - {id});
    if id in c.settled then rest else rest.(settled := c.settled[id := how])
  }

  function Process(parse: string -> LineKind, c: Client, line: string): Client {
    match parse(line)
    case Response(id) => if id in c.pending then Settle(c, id, Resolved(line)) else c
    case Notification => c.(notified := c.notified + [line])
    case Malformed => c.(errors := c.errors + [line])
    case Blank => c
    case Ignored => c
  }

  function ProcessAll(parse: string -> LineKind, c: Client, lines: seq<string>): Client {
    if lines == [] then c else Process(parse, ProcessAll(parse, c, Front(lines)), Last(lines))
  }

  function Data(parse: string -> LineKind, c: Client, chunk: string): Client {
    var pieces := Split(LineFeed, c.buffer + chunk);
    ProcessAll(parse, c.(buffer := Last(pieces)), Front(pieces))
  }

  function DataAll(parse: string -> LineKind, c: Client, chunks: seq<string>): Client {
    if chunks == [] then c else Data(parse, DataAll(parse, c, Front(chunks)), Last(chunks))
  }

  function RejectAll(c: Client, ids: set<string>): Client {
    c.(pending := c.pending - ids,
       settled := map id | id in c.settled.Keys + ids :: if id in c.settled then c.settled[id] else ConnectionClosed)
  }

  /** Everything that can happen to a client. Request ids are fresh UUIDs. */
  datatype Event =
    | Send(id: string)
    | Chunk(text: string)
    | Timeout(id: string)
    | WriteError(id: string)
    | Close

  function Step(parse: string -> LineKind, c: Client, e: Event): Client {
    match e
    case Send(id) =>
      if c.closed then c.(settled := c.settled[id := ClientClosed]) else c.(pending := c.pending + {id})
    case Chunk(text) => Data(parse, c, text)
    case Timeout(id) =>
      // the timer is cleared when the entry goes
      if id in c.pending then Settle(c, id, TimedOut) else c
    case WriteError(id) => Settle(c, id, WriteFailed)
    case Close => RejectAll(c, c.pending).(closed := true)
  }

  /** The client object. `parse` stands for JSON.parse and the member tests after it. */
  class CodexClient {
    const parse: string -> LineKind
    var buffer: string
    var closed: bool
    var pending: set<string>
    var settled: map<string, Settlement>
    var notified: seq<string>
    var errors: seq<string>

    constructor (parse: string -> LineKind)
      ensures this.parse == parse && State() == Fresh
    {
      this.parse := parse;
      buffer, closed, pending, settled, notified, errors := "", false, {}, map[], [], [];
    }

    ghost function State(): Client
      reads this
    {
      Client(buffer, closed, pending, settled, notified, errors)
    }

    method OnData(data: string)
      modifies this
      ensures State() == Step(parse, old(State()), Chunk(data))
    {
      hide Split;
      buffer := buffer + data;
      var lines := Split(LineFeed, buffer);
      buffer := Last(lines);
      lines := Front(lines);
      label framed:
      var i := 0;
      while i < |lines|
        invariant 0 <= i <= |lines|
        invariant State() == ProcessAll(parse, old@framed(State()), lines[..i])
      {
        assert Front(lines[..i + 1]) == lines[..i];
        OnLine(lines[i]);
        i := i + 1;
      }
      assert lines[..i] == lines;
    }

    method OnLine(line: string)
      modifies this
      ensures State() == Process(parse, old(State()), line)
    {
      match parse(line) {
        case Blank =>
        case Response(id) =>
          if id in pending {
            pending := pending - {id};
            SettlePromise(id, Resolved(line));
          }
        case Notification =>
          notified := notified + [line];
        case Ignored =>
        case Malformed =>
          errors := errors + [line];
      }
    }

    method SettlePromise(id: string, how: Settlement)
      modifies this`settled
      ensures settled == if id in old(settled) then old(settled) else old(settled)[id := how]
    {
      if id !in settled {
        settled := settled[id := how];
      }
    }

    method SendRequest(id: string)
      requires id !in pending && id !in settled
      modifies this
      ensures State() == Step(parse, old(State()), Send(id))
    {
      if closed {
        SettlePromise(id, ClientClosed);
      } else {
        pending := pending + {id};
      }
    }

    method OnTimeout(id: string)
      modifies this
      ensures State() == Step(parse, old(State()), Timeout(id))
    {
      if id in pending {
        pending := pending - {id};
        SettlePromise(id, TimedOut);
      }
    }

    method OnWriteError(id: string)
      modifies this
      ensures State() == Step(parse, old(State()), WriteError(id))
    {
      pending := pending - {id};
      SettlePromise(id, WriteFailed);
    }

    method OnClose()
      modifies this
      ensures State() == Step(parse, old(State()), Close)
    {
      closed := true;
      var rest := pending;
      while rest != {}
        invariant rest <= pending == old(pending)
        invariant closed && buffer == old(buffer) && notified == old(notified) && errors == old(errors)
        invariant settled.Keys == old(settled).Keys + (pending - rest)
        invariant forall id :: id in settled ==>
                    settled[id] == if id in old(settled) then old(settled)[id] else ConnectionClosed
      {
        var id :| id in rest;
        SettlePromise(id, ConnectionClosed);
        rest := rest - {id};
      }
      pending := {};
    }
  }

  // ---------------------------------------------------------------------
  // Chunking is invisible
  // ---------------------------------------------------------------------

  ghost predicate NoLineFeed(s: string) {
    Split(LineFeed, s) == [s]
  }

  lemma {:induction false} ProcessAppend(parse: string -> LineKind, c: Client, a: seq<string>, b: seq<string>)
    ensures ProcessAll(parse, c, a + b) == ProcessAll(parse, ProcessAll(parse, c, a), b)
  {
    if b == [] {
      assert a + b == a;
    } else {
      ProcessAppend(parse, c, a, Front(b));
      assert Front(a + b) == a + Front(b);
    }
  }

  /** Processing never looks at the buffer. */
  lemma {:induction false} ProcessKeepsBuffer(parse: string -> LineKind, c: Client, buffer: string, lines: seq<string>)
    ensures ProcessAll(parse, c.(buffer := buffer), lines) == ProcessAll(parse, c, lines).(buffer := buffer)
    ensures ProcessAll(parse, c, lines).buffer == c.buffer
  {
    if lines != [] {
      ProcessKeepsBuffer(parse, c, buffer, Front(lines));
    }
  }

  lemma DataTwice(parse: string -> LineKind, c: Client, a: string, b: string)
    ensures Data(parse, Data(parse, c, a), b) == Data(parse, c, a + b)
  {
    hide Split;
    var first := Split(LineFeed, c.buffer + a);
    var more := Split(LineFeed, Last(first) + b);
    ProcessKeepsBuffer(parse, c, Last(first), Front(first));
    ProcessKeepsBuffer(parse, c, Last(more), Front(first));
    assert Data(parse, c, a) == ProcessAll(parse, c, Front(first)).(buffer := Last(first));
    assert first == Front(first) + [Last(first)];
    ReadChunk(LineFeed, c.buffer + a, Front(first), Last(first), b);
    assert c.buffer + a + b == c.buffer + (a + b);
    var all := Split(LineFeed, c.buffer + (a + b));
    assert Front(all) == Front(first) + Front(more) && Last(all) == Last(more);
    ProcessAppend(parse, c.(buffer := Last(more)), Front(first), Front(more));
  }

  /** However the child's output is cut into chunks, the same complete lines are processed in
      the same order and the same unfinished text is left in the buffer. */
  lemma {:induction false} ChunkingInvisible(parse: string -> LineKind, c: Client, chunks: seq<string>)
    requires NoLineFeed(c.buffer)
    ensures DataAll(parse, c, chunks) == Data(parse, c, Concat(chunks))
  {
    if chunks == [] {
      assert c.buffer + "" == c.buffer;
    } else {
      ChunkingInvisible(parse, c, Front(chunks));
      DataTwice(parse, c, Concat(Front(chunks)), Last(chunks));
    }
  }

  // ---------------------------------------------------------------------
  // Runs
  // ---------------------------------------------------------------------

  function Run(parse: string -> LineKind, events: seq<Event>): Client {
    if events == [] then Fresh else Step(parse, Run(parse, Front(events)), Last(events))
  }

  /** The requests issued by a run. */
  function Issued(events: seq<Event>): set<string> {
    if events == [] then {}
    else Issued(Front(events)) + (if Last(events).Send? then {Last(events).id} else {})
  }

  /** Ids are fresh, and callbacks only concern requests that were issued. */
  ghost predicate Possible(events: seq<Event>) {
    events != [] ==>
      && Possible(Front(events))
      && (Last(events).Send? ==> Last(events).id !in Issued(Front(events)))
      && (Last(events).WriteError? ==> Last(events).id in Issued(Front(events)))
  }

  lemma {:induction false} ProcessAllPartition(parse: string -> LineKind, c: Client, lines: seq<string>)
    requires c.pending !! c.settled.Keys
    ensures var d := ProcessAll(parse, c, lines);
            && d.pending !! d.settled.Keys && d.pending + d.settled.Keys == c.pending + c.settled.Keys
            && d.pending <= c.pending && d.closed == c.closed && d.buffer == c.buffer
            && (forall id :: id in c.settled ==> id in d.settled && d.settled[id] == c.settled[id])
            && (forall id :: id in d.settled && id !in c.settled ==>
                  d.settled[id].Resolved? && d.settled[id].message in lines
                      && parse(d.settled[id].message) == Response(id))
  {
    if lines != [] {
      ProcessAllPartition(parse, c, Front(lines));
    }
  }

  /** A pending request is resolved by the first response line that carries its id. */
  lemma {:induction false} FirstResponseWins(parse: string -> LineKind, c: Client, lines: seq<string>, k: nat,
                                             id: string)
    requires id in c.pending && id !in c.settled && c.pending !! c.settled.Keys
    requires k < |lines| && parse(lines[k]) == Response(id)
    requires forall j :: 0 <= j < k ==> parse(lines[j]) != Response(id)
    ensures var d := ProcessAll(parse, c, lines);
            id !in d.pending && id in d.settled && d.settled[id] == Resolved(lines[k])
  {
    if k == |lines| - 1 {
      ProcessAllPartition(parse, c, Front(lines));
    } else {
      FirstResponseWins(parse, c, Front(lines), k, id);
      ProcessAllPartition(parse, c, Front(lines));
    }
  }

  /** Every request is in exactly one place, a client that has closed has nothing pending, and
      the buffer never holds a complete line. */
  lemma {:induction false} EveryRequestAccountedFor(parse: string -> LineKind, events: seq<Event>)
    requires Possible(events)
    ensures var c := Run(parse, events);
            && c.pending !! c.settled.Keys
            && c.pending + c.settled.Keys == Issued(events)
            && (c.closed ==> c.pending == {})
            && NoLineFeed(c.buffer)
  {
    hide Split;
    if events == [] {
      SplitUnfolds(LineFeed, "");
    } else {
      var c := Run(parse, Front(events));
      EveryRequestAccountedFor(parse, Front(events));
      if Last(events).Chunk? {
        var pieces := Split(LineFeed, c.buffer + Last(events).text);
        ProcessAllPartition(parse, c.(buffer := Last(pieces)), Front(pieces));
        LastPieceIsUnfinished(c.buffer + Last(events).text);
      }
    }
  }

  lemma LastPieceIsUnfinished(s: string)
    ensures NoLineFeed(Last(Split(LineFeed, s)))
  {
  }

  /** Settled is final, closed is final, and a request only resolves with a response that
      carries its own id. */
  lemma {:induction false} SettledForGood(parse: string -> LineKind, events: seq<Event>, more: seq<Event>, id: string)
    requires Possible(events + more)
    ensures Possible(events)
    ensures var c := Run(parse, events);
            var d := Run(parse, events + more);
            && (id in c.settled ==> id in d.settled && d.settled[id] == c.settled[id])
            && (c.closed ==> d.closed && d.pending == {})
            && (id in d.settled && d.settled[id].Resolved? ==> parse(d.settled[id].message) == Response(id))
    decreases |events| + |more|
  {
    var all := events + more;
    EveryRequestAccountedFor(parse, all);
    if more == [] {
      assert all == events;
      if events != [] {
        assert Front(events) + [] == Front(events);
        SettledForGood(parse, Front(events), [], id);
        StepSettles(parse, Front(events), Last(events), id);
      }
    } else {
      assert Front(all) == events + Front(more);
      SettledForGood(parse, events, Front(more), id);
      StepSettles(parse, Front(all), Last(all), id);
    }
  }

  lemma StepSettles(parse: string -> LineKind, events: seq<Event>, e: Event, id: string)
    requires Possible(events + [e])
    ensures var c := Run(parse, events);
            var d := Step(parse, c, e);
            && (id in c.settled ==> id in d.settled && d.settled[id] == c.settled[id])
            && (c.closed ==> d.closed)
            && (id in d.settled && id !in c.settled && d.settled[id].Resolved? ==>
                parse(d.settled[id].message) == Response(id))
  {
    hide Split;
    assert Front(events + [e]) == events;
    EveryRequestAccountedFor(parse, events);
    var c := Run(parse, events);
    if e.Chunk? {
      var pieces := Split(LineFeed, c.buffer + e.text);
      ProcessAllPartition(parse, c.(buffer := Last(pieces)), Front(pieces));
    }
  }

  // ---------------------------------------------------------------------
  // What comes out of the child's output
  // ---------------------------------------------------------------------

  /** Everything the child has written so far. */
  function Received(events: seq<Event>): string {
    if events == [] then "" else Received(Front(events)) + (if Last(events).Chunk? then Last(events).text else "")
  }

  /** Lines, each with its line feed. */
  function Terminated(lines: seq<string>): string {
    if lines == [] then "" else lines[0] + "\n" + Terminated(lines[1..])
  }

  /** The lines of one kind. */
  function Only(parse: string -> LineKind, lines: seq<string>, kind: LineKind): seq<string> {
    if lines == [] then []
    else Only(parse, Front(lines), kind) + (if parse(Last(lines)) == kind then [Last(lines)] else [])
  }

  lemma {:induction false} OnlyAppend(parse: string -> LineKind, a: seq<string>, b: seq<string>, kind: LineKind)
    ensures Only(parse, a + b, kind) == Only(parse, a, kind) + Only(parse, b, kind)
  {
    if b == [] {
      assert a + b == a;
    } else {
      OnlyAppend(parse, a, Front(b), kind);
      assert Front(a + b) == a + Front(b);
    }
  }

  lemma NoFeedNoSplit(rest: string)
    requires '\n' !in rest
    ensures Split(LineFeed, rest) == [rest]
  {
    hide Split;
    SplitUnfolds(LineFeed, rest);
    assert FirstMatch(LineFeed, rest, 0) == |rest|;
  }

  lemma FirstLine(line: string, more: string)
    requires '\n' !in line
    ensures Split(LineFeed, line + "\n" + more) == [line] + Split(LineFeed, more)
  {
    hide Split;
    var text := line + "\n" + more;
    SplitUnfolds(LineFeed, text);
    assert forall k :: 0 <= k < |line| ==> text[k] == line[k];
    assert text[|line|] == '\n';
    FirstMatchIs(LineFeed, text, |line|);
    assert text[..|line|] == line && text[|line| + 1..] == more;
  }

  /** Splitting finds exactly the lines that were joined. */
  lemma {:induction false} LinesComeBack(lines: seq<string>, rest: string)
    requires '\n' !in rest && forall i :: 0 <= i < |lines| ==> '\n' !in lines[i]
    ensures Split(LineFeed, Terminated(lines) + rest) == lines + [rest]
  {
    hide Split;
    if lines == [] {
      assert Terminated(lines) + rest == rest;
      NoFeedNoSplit(rest);
    } else {
      LinesComeBack(lines[1..], rest);
      FirstLine(lines[0], Terminated(lines[1..]) + rest);
      assert Terminated(lines) + rest == lines[0] + "\n" + (Terminated(lines[1..]) + rest);
      assert lines + [rest] == [lines[0]] + (lines[1..] + [rest]);
    }
  }

  lemma {:induction false} ProcessEmits(parse: string -> LineKind, c: Client, lines: seq<string>)
    ensures ProcessAll(parse, c, lines).notified == c.notified + Only(parse, lines, Notification)
    ensures ProcessAll(parse, c, lines).errors == c.errors + Only(parse, lines, Malformed)
  {
    if lines != [] {
      ProcessEmits(parse, c, Front(lines));
    }
  }

  ghost predicate Heard(parse: string -> LineKind, c: Client, text: string) {
    var pieces := Split(LineFeed, text);
    && c.buffer == Last(pieces)
    && c.notified == Only(parse, Front(pieces), Notification)
    && c.errors == Only(parse, Front(pieces), Malformed)
  }

  lemma ChunkHeard(parse: string -> LineKind, c: Client, text: string, chunk: string)
    requires Heard(parse, c, text)
    ensures Heard(parse, Data(parse, c, chunk), text + chunk)
  {
    hide Split;
    var pieces, more := Split(LineFeed, text), Split(LineFeed, c.buffer + chunk);
    assert pieces == Front(pieces) + [Last(pieces)];
    ReadChunk(LineFeed, text, Front(pieces), c.buffer, chunk);
    var all := Split(LineFeed, text + chunk);
    assert Front(all) == Front(pieces) + Front(more) && Last(all) == Last(more);
    OnlyAppend(parse, Front(pieces), Front(more), Notification);
    OnlyAppend(parse, Front(pieces), Front(more), Malformed);
    ProcessEmits(parse, c.(buffer := Last(more)), Front(more));
    ProcessKeepsBuffer(parse, c, Last(more), Front(more));
  }

  lemma {:induction false} AllHeard(parse: string -> LineKind, events: seq<Event>)
    ensures Heard(parse, Run(parse, events), Received(events))
  {
    hide Split;
    if events == [] {
      SplitUnfolds(LineFeed, "");
    } else {
      AllHeard(parse, Front(events));
      if Last(events).Chunk? {
        ChunkHeard(parse, Run(parse, Front(events)), Received(Front(events)), Last(events).text);
      } else {
        assert Received(Front(events)) + "" == Received(Front(events));
      }
    }
  }

  /** Over all runs and however the output was cut: of the lines that the child has completed, exactly
      those that are notifications have been emitted as such, in order, and exactly the malformed ones
      as errors; the unfinished rest is in the buffer. */
  lemma EveryLineHeard(parse: string -> LineKind, events: seq<Event>, lines: seq<string>, rest: string)
    requires Received(events) == Terminated(lines) + rest
    requires '\n' !in rest && forall i :: 0 <= i < |lines| ==> '\n' !in lines[i]
    ensures var c := Run(parse, events);
            && c.notified == Only(parse, lines, Notification)
            && c.errors == Only(parse, lines, Malformed)
            && c.buffer == rest
  {
    hide Split, Run, Only;
    AllHeard(parse, events);
    LinesComeBack(lines, rest);
    assert Front(lines + [rest]) == lines;
  }

  // ---------------------------------------------------------------------
  // How each request ends
  // ---------------------------------------------------------------------

  predicate HasClosed(events: seq<Event>) {
    exists i :: 0 <= i < |events| && events[i].Close?
  }

  /** The lines that the last chunk completed. */
  function NewLines(events: seq<Event>): seq<string>
    requires events != [] && Last(events).Chunk?
  {
    Front(Split(LineFeed, Last(Split(LineFeed, Received(Front(events)))) + Last(events).text))
  }

  function FirstResponse(parse: string -> LineKind, lines: seq<string>, id: string): Option<string> {
    if lines == [] then None
    else if FirstResponse(parse, Front(lines), id).Some? then FirstResponse(parse, Front(lines), id)
    else if parse(Last(lines)) == Response(id) then Some(Last(lines))
    else None
  }

  /** How a request ended, told from the events: by whatever came first of a send on a closed client, its
      timeout, a failed write, the end of the connection, and a response with its id. */
  function Ending(parse: string -> LineKind, events: seq<Event>, id: string): Option<Settlement> {
    if events == [] then None
    else if Ending(parse, Front(events), id).Some? then Ending(parse, Front(events), id)
    else
      match Last(events)
      case Send(other) => if other == id && HasClosed(Front(events)) then Some(ClientClosed) else None
      case Timeout(other) => if other == id && id in Issued(Front(events)) then Some(TimedOut) else None
      case WriteError(other) => if other == id then Some(WriteFailed) else None
      case Close => if id in Issued(Front(events)) then Some(ConnectionClosed) else None
      case Chunk(_) =>
        var line := FirstResponse(parse, NewLines(events), id);
        if id in Issued(Front(events)) && line.Some? then Some(Resolved(line.value)) else None
  }

  lemma {:induction false} ProcessSettles(parse: string -> LineKind, c: Client, lines: seq<string>, id: string)
    requires c.pending !! c.settled.Keys
    ensures var d, line := ProcessAll(parse, c, lines), FirstResponse(parse, lines, id);
            && d.pending !! d.settled.Keys
            && (id in d.settled <==> id in c.settled || (id in c.pending && line.Some?))
            && (id in d.pending <==> id in c.pending && line.None?)
            && (id in d.settled ==> d.settled[id] == if id in c.settled then c.settled[id] else Resolved(line.value))
  {
    if lines != [] {
      ProcessSettles(parse, c, Front(lines), id);
    }
  }

  ghost predicate Ended(c: Client, ending: Option<Settlement>, id: string) {
    (id in c.settled <==> ending.Some?) && (id in c.settled ==> c.settled[id] == ending.value)
  }

  /** Every request that was issued ends as its events say, once and for all, and the client is closed if
      and only if the connection ended. */
  lemma {:induction false} RequestEndsAs(parse: string -> LineKind, events: seq<Event>, id: string)
    requires Possible(events)
    ensures Ended(Run(parse, events), Ending(parse, events, id), id)
    ensures Run(parse, events).closed <==> HasClosed(events)
  {
    hide Split, HasClosed;
    ClosedSnoc(events);
    if events != [] {
      var c := Run(parse, Front(events));
      RequestEndsAs(parse, Front(events), id);
      EveryRequestAccountedFor(parse, Front(events));
      if Last(events).Chunk? {
        var pieces := Split(LineFeed, c.buffer + Last(events).text);
        AllHeard(parse, Front(events));
        ProcessSettles(parse, c.(buffer := Last(pieces)), Front(pieces), id);
        ProcessAllPartition(parse, c.(buffer := Last(pieces)), Front(pieces));
      }
    }
  }

  lemma ClosedSnoc(events: seq<Event>)
    ensures HasClosed(events) <==> events != [] && (HasClosed(Front(events)) || Last(events).Close?)
  {
    if events != [] {
      assert forall i :: 0 <= i < |events| - 1 ==> Front(events)[i] == events[i];
      assert Last(events) == events[|events| - 1];
    }
  }
}
