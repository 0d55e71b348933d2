/** Commands from phones: the ledger keyed by idempotency key, and the dispatch to the runtime
    adapter whose calls complete later and in any order. */
module CommandDispatch {
  import opened Common
  import opened Frames

  datatype CommandState = Accepted | Dispatched | Confirmed | Failed

  datatype CommandRow = CommandRow(key: string, device: string, sessionId: Option<string>, kind: Kind,
                                   state: CommandState)

  /** Command types; `session.focus` is served by the host, every other one by the adapter. */
  datatype Kind = Start | Approve | SendText | Cancel | Focus | Answer | UnknownCommand

  type Ledger = map<string, CommandRow>

  datatype AcceptResult = New | Duplicate | ForeignKeyError

  predicate KeyUsed(ledger: Ledger, key: string) {
    exists id :: id in ledger && ledger[id].key == key
  }

  /** INSERT OR IGNORE. A used id or key is ignored and reported as a duplicate; a broken foreign
      key is not ignored, it throws. */
  function AcceptOutcome(ledger: Ledger, devices: set<string>, sessions: set<string>, id: string,
                         row: CommandRow): AcceptResult {
    if id in ledger || KeyUsed(ledger, row.key) then Duplicate
    else if row.device !in devices || (row.sessionId.Some? && row.sessionId.value !in sessions) then ForeignKeyError
    else New
  }

  class CommandLedger {
    var commands: Ledger
    /** The targets of the foreign keys. */
    var devices: set<string>
    var sessions: set<string>

    constructor (devices: set<string>, sessions: set<string>)
      ensures commands == map[] && this.devices == devices && this.sessions == sessions
    {
      commands, this.devices, this.sessions := map[], devices, sessions;
    }

    method Accept(id: string, key: string, device: string, sessionId: Option<string>, kind: Kind)
      returns (r: AcceptResult)
      modifies this`commands
      ensures r == AcceptOutcome(old(commands), devices, sessions, id,
                                 CommandRow(key, device, sessionId, kind, Accepted))
      ensures commands == if r.New? then old(commands)[id := CommandRow(key, device, sessionId, kind, Accepted)]
                else old(commands)
    {
      if id in commands || KeyUsed(commands, key) {
        return Duplicate;
      }
      if device !in devices {
        return ForeignKeyError;
      }
      if sessionId.Some? && sessionId.value !in sessions {
        return ForeignKeyError;
      }
      commands := commands[id := CommandRow(key, device, sessionId, kind, Accepted)];
      r := New;
    }

    /** UPDATE ... WHERE id: no row, no effect. `markDispatched`, `markComplete` and `markFailed`. */
    method Mark(id: string, state: CommandState)
      modifies this`commands
      ensures commands == SetState(old(commands), id, state)
    {
      if id in commands {
        commands := commands[id := commands[id].(state := state)];
      }
    }
  }

  function SetState(ledger: Ledger, id: string, state: CommandState): Ledger {
    if id in ledger then ledger[id := ledger[id].(state := state)] else ledger
  }

  // ---------------------------------------------------------------------
  // The gateway
  // ---------------------------------------------------------------------

  /** A decrypted message, parsed. `kind` is absent when it is not a command. An absent key or
      session id stands for a missing or empty one. */
  datatype Message = Message(kind: Option<Kind>, key: Option<string>, sessionId: Option<string>,
                             commandId: Option<string>, device: string)

  datatype Call = Call(key: string, commandId: string, kind: Kind)

  datatype Reply = Acked(commandId: string) | AckedDuplicate(commandId: string) | Nacked(commandId: string)

  datatype Gateway = Gateway(
    ledger: Ledger,
    devices: set<string>,
    sessions: set<string>,
    adapter: bool,              // is a runtime adapter registered?
    focus: bool,                // is desktop focus configured?
    calls: seq<Call>,           // calls made to the adapter, or to the host for focus
    inFlight: set<string>,      // commands whose call has not settled
    replies: seq<Reply>)

  /** Why a message is dropped before the ledger is asked. */
  predicate Wellformed(g: Gateway, m: Message) {
    m.kind.Some? && m.key.Some? && g.adapter && (m.kind.value.Start? || m.sessionId.Some?)
  }

  /** The socket of the client that a reply goes to, and the last frame number used on it. */
  datatype Line = Line(open: bool, next: nat)

  /** Sending this many bytes of envelope throws. On a socket that is not open nothing is sent, and
      nothing thrown. */
  predicate Throws(line: Line, size: nat) {
    line.open && !Fits(size, line.next + 1)
  }

  /** `sendEncrypted` of a reply: it goes out on an open socket if it fits. */
  function Replied(g: Gateway, reply: Reply, line: Line, size: nat): Gateway {
    if line.open && Fits(size, line.next + 1) then g.(replies := g.replies + [reply]) else g
  }

  /** `handleMessage` up to the first await of `dispatchCommand`. `uuid` names a command that
      came without an id, `fixed` is the length of a reply without the command's id. */
  function Receive(g: Gateway, m: Message, uuid: string, line: Line, fixed: nat): Gateway {
    if !Wellformed(g, m) then g
    else
      var id := Coalesce(m.commandId, uuid);
      var row := CommandRow(m.key.value, m.device, m.sessionId, m.kind.value, Accepted);
      match AcceptOutcome(g.ledger, g.devices, g.sessions, id, row)
      case Duplicate => Replied(g, AckedDuplicate(id), line, fixed + |id|)
      case ForeignKeyError => g
      case New =>
        Dispatch(g.(ledger := SetState(g.ledger[id := row], id, Dispatched)), id, row.key, row.kind, line, fixed)
  }

  function Dispatch(g: Gateway, id: string, key: string, kind: Kind, line: Line, fixed: nat): Gateway {
    if kind.UnknownCommand? then g.(ledger := SetState(g.ledger, id, Failed))
    else if kind.Focus? && !g.focus then
      Replied(g.(ledger := SetState(g.ledger, id, Failed)), Nacked(id), line, fixed + |id|)
    else g.(calls := g.calls + [Call(key, id, kind)], inFlight := g.inFlight + {id})
  }

  /** How a call ends; `session` is what `startSession` returned, and `refusal` what `registerSession`
      then threw, if it did. */
  datatype CallResult = Done(session: string, refusal: Option<string>) | Broke(error: string)

  /** What the catch branch gets before anything is sent. Only a `command/start` registers a session. */
  function ErrorOf(kind: Kind, result: CallResult): Option<string> {
    match result
    case Done(_, refusal) => if kind.Start? then refusal else None
    case Broke(error) => Some(error)
  }

  /** `,"sessionId":""` */
  const SESSION_MEMBER := 15

  /** The acknowledgement of a `command/start` names the new session. */
  function AckSize(fixed: nat, id: string, kind: Kind, session: string): nat {
    fixed + |id| + if kind.Start? then SESSION_MEMBER + |session| else 0
  }

  /** `Error: Frame too large: N bytes (limit 1048576)` */
  function TooLargeText(size: nat, number: nat): nat {
    46 + Digits(FrameSize(size, number))
  }

  /** The call of a command settles: the part of `dispatchCommand` after the await. When sending
      the acknowledgement throws, the catch branch marks the command failed after all. */
  function Settle(g: Gateway, id: string, result: CallResult, line: Line, fixed: nat): Gateway {
    if id !in g.inFlight || id !in g.ledger then g
    else
      var rest := g.(inFlight := g.inFlight - {id});
      match ErrorOf(g.ledger[id].kind, result)
      case None =>
        var size := AckSize(fixed, id, g.ledger[id].kind, result.session);
        if !Throws(line, size) then Replied(rest.(ledger := SetState(g.ledger, id, Confirmed)), Acked(id), line, size)
        else
          var text := TooLargeText(size, line.next + 1);
          Replied(rest.(ledger := SetState(g.ledger, id, Failed)), Nacked(id), line.(next := line.next + 1),
                  fixed + |id| + text)
      case Some(error) =>
        Replied(rest.(ledger := SetState(g.ledger, id, Failed)), Nacked(id), line, fixed + |id| + |error|)
  }

  class UcpGateway {
    const ledger: CommandLedger
    const focus: bool
    var adapter: bool
    var calls: seq<Call>
    var inFlight: set<string>
    var replies: seq<Reply>

    constructor (ledger: CommandLedger, focus: bool)
      ensures this.ledger == ledger && this.focus == focus && !adapter && calls == [] && inFlight == {} && replies == []
    {
      this.ledger, this.focus := ledger, focus;
      adapter, calls, inFlight, replies := false, [], {}, [];
    }

    ghost function State(): Gateway
      reads this, ledger
    {
      Gateway(ledger.commands, ledger.devices, ledger.sessions, adapter, focus, calls, inFlight, replies)
    }

    method HandleMessage(m: Message, uuid: string, line: Line, fixed: nat)
      modifies this, ledger`commands
      ensures State() == Receive(old(State()), m, uuid, line, fixed)
    {
      if m.kind.None? || m.key.None? {
        return;
      }
      if !m.kind.value.Start? && m.sessionId.None? {
        return;
      }
      if !adapter {
        return;
      }
      var commandId := if m.commandId.Some? then m.commandId.value else uuid;
      var result := ledger.Accept(commandId, m.key.value, m.device, m.sessionId, m.kind.value);
      if result.ForeignKeyError? {
        return;
      }
      if result.Duplicate? {
        var threw := Send(AckedDuplicate(commandId), line, fixed + |commandId|);
        return;
      }
      ledger.Mark(commandId, Dispatched);
      DispatchCommand(commandId, m.key.value, m.kind.value, line, fixed);
    }

    method Send(reply: Reply, line: Line, size: nat) returns (threw: bool)
      modifies this`replies
      ensures State() == Replied(old(State()), reply, line, size) && (threw <==> Throws(line, size))
    {
      if !line.open {
        return false;
      }
      if !Fits(size, line.next + 1) {
        return true;
      }
      replies := replies + [reply];
      threw := false;
    }

    method DispatchCommand(commandId: string, key: string, kind: Kind, line: Line, fixed: nat)
      modifies this, ledger`commands
      ensures State() == Dispatch(old(State()), commandId, key, kind, line, fixed)
    {
      if kind.UnknownCommand? {
        ledger.Mark(commandId, Failed);
        return;
      }
      if kind.Focus? && !focus {
        ledger.Mark(commandId, Failed);
        var threw := Send(Nacked(commandId), line, fixed + |commandId|);
        return;
      }
      calls := calls + [Call(key, commandId, kind)];
      inFlight := inFlight + {commandId};
    }

    method OnSettled(commandId: string, result: CallResult, line: Line, fixed: nat)
      requires commandId in inFlight ==> commandId in ledger.commands
      modifies this, ledger`commands
      ensures State() == Settle(old(State()), commandId, result, line, fixed)
    {
      if commandId !in inFlight {
        return;
      }
      inFlight := inFlight - {commandId};
      var number, kind := line, ledger.commands[commandId].kind;
      var error := 0;
      if result.Broke? {
        error := |result.error|;
      } else if kind.Start? && result.refusal.Some? {
        error := |result.refusal.value|;
      } else {
        var size := AckSize(fixed, commandId, kind, result.session);
        ledger.Mark(commandId, Confirmed);
        var threw := Send(Acked(commandId), line, size);
        if !threw {
          return;
        }
        number, error := line.(next := line.next + 1), TooLargeText(size, line.next + 1);
      }
      ledger.Mark(commandId, Failed);
      var lost := Send(Nacked(commandId), number, fixed + |commandId| + error);
    }
  }

  // ---------------------------------------------------------------------
  // Runs
  // ---------------------------------------------------------------------

  datatype Step =
    | Deliver(message: Message, uuid: string, line: Line, fixed: nat)   // from any client, resends included
    | Settled(id: string, result: CallResult, line: Line, fixed: nat)
    | Register                                    // an adapter becomes available
    | NewSession(id: string)                      // a session row appears
    | NewDevice(id: string)                       // a device row appears
    | Restart                                     // calls under way are forgotten, the ledger is not

  function Next(g: Gateway, s: Step): Gateway {
    match s
    case Deliver(m, uuid, line, fixed) => Receive(g, m, uuid, line, fixed)
    case Settled(id, result, line, fixed) => Settle(g, id, result, line, fixed)
    case Register => g.(adapter := true)
    case NewSession(id) => g.(sessions := g.sessions + {id})
    case NewDevice(id) => g.(devices := g.devices + {id})
    case Restart => g.(adapter := false, inFlight := {})
  }

  function Run(g: Gateway, steps: seq<Step>): Gateway {
    if steps == [] then g else Next(Run(g, Front(steps)), Last(steps))
  }

  function Initial(devices: set<string>, focus: bool): Gateway {
    Gateway(map[], devices, {}, false, focus, [], {}, [])
  }

  ghost predicate KeysUnique(ledger: Ledger) {
    forall a, b :: a in ledger && b in ledger && ledger[a].key == ledger[b].key ==> a == b
  }

  ghost predicate CallsRecorded(ledger: Ledger, calls: seq<Call>) {
    forall i :: 0 <= i < |calls| ==> calls[i].commandId in ledger && ledger[calls[i].commandId].key == calls[i].key
  }

  ghost predicate OneCallPerKey(calls: seq<Call>) {
    forall i, j :: 0 <= i < j < |calls| ==> calls[i].key != calls[j].key
  }

  ghost predicate InFlightDispatched(ledger: Ledger, inFlight: set<string>) {
    forall id :: id in inFlight ==> id in ledger && ledger[id].state == Dispatched
  }

  ghost predicate Sound(g: Gateway) {
    KeysUnique(g.ledger) && CallsRecorded(g.ledger, g.calls) && OneCallPerKey(g.calls)
        && InFlightDispatched(g.ledger, g.inFlight)
  }

  /** A row keeps its key, device, session and type, and moves only from dispatched to one of the
      two final states. */
  predicate Advances(before: CommandRow, after: CommandRow) {
    after == before || (before.state == Dispatched
                        && (after == before.(state := Confirmed) || after == before.(state := Failed)))
  }

  /** A step leaves the ledger alone, adds one new row that may be called, or ends one call. */
  lemma NextShape(g: Gateway, s: Step)
    ensures var h := Next(g, s);
            || (h.ledger == g.ledger && h.calls == g.calls && h.inFlight <= g.inFlight)
            || (exists id, row: CommandRow :: NewRow(g, h, id, row))
            || (exists id, state :: Ended(g, h, id, state))
  {
    hide KeyUsed;
    var h := Next(g, s);
    if s.Deliver? && h.ledger != g.ledger {
      var id := Coalesce(s.message.commandId, s.uuid);
      assert NewRow(g, h, id, h.ledger[id]);
    } else if s.Settled? && s.id in g.inFlight && s.id in g.ledger {
      assert Ended(g, h, s.id, if Succeeds(g, s, s.id) then Confirmed else Failed);
    }
  }

  ghost predicate NewRow(g: Gateway, h: Gateway, id: string, row: CommandRow) {
    && id !in g.ledger && !KeyUsed(g.ledger, row.key) && h.ledger == g.ledger[id := row]
    && (|| (h.calls == g.calls && h.inFlight == g.inFlight)
        || (h.calls == g.calls + [Call(row.key, id, row.kind)] && h.inFlight == g.inFlight + {id}
            && row.state == Dispatched))
  }

  ghost predicate Ended(g: Gateway, h: Gateway, id: string, state: CommandState) {
    && id in g.inFlight && h.ledger == SetState(g.ledger, id, state) && state in {Confirmed, Failed}
    && h.calls == g.calls && h.inFlight == g.inFlight - {id}
  }

  lemma NewRowSound(g: Gateway, h: Gateway, id: string, row: CommandRow)
    requires Sound(g) && NewRow(g, h, id, row)
    ensures Sound(h)
  {
  }

  lemma NextSound(g: Gateway, s: Step)
    requires Sound(g)
    ensures Sound(Next(g, s))
    ensures forall id :: id in g.ledger ==> id in Next(g, s).ledger && Advances(g.ledger[id], Next(g, s).ledger[id])
    ensures g.calls <= Next(g, s).calls
  {
    var h := Next(g, s);
    hide Next, KeyUsed;
    NextShape(g, s);
    if id, row: CommandRow :| NewRow(g, h, id, row) {
      NewRowSound(g, h, id, row);
    }
  }

  /** At most once: over all runs, clients, resends, restarts and orders of completion, no two
      calls to the runtime carry the same idempotency key. */
  lemma {:induction false} AtMostOneCallPerKey(devices: set<string>, focus: bool, steps: seq<Step>)
    ensures Sound(Run(Initial(devices, focus), steps))
  {
    hide Next, Sound;
    if steps == [] {
      InitialSound(devices, focus);
    } else {
      AtMostOneCallPerKey(devices, focus, Front(steps));
      NextSound(Run(Initial(devices, focus), Front(steps)), Last(steps));
    }
  }

  lemma InitialSound(devices: set<string>, focus: bool)
    ensures Sound(Initial(devices, focus))
  {
  }

  /** A row is never removed, and a confirmed or failed command stays what it is for good. */
  lemma {:induction false} FinalForGood(g: Gateway, steps: seq<Step>, id: string)
    requires Sound(g) && id in g.ledger
    ensures id in Run(g, steps).ledger && Advances(g.ledger[id], Run(g, steps).ledger[id]) && Sound(Run(g, steps))
  {
    hide Next, Sound;
    if steps != [] {
      FinalForGood(g, Front(steps), id);
      NextSound(Run(g, Front(steps)), Last(steps));
    }
  }

  /** The call of this command succeeds now, a new session is registered, and acknowledging it does not
      throw: the client's socket is not open, or the acknowledgement fits in a frame. */
  predicate Succeeds(g: Gateway, s: Step, id: string) {
    && s.Settled? && s.id == id && id in g.inFlight && id in g.ledger && ErrorOf(g.ledger[id].kind, s.result).None?
    && !Throws(s.line, AckSize(s.fixed, id, g.ledger[id].kind, s.result.session))
  }

  predicate HasSucceeded(g: Gateway, steps: seq<Step>, id: string) {
    steps != [] && (HasSucceeded(g, Front(steps), id) || Succeeds(Run(g, Front(steps)), Last(steps), id))
  }

  predicate IsConfirmed(g: Gateway, id: string) {
    id in g.ledger && g.ledger[id].state == Confirmed
  }

  lemma ConfirmedStep(g: Gateway, s: Step, id: string)
    requires Sound(g)
    ensures IsConfirmed(Next(g, s), id) <==> IsConfirmed(g, id) || Succeeds(g, s, id)
  {
    hide KeyUsed, KeysUnique, CallsRecorded, OneCallPerKey;
  }

  /** Over all runs a command is confirmed if and only if its call was under way, succeeded, and its
      acknowledgement did not throw. */
  lemma {:induction false} ConfirmedIffSucceeded(devices: set<string>, focus: bool, steps: seq<Step>, id: string)
    ensures IsConfirmed(Run(Initial(devices, focus), steps), id) <==> HasSucceeded(Initial(devices, focus), steps, id)
  {
    hide Next, Sound, IsConfirmed, Succeeds;
    if steps == [] {
      NothingConfirmed(devices, focus, id);
    } else {
      ConfirmedIffSucceeded(devices, focus, Front(steps), id);
      AtMostOneCallPerKey(devices, focus, Front(steps));
      ConfirmedStep(Run(Initial(devices, focus), Front(steps)), Last(steps), id);
    }
  }

  lemma NothingConfirmed(devices: set<string>, focus: bool, id: string)
    ensures !IsConfirmed(Initial(devices, focus), id)
  {
  }

  /** Exactly when a message makes a call: it is a command the gateway can route, its id and its
      key are new, its foreign keys hold, and its type is one that is dispatched. */
  predicate MakesCall(g: Gateway, m: Message, uuid: string) {
    && Wellformed(g, m)
    && Coalesce(m.commandId, uuid) !in g.ledger && !KeyUsed(g.ledger, m.key.value)
    && m.device in g.devices && (m.sessionId.Some? ==> m.sessionId.value in g.sessions)
    && !m.kind.value.UnknownCommand? && (m.kind.value.Focus? ==> g.focus)
  }

  lemma CallsIff(g: Gateway, m: Message, uuid: string, line: Line, fixed: nat)
    ensures var h := Receive(g, m, uuid, line, fixed);
            var id := Coalesce(m.commandId, uuid);
            if MakesCall(g, m, uuid) then
              && h.calls == g.calls + [Call(m.key.value, id, m.kind.value)] && id in h.inFlight
              && id in h.ledger && h.ledger[id].state == Dispatched && h.ledger[id].key == m.key.value
              && h.ledger[id].kind == m.kind.value
            else h.calls == g.calls
  {
  }

  lemma ResendIsHarmless(g: Gateway, m: Message, uuid: string, line: Line, fixed: nat)
    requires KeyUsed(g.ledger, if m.key.Some? then m.key.value else "") || Coalesce(m.commandId, uuid) in g.ledger
    ensures var h := Receive(g, m, uuid, line, fixed); h.ledger == g.ledger && h.calls == g.calls
  {
  }

  /** The calls that messages with this key have caused so far. */
  predicate HasCalled(g: Gateway, steps: seq<Step>, key: string) {
    && steps != []
    && (|| HasCalled(g, Front(steps), key)
        || (&& Last(steps).Deliver? && Last(steps).message.key == Some(key)
            && MakesCall(Run(g, Front(steps)), Last(steps).message, Last(steps).uuid)))
  }

  predicate Called(calls: seq<Call>, key: string) {
    exists i :: 0 <= i < |calls| && calls[i].key == key
  }

  /** Every call has its cause and every cause its call: over all runs the runtime is called for a key
      if and only if some message with the key met the conditions for a call when it arrived. */
  lemma {:induction false} CalledIffCaused(devices: set<string>, focus: bool, steps: seq<Step>, key: string)
    ensures Called(Run(Initial(devices, focus), steps).calls, key) <==> HasCalled(Initial(devices, focus), steps, key)
  {
    hide Receive, Settle, MakesCall, Called;
    if steps == [] {
      NothingCalled(devices, focus, key);
    } else {
      var g, s := Run(Initial(devices, focus), Front(steps)), Last(steps);
      CalledIffCaused(devices, focus, Front(steps), key);
      if s.Deliver? {
        CallsIff(g, s.message, s.uuid, s.line, s.fixed);
        if MakesCall(g, s.message, s.uuid) {
          KeyGiven(g, s.message, s.uuid);
          OneMoreCall(g.calls,
                      Call(s.message.key.value, Coalesce(s.message.commandId, s.uuid), s.message.kind.value), key);
        }
      } else if s.Settled? {
        SettleKeepsCalls(g, s.id, s.result, s.line, s.fixed);
      }
    }
  }

  lemma NothingCalled(devices: set<string>, focus: bool, key: string)
    ensures !Called(Initial(devices, focus).calls, key)
  {
  }

  lemma KeyGiven(g: Gateway, m: Message, uuid: string)
    requires MakesCall(g, m, uuid)
    ensures m.key.Some? && m.kind.Some?
  {
  }

  lemma SettleKeepsCalls(g: Gateway, id: string, result: CallResult, line: Line, fixed: nat)
    ensures Settle(g, id, result, line, fixed).calls == g.calls
  {
  }

  lemma OneMoreCall(calls: seq<Call>, c: Call, key: string)
    ensures Called(calls + [c], key) <==> Called(calls, key) || c.key == key
  {
    assert (calls + [c])[|calls|] == c;
    assert forall i :: 0 <= i < |calls| ==> (calls + [c])[i] == calls[i];
  }

  /** A message that made a call can be handed over again at any later time, on any connection: it
      makes no second call and touches no row. */
  lemma RepeatMakesNoSecondCall(g: Gateway, m: Message, uuid: string, line: Line, fixed: nat, between: seq<Step>,
                                uuid': string, line': Line, fixed': nat)
    requires Sound(g) && MakesCall(g, m, uuid)
    ensures var w := Run(Receive(g, m, uuid, line, fixed), between);
            var again := Receive(w, m, uuid', line', fixed');
            again.calls == w.calls && again.ledger == w.ledger
  {
    hide Receive, Sound, MakesCall, Run;
    var id := Coalesce(m.commandId, uuid);
    var h := Receive(g, m, uuid, line, fixed);
    CallsIff(g, m, uuid, line, fixed);
    KeyGiven(g, m, uuid);
    DeliverSound(g, m, uuid, line, fixed);
    FinalForGood(h, between, id);
    assert KeyUsed(Run(h, between).ledger, m.key.value);
    ResendIsHarmless(Run(h, between), m, uuid', line', fixed');
  }

  lemma DeliverSound(g: Gateway, m: Message, uuid: string, line: Line, fixed: nat)
    requires Sound(g)
    ensures Sound(Receive(g, m, uuid, line, fixed))
  {
    hide Sound, Receive;
    NextSound(g, Deliver(m, uuid, line, fixed));
  }

  // ---------------------------------------------------------------------
  // What the phone is told
  // ---------------------------------------------------------------------

  /** A reply of this many bytes goes out on the line. */
  predicate GoesOut(line: Line, size: nat) {
    line.open && Fits(size, line.next + 1)
  }

  /** The bytes of an acknowledgement: that of a `command/start` names the session. */
  function AckBytes(g: Gateway, s: Step, id: string): nat
    requires s.Settled? && s.result.Done? && id in g.ledger
  {
    s.fixed + |id| + if g.ledger[id].kind.Start? then 15 + |s.result.session| else 0
  }

  /** The call of the command ends now, and did what it was asked for. */
  predicate Completes(g: Gateway, s: Step, id: string) {
    && s.Settled? && s.id == id && id in g.inFlight && id in g.ledger && s.result.Done?
    && (g.ledger[id].kind.Start? ==> s.result.refusal == None)
  }

  /** It ends with this error instead. */
  predicate Breaks(g: Gateway, s: Step, id: string, error: string) {
    && s.Settled? && s.id == id && id in g.inFlight && id in g.ledger
    && (|| s.result == Broke(error)
        || (s.result.Done? && g.ledger[id].kind.Start? && s.result.refusal == Some(error)))
  }

  /** A command that the gateway takes into its ledger: well formed, under a new id and a new key, with
      foreign keys that hold. */
  predicate Takes(g: Gateway, s: Step, id: string) {
    && s.Deliver? && Coalesce(s.message.commandId, s.uuid) == id
    && s.message.kind.Some? && s.message.key.Some? && g.adapter
    && (s.message.kind == Some(Start) || s.message.sessionId.Some?)
    && id !in g.ledger && (forall other :: other in g.ledger ==> g.ledger[other].key != s.message.key.value)
    && s.message.device in g.devices && (s.message.sessionId.Some? ==> s.message.sessionId.value in g.sessions)
  }

  /** `command.ack` with status dispatched goes out. */
  predicate Acknowledges(g: Gateway, s: Step, id: string) {
    Completes(g, s, id) && GoesOut(s.line, AckBytes(g, s, id))
  }

  /** `command.nack` goes out: for desktop focus that is not configured, for the error that the call
      ended with, or for an acknowledgement that was too large, under the number after it. */
  ghost predicate Refuses(g: Gateway, s: Step, id: string) {
    || (Takes(g, s, id) && s.message.kind == Some(Focus) && !g.focus && GoesOut(s.line, s.fixed + |id|))
    || (exists error :: Breaks(g, s, id, error) && GoesOut(s.line, s.fixed + |id| + |error|))
    || (&& Completes(g, s, id) && s.line.open && !Fits(AckBytes(g, s, id), s.line.next + 1)
        && Fits(s.fixed + |id| + 46 + Digits(62 + AckBytes(g, s, id) + Digits(s.line.next + 1)), s.line.next + 2))
  }

  /** `command.ack` with status duplicate goes out: a well-formed message came with a used id or key. */
  predicate AnswersRepeat(g: Gateway, s: Step, id: string) {
    && s.Deliver? && Coalesce(s.message.commandId, s.uuid) == id
    && s.message.kind.Some? && s.message.key.Some? && g.adapter
    && (s.message.kind == Some(Start) || s.message.sessionId.Some?)
    && (id in g.ledger || exists other :: other in g.ledger && g.ledger[other].key == s.message.key.value)
    && GoesOut(s.line, s.fixed + |id|)
  }

  ghost predicate HasAcknowledged(g: Gateway, steps: seq<Step>, id: string) {
    steps != [] && (HasAcknowledged(g, Front(steps), id) || Acknowledges(Run(g, Front(steps)), Last(steps), id))
  }

  ghost predicate HasRefused(g: Gateway, steps: seq<Step>, id: string) {
    steps != [] && (HasRefused(g, Front(steps), id) || Refuses(Run(g, Front(steps)), Last(steps), id))
  }

  ghost predicate HasAnsweredRepeat(g: Gateway, steps: seq<Step>, id: string) {
    steps != [] && (HasAnsweredRepeat(g, Front(steps), id) || AnswersRepeat(Run(g, Front(steps)), Last(steps), id))
  }

  /** One step adds at most one reply, and which. */
  lemma RepliesStep(g: Gateway, s: Step, id: string)
    ensures var h := Next(g, s);
            && (h.replies == g.replies || (|h.replies| == |g.replies| + 1 && g.replies <= h.replies))
            && (h.replies == g.replies + [Acked(id)] <==> Acknowledges(g, s, id))
            && (h.replies == g.replies + [Nacked(id)] <==> Refuses(g, s, id))
            && (h.replies == g.replies + [AckedDuplicate(id)] <==> AnswersRepeat(g, s, id))
  {
    hide Fits, KeysUnique, CallsRecorded, OneCallPerKey;
    match s
    case Deliver(m, uuid, line, fixed) => DeliverReplies(g, m, uuid, line, fixed, id);
    case Settled(other, result, line, fixed) => SettleReplies(g, other, result, line, fixed, id);
    case _ => NoReply(g.replies, id);
  }

  lemma NoReply(replies: seq<Reply>, id: string)
    ensures replies != replies + [Acked(id)] && replies != replies + [Nacked(id)]
    ensures replies != replies + [AckedDuplicate(id)]
  {
    assert |replies + [Acked(id)]| == |replies| + 1;
  }

  lemma OneReply(replies: seq<Reply>, a: Reply, b: Reply)
    ensures replies + [a] == replies + [b] <==> a == b
  {
    assert (replies + [a])[|replies|] == a && (replies + [b])[|replies|] == b;
  }

  lemma DeliverReplies(g: Gateway, m: Message, uuid: string, line: Line, fixed: nat, id: string)
    ensures var h, s := Receive(g, m, uuid, line, fixed), Deliver(m, uuid, line, fixed);
            && (h.replies == g.replies || (|h.replies| == |g.replies| + 1 && g.replies <= h.replies))
            && h.replies != g.replies + [Acked(id)]
            && (h.replies == g.replies + [Nacked(id)] <==> Refuses(g, s, id))
            && (h.replies == g.replies + [AckedDuplicate(id)] <==> AnswersRepeat(g, s, id))
  {
    hide Fits;
    NoReply(g.replies, id);
    var own := Coalesce(m.commandId, uuid);
    forall r | r == AckedDuplicate(own) || r == Nacked(own)
      ensures (g.replies + [r] == g.replies + [Acked(id)] <==> r == Acked(id))
      ensures (g.replies + [r] == g.replies + [Nacked(id)] <==> r == Nacked(id))
      ensures (g.replies + [r] == g.replies + [AckedDuplicate(id)] <==> r == AckedDuplicate(id))
    {
      OneReply(g.replies, r, Acked(id));
      OneReply(g.replies, r, Nacked(id));
      OneReply(g.replies, r, AckedDuplicate(id));
    }
  }

  lemma SettleReplies(g: Gateway, other: string, result: CallResult, line: Line, fixed: nat, id: string)
    ensures var h, s := Settle(g, other, result, line, fixed), Settled(other, result, line, fixed);
            && (h.replies == g.replies || (|h.replies| == |g.replies| + 1 && g.replies <= h.replies))
            && (h.replies == g.replies + [Acked(id)] <==> Acknowledges(g, s, id))
            && (h.replies == g.replies + [Nacked(id)] <==> Refuses(g, s, id))
            && h.replies != g.replies + [AckedDuplicate(id)]
  {
    hide Settle, Acknowledges, Refuses;
    SettledReply(g, other, result, line, fixed);
    SettledCause(g, other, result, line, fixed, id);
    NoReply(g.replies, id);
    forall r | r == Acked(other) || r == Nacked(other)
      ensures (g.replies + [r] == g.replies + [Acked(id)] <==> r == Acked(id))
      ensures (g.replies + [r] == g.replies + [Nacked(id)] <==> r == Nacked(id))
      ensures (g.replies + [r] == g.replies + [AckedDuplicate(id)] <==> r == AckedDuplicate(id))
    {
      OneReply(g.replies, r, Acked(id));
      OneReply(g.replies, r, Nacked(id));
      OneReply(g.replies, r, AckedDuplicate(id));
    }
  }

  /** The reply to a call that ends, if one goes out. */
  function ReplyTo(g: Gateway, id: string, result: CallResult, line: Line, fixed: nat): Option<Reply> {
    if id !in g.inFlight || id !in g.ledger then None
    else
      match ErrorOf(g.ledger[id].kind, result)
      case Some(error) => if GoesOut(line, fixed + |id| + |error|) then Some(Nacked(id)) else None
      case None =>
        var size := fixed + |id| + if g.ledger[id].kind.Start? then 15 + |result.session| else 0;
        if GoesOut(line, size) then Some(Acked(id))
        else if line.open && Fits(fixed + |id| + 46 + Digits(62 + size + Digits(line.next + 1)), line.next + 2)
          then Some(Nacked(id))
        else None
  }

  lemma SettledReply(g: Gateway, id: string, result: CallResult, line: Line, fixed: nat)
    ensures var reply := ReplyTo(g, id, result, line, fixed);
            Settle(g, id, result, line, fixed).replies
            == if reply.Some? then g.replies + [reply.value] else g.replies
  {
    hide Fits, SetState;
  }

  lemma SettledCause(g: Gateway, other: string, result: CallResult, line: Line, fixed: nat, id: string)
    ensures var reply, s := ReplyTo(g, other, result, line, fixed), Settled(other, result, line, fixed);
            && (reply == Some(Acked(id)) <==> Acknowledges(g, s, id))
            && (reply == Some(Nacked(id)) <==> Refuses(g, s, id))
            && (reply.Some? ==> reply == Some(Acked(other)) || reply == Some(Nacked(other)))
  {
    hide Fits;
    var s := Settled(other, result, line, fixed);
    if other in g.inFlight && other in g.ledger {
      var error := ErrorOf(g.ledger[other].kind, result);
      assert error.Some? ==> Breaks(g, s, other, error.value);
      assert forall e, k :: Breaks(g, s, k, e) ==> k == other && error == Some(e);
    }
  }

  /** Over all runs, from the steps alone: a command is acknowledged if and only if its call did what it
      was asked for and the acknowledgement went out; it is refused if and only if focus is not
      configured, its call ended with an error, or the acknowledgement was too large, and the refusal
      went out; and a repeat is answered as such if and only if a well-formed message came with a used
      id or key. */
  lemma {:induction false} RepliesIff(devices: set<string>, focus: bool, steps: seq<Step>, id: string)
    ensures var g := Initial(devices, focus);
            var replies := Run(g, steps).replies;
            && (Acked(id) in replies <==> HasAcknowledged(g, steps, id))
            && (Nacked(id) in replies <==> HasRefused(g, steps, id))
            && (AckedDuplicate(id) in replies <==> HasAnsweredRepeat(g, steps, id))
  {
    hide Next, Acknowledges, Refuses, AnswersRepeat;
    if steps != [] {
      var g, s := Run(Initial(devices, focus), Front(steps)), Last(steps);
      RepliesIff(devices, focus, Front(steps), id);
      RepliesStep(g, s, id);
      MoreReplies(g.replies, Next(g, s).replies);
    }
  }

  lemma MoreReplies(before: seq<Reply>, after: seq<Reply>)
    requires after == before || (|after| == |before| + 1 && before <= after)
    ensures forall r :: r in after <==> r in before || after == before + [r]
  {
    if after != before {
      assert after == before + [Last(after)];
      forall r ensures after == before + [r] <==> r == Last(after) {
        OneReply(before, r, Last(after));
      }
    }
  }

  predicate IsFailed(g: Gateway, id: string) {
    id in g.ledger && g.ledger[id].state == Failed
  }

  /** An answered command is confirmed or failed, and has been answered once. */
  ghost predicate AnswersMatch(g: Gateway) {
    && (forall i :: 0 <= i < |g.replies| && g.replies[i].Acked? ==> IsConfirmed(g, g.replies[i].commandId))
    && (forall i :: 0 <= i < |g.replies| && g.replies[i].Nacked? ==> IsFailed(g, g.replies[i].commandId))
    && (forall i, j :: 0 <= i < j < |g.replies| && g.replies[i] == g.replies[j] ==> g.replies[i].AckedDuplicate?)
  }

  lemma AnswerStep(g: Gateway, s: Step, id: string)
    requires Sound(g)
    ensures Acknowledges(g, s, id) ==> !IsConfirmed(g, id) && !IsFailed(g, id) && IsConfirmed(Next(g, s), id)
    ensures Refuses(g, s, id) ==> !IsConfirmed(g, id) && !IsFailed(g, id) && IsFailed(Next(g, s), id)
  {
    ConfirmedStep(g, s, id);
    FailedStep(g, s, id);
    AnswerMeans(g, s, id);
    hide Next, Acknowledges, Refuses, Succeeds, Fails, KeysUnique, CallsRecorded, OneCallPerKey;
  }

  lemma AnswerMeans(g: Gateway, s: Step, id: string)
    requires Sound(g)
    ensures Acknowledges(g, s, id) ==> Succeeds(g, s, id)
    ensures Refuses(g, s, id) ==> Fails(g, s, id)
    ensures Succeeds(g, s, id) || Fails(g, s, id) ==> !IsConfirmed(g, id) && !IsFailed(g, id)
  {
    hide Fits, KeysUnique, CallsRecorded, OneCallPerKey;
  }

  lemma AnswersMatchStep(g: Gateway, s: Step)
    requires Sound(g) && AnswersMatch(g)
    ensures AnswersMatch(Next(g, s))
  {
    hide Next, Sound, Acknowledges, Refuses, AnswersRepeat;
    var h := Next(g, s);
    NextSound(g, s);
    RepliesStep(g, s, "");
    if h.replies != g.replies {
      var last := Last(h.replies);
      assert h.replies == g.replies + [last];
      RepliesStep(g, s, last.commandId);
      AnswerStep(g, s, last.commandId);
      assert last.Acked? ==> last == Acked(last.commandId);
      assert last.Nacked? ==> last == Nacked(last.commandId);
    }
  }

  /** No command is both acknowledged and refused, and none is told either twice: what the phone was told
      is what the ledger says. */
  lemma {:induction false} ToldOnce(devices: set<string>, focus: bool, steps: seq<Step>, id: string)
    ensures var g := Run(Initial(devices, focus), steps);
            && AnswersMatch(g)
            && !(Acked(id) in g.replies && Nacked(id) in g.replies)
  {
    hide Next, Sound;
    if steps != [] {
      ToldOnce(devices, focus, Front(steps), id);
      AtMostOneCallPerKey(devices, focus, Front(steps));
      AnswersMatchStep(Run(Initial(devices, focus), Front(steps)), Last(steps));
    }
  }

  // ---------------------------------------------------------------------
  // What the ledger holds
  // ---------------------------------------------------------------------

  /** The command fails now: nothing serves it, or its call or the acknowledgement of it broke. */
  ghost predicate Fails(g: Gateway, s: Step, id: string) {
    || (&& Takes(g, s, id)
        && (s.message.kind == Some(UnknownCommand) || (s.message.kind == Some(Focus) && !g.focus)))
    || (exists error :: Breaks(g, s, id, error))
    || (Completes(g, s, id) && s.line.open && !Fits(AckBytes(g, s, id), s.line.next + 1))
  }

  ghost predicate HasFailed(g: Gateway, steps: seq<Step>, id: string) {
    steps != [] && (HasFailed(g, Front(steps), id) || Fails(Run(g, Front(steps)), Last(steps), id))
  }

  lemma FailedStep(g: Gateway, s: Step, id: string)
    requires Sound(g)
    ensures IsFailed(Next(g, s), id) <==> IsFailed(g, id) || Fails(g, s, id)
  {
    hide KeysUnique, CallsRecorded, OneCallPerKey, Receive, Settle;
    match s
    case Deliver(m, uuid, line, fixed) => FailedByDeliver(g, m, uuid, line, fixed, id);
    case Settled(other, result, line, fixed) => FailedBySettle(g, other, result, line, fixed, id);
    case _ =>
  }

  lemma FailedByDeliver(g: Gateway, m: Message, uuid: string, line: Line, fixed: nat, id: string)
    ensures IsFailed(Receive(g, m, uuid, line, fixed), id) <==>
              IsFailed(g, id) || Fails(g, Deliver(m, uuid, line, fixed), id)
  {
    hide Fits;
  }

  lemma FailedBySettle(g: Gateway, other: string, result: CallResult, line: Line, fixed: nat, id: string)
    requires InFlightDispatched(g.ledger, g.inFlight)
    ensures IsFailed(Settle(g, other, result, line, fixed), id) <==>
              IsFailed(g, id) || Fails(g, Settled(other, result, line, fixed), id)
  {
    hide Fits;
    if id in g.ledger {
      var error := ErrorOf(g.ledger[id].kind, result);
      assert error.Some? && other == id && id in g.inFlight ==>
          Breaks(g, Settled(other, result, line, fixed), id, error.value);
    }
  }

  /** Over all runs a command is failed if and only if that happened to it. */
  lemma {:induction false} FailedIff(devices: set<string>, focus: bool, steps: seq<Step>, id: string)
    ensures IsFailed(Run(Initial(devices, focus), steps), id) <==> HasFailed(Initial(devices, focus), steps, id)
  {
    hide Next, Sound, Fails;
    if steps != [] {
      FailedIff(devices, focus, Front(steps), id);
      AtMostOneCallPerKey(devices, focus, Front(steps));
      FailedStep(Run(Initial(devices, focus), Front(steps)), Last(steps), id);
    }
  }

  /** The message that the gateway took the command from. */
  function TakenFrom(g: Gateway, steps: seq<Step>, id: string): Option<Message> {
    if steps == [] then None
    else if Takes(Run(g, Front(steps)), Last(steps), id) then Some(Last(steps).message)
    else TakenFrom(g, Front(steps), id)
  }

  predicate RowOf(g: Gateway, id: string, m: Option<Message>) {
    && (id in g.ledger <==> m.Some?)
    && (id in g.ledger ==>
          && m.value.key == Some(g.ledger[id].key) && g.ledger[id].device == m.value.device
          && g.ledger[id].sessionId == m.value.sessionId && m.value.kind == Some(g.ledger[id].kind))
  }

  lemma RowStep(g: Gateway, s: Step, id: string, m: Option<Message>)
    requires RowOf(g, id, m)
    ensures RowOf(Next(g, s), id, if Takes(g, s, id) then Some(s.message) else m)
  {
    hide Receive, Settle, Takes, RowOf;
    match s
    case Deliver(message, uuid, line, fixed) => RowByDeliver(g, message, uuid, line, fixed, id, m);
    case Settled(other, result, line, fixed) => RowBySettle(g, other, result, line, fixed, id, m);
    case _ => RowElse(g, s, id, m);
  }

  lemma RowElse(g: Gateway, s: Step, id: string, m: Option<Message>)
    requires RowOf(g, id, m) && !s.Deliver? && !s.Settled?
    ensures RowOf(Next(g, s), id, m) && !Takes(g, s, id)
  {
  }

  lemma RowByDeliver(g: Gateway, message: Message, uuid: string, line: Line, fixed: nat, id: string,
                     m: Option<Message>)
    requires RowOf(g, id, m)
    ensures RowOf(Receive(g, message, uuid, line, fixed), id,
                  if Takes(g, Deliver(message, uuid, line, fixed), id) then Some(message) else m)
  {
    hide Fits;
  }

  lemma RowBySettle(g: Gateway, other: string, result: CallResult, line: Line, fixed: nat, id: string,
                    m: Option<Message>)
    requires RowOf(g, id, m)
    ensures RowOf(Settle(g, other, result, line, fixed), id, m)
    ensures !Takes(g, Settled(other, result, line, fixed), id)
  {
    hide Fits, AckSize, TooLargeText;
  }

  /** The ledger has a row for a command if and only if the gateway took it, and the row holds key,
      device, session and type of that message. */
  lemma {:induction false} RowIsMessage(devices: set<string>, focus: bool, steps: seq<Step>, id: string)
    ensures RowOf(Run(Initial(devices, focus), steps), id, TakenFrom(Initial(devices, focus), steps, id))
  {
    hide Next, Sound, RowOf, Takes;
    if steps == [] {
      NoRow(devices, focus, id);
    } else {
      RowIsMessage(devices, focus, Front(steps), id);
      RowStep(Run(Initial(devices, focus), Front(steps)), Last(steps), id,
              TakenFrom(Initial(devices, focus), Front(steps), id));
      NotTakenTwice(Run(Initial(devices, focus), Front(steps)), Last(steps), id);
    }
  }

  lemma NoRow(devices: set<string>, focus: bool, id: string)
    ensures RowOf(Initial(devices, focus), id, None)
  {
  }

  lemma NotTakenTwice(g: Gateway, s: Step, id: string)
    ensures Takes(g, s, id) ==> s.Deliver?
  {
  }

  /** Is the command's call under way? It was made, and has neither ended nor been forgotten. */
  predicate UnderWay(g: Gateway, steps: seq<Step>, id: string) {
    && steps != []
    && match Last(steps)
       case Deliver(m, uuid, _, _) =>
         || UnderWay(g, Front(steps), id)
         || (&& Takes(Run(g, Front(steps)), Last(steps), id) && m.kind != Some(UnknownCommand)
             && (m.kind == Some(Focus) ==> Run(g, Front(steps)).focus))
       case Settled(other, _, _, _) => UnderWay(g, Front(steps), id) && other != id
       case Restart => false
       case _ => UnderWay(g, Front(steps), id)
  }

  lemma UnderWayStep(g: Gateway, s: Step, id: string)
    requires Sound(g)
    ensures id in Next(g, s).inFlight <==>
              match s
              case Deliver(m, uuid, _, _) =>
                || id in g.inFlight
                || (Takes(g, s, id) && m.kind != Some(UnknownCommand) && (m.kind == Some(Focus) ==> g.focus))
              case Settled(other, _, _, _) => id in g.inFlight && other != id
              case Restart => false
              case _ => id in g.inFlight
  {
    hide Fits, KeysUnique, CallsRecorded, OneCallPerKey;
  }

  lemma {:induction false} InFlightIff(devices: set<string>, focus: bool, steps: seq<Step>, id: string)
    ensures id in Run(Initial(devices, focus), steps).inFlight <==> UnderWay(Initial(devices, focus), steps, id)
  {
    hide Next, Sound, Takes;
    if steps != [] {
      InFlightIff(devices, focus, Front(steps), id);
      AtMostOneCallPerKey(devices, focus, Front(steps));
      UnderWayStep(Run(Initial(devices, focus), Front(steps)), Last(steps), id);
    }
  }

  // ---------------------------------------------------------------------
  // Acknowledgements that are too large
  // ---------------------------------------------------------------------

  /** Exactly when a `command/start` whose runtime call succeeded is recorded as failed: the bridge
      refuses to register the session, or the acknowledgement that names it cannot be sent. */
  lemma StartRecordedFailedIff(g: Gateway, id: string, session: string, refusal: Option<string>, line: Line,
                               fixed: nat)
    requires id in g.inFlight && id in g.ledger && g.ledger[id].kind.Start?
    ensures var after := Settle(g, id, Done(session, refusal), line, fixed).ledger[id].state;
            && after in {Confirmed, Failed}
            && (after == Failed <==> refusal.Some? || Throws(line, AckSize(fixed, id, Start, session)))
  {
    hide Fits, AckSize;
  }

  /** A command that succeeded is recorded as failed: the phone sends a `command/start` of any size the
      gateway takes, the runtime starts a session whose id fills a frame, and the acknowledgement
      that names it cannot be sent. */
  lemma SucceededButFailed(g: Gateway, m: Message, uuid: string, line: Line, fixed: nat, session: string)
    requires MakesCall(g, m, uuid) && m.kind == Some(Start)
    requires line.open && |session| >= FRAME_SIZE_LIMIT
    ensures var id := Coalesce(m.commandId, uuid);
            var h := Receive(g, m, uuid, line, fixed);
            && id in h.inFlight && id in h.ledger
            && Settle(h, id, Done(session, None), line, fixed).ledger[id].state == Failed
  {
    hide Receive, MakesCall;
    CallsIff(g, m, uuid, line, fixed);
  }

  /** Only a session id can do that: the gateway takes no frame over 1 MiB, of which base64 leaves
      786432 bytes for the command, and within those the acknowledgement of every other command fits. */
  lemma OtherAcksFit(line: Line, fixed: nat, id: string, kind: Kind, session: string)
    requires !kind.Start? && |id| <= 786_432 && fixed <= 10_000 && line.next + 1 < 9_007_199_254_740_992
    ensures !Throws(line, AckSize(fixed, id, kind, session))
  {
    SafeDigits(line.next + 1);
  }
}
