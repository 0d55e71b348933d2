/** The phone's connection: one socket at a time, and bounded retries when it fails. */
module ReconnectBackoff {
  import opened Common

  const MAX_RECONNECT_ATTEMPTS := 5
  const BASE_DELAY := 1000

  datatype Status = Idle | Connecting | Reconnecting | Connected | Closed

  /** A socket's `readyState`; `Gone` once its close event was delivered. */
  datatype Phase = Dialing | Open | Closing | Gone

  /** The client's fields, and with them every socket it ever made (a socket's number is its index)
      and every timer it ever set (delays by index, and the timers that are still pending). */
  datatype Client = Client(
    status: Status,
    ws: Option<nat>,
    attempts: nat,
    timer: Option<nat>,
    intentional: bool,
    sockets: seq<Phase>,
    delays: seq<nat>,
    pending: set<nat>)

  const Start: Client := Client(Idle, None, 0, None, false, [], [], {})

  function Pow2(n: nat): nat {
    if n == 0 then 1 else 2 * Pow2(n - 1)
  }

  function Delay(attempts: nat): nat {
    BASE_DELAY * Pow2(attempts)
  }

  function Sum(s: seq<nat>): nat {
    if s == [] then 0 else Sum(Front(s)) + Last(s)
  }

  function Live(c: Client): set<nat> {
    set i | 0 <= i < |c.sockets| && (c.sockets[i] == Dialing || c.sockets[i] == Open)
  }

  // ---------------------------------------------------------------------
  // The handlers as functions
  // ---------------------------------------------------------------------

  function AfterOpenSocket(c: Client): Client {
    c.(status := if c.attempts > 0 then Reconnecting else Connecting,
       ws := Some(|c.sockets|), sockets := c.sockets + [Dialing])
  }

  function AfterCloseSocket(c: Client): Client {
    if c.ws.None? then c
    else if c.ws.value >= |c.sockets| || c.sockets[c.ws.value] == Gone then c.(ws := None)
    else c.(ws := None, sockets := c.sockets[c.ws.value := Closing])
  }

  function AfterSchedule(c: Client): Client {
    if c.attempts >= MAX_RECONNECT_ATTEMPTS then c.(status := Closed)
    else c.(attempts := c.attempts + 1, timer := Some(|c.delays|), pending := c.pending + {|c.delays|},
            delays := c.delays + [Delay(c.attempts)])
  }

  function AfterClearTimer(c: Client): Client {
    if c.timer.None? then c else c.(timer := None, pending := c.pending - {c.timer.value})
  }

  function AfterConnect(c: Client): Client {
    if c.status == Connected || c.status == Connecting then c else AfterOpenSocket(c.(intentional := false))
  }

  function AfterDisconnect(c: Client): Client {
    AfterCloseSocket(AfterClearTimer(c.(intentional := true))).(status := Closed)
  }

  function AfterOpen(c: Client, id: nat): Client
    requires id < |c.sockets|
  {
    c.(status := Connected, attempts := 0, sockets := c.sockets[id := Open])
  }

  function AfterHandshakeError(c: Client, id: nat): Client {
    if c.ws != Some(id) then c else AfterCloseSocket(c.(intentional := true, status := Closed))
  }

  /** `inside`: whether the `onDisconnected` callback calls `disconnect()`. */
  function AfterClose(c: Client, id: nat, inside: bool): Client
    requires id < |c.sockets|
  {
    var d := c.(ws := None, sockets := c.sockets[id := Gone]);
    if d.intentional then d else AfterSchedule(if inside then AfterDisconnect(d) else d)
  }

  class UcpClient {
    var status: Status
    var ws: Option<nat>
    var reconnectAttempts: nat
    var reconnectTimer: Option<nat>
    var intentionalClose: bool
    var sockets: seq<Phase>
    var delays: seq<nat>
    var pending: set<nat>

    constructor ()
      ensures State() == Start
    {
      status, ws, reconnectAttempts, reconnectTimer, intentionalClose := Idle, None, 0, None, false;
      sockets, delays, pending := [], [], {};
    }

    ghost function State(): Client
      reads this
    {
      Client(status, ws, reconnectAttempts, reconnectTimer, intentionalClose, sockets, delays, pending)
    }

    method Connect()
      modifies this
      ensures State() == AfterConnect(old(State()))
    {
      if status == Connected || status == Connecting {
        return;
      }
      intentionalClose := false;
      OpenSocket();
    }

    method Disconnect()
      modifies this
      ensures State() == AfterDisconnect(old(State()))
    {
      intentionalClose := true;
      ClearReconnectTimer();
      CloseSocket();
      status := Closed;
    }

    method OpenSocket()
      modifies this
      ensures State() == AfterOpenSocket(old(State()))
    {
      status := if reconnectAttempts > 0 then Reconnecting else Connecting;
      sockets := sockets + [Dialing];
      ws := Some(|sockets| - 1);
    }

    method OnOpen(id: nat)
      requires id < |sockets|
      modifies this
      ensures State() == AfterOpen(old(State()), id)
    {
      sockets := sockets[id := Open];
      status := Connected;
      reconnectAttempts := 0;
    }

    method OnHandshakeError(id: nat)
      modifies this
      ensures State() == AfterHandshakeError(old(State()), id)
    {
      if ws != Some(id) {
        return;
      }
      intentionalClose := true;
      status := Closed;
      CloseSocket();
    }

    method OnClose(id: nat, inside: bool)
      requires id < |sockets|
      modifies this
      ensures State() == AfterClose(old(State()), id, inside)
    {
      sockets := sockets[id := Gone];
      ws := None;
      if intentionalClose {
        return;
      }
      if inside {
        Disconnect();
      }
      ScheduleReconnect();
    }

    method ScheduleReconnect()
      modifies this
      ensures State() == AfterSchedule(old(State()))
    {
      if reconnectAttempts >= MAX_RECONNECT_ATTEMPTS {
        status := Closed;
        return;
      }
      reconnectAttempts := reconnectAttempts + 1;
      delays := delays + [BASE_DELAY * Pow2(reconnectAttempts - 1)];
      reconnectTimer := Some(|delays| - 1);
      pending := pending + {|delays| - 1};
    }

    /** The timer's callback; the field keeps the number of the timer that fired. */
    method OnTimer(t: nat)
      modifies this
      ensures State() == AfterOpenSocket(old(State()).(pending := old(pending) - {t}))
    {
      pending := pending - {t};
      OpenSocket();
    }

    method ClearReconnectTimer()
      modifies this
      ensures State() == AfterClearTimer(old(State()))
    {
      if reconnectTimer.Some? {
        pending := pending - {reconnectTimer.value};
        reconnectTimer := None;
      }
    }

    method CloseSocket()
      modifies this
      ensures State() == AfterCloseSocket(old(State()))
    {
      if ws.Some? {
        if ws.value < |sockets| && sockets[ws.value] != Gone {
          sockets := sockets[ws.value := Closing];
        }
        ws := None;
      }
    }
  }

  // ---------------------------------------------------------------------
  // Runs
  // ---------------------------------------------------------------------

  datatype Step =
    | Connect
    | Disconnect
    | Opens(id: nat)
    | HandshakeFails(id: nat)
    | Closes(id: nat, inside: bool)
    | Fires(t: nat)

  predicate Possible(c: Client, s: Step) {
    match s
    case Connect => true
    case Disconnect => true
    case Opens(id) => id < |c.sockets| && c.sockets[id] == Dialing
    case HandshakeFails(id) => id < |c.sockets| && c.sockets[id] != Dialing
    case Closes(id, _) => id < |c.sockets| && c.sockets[id] != Gone
    case Fires(t) => t in c.pending
  }

  function Next(c: Client, s: Step): Client
    requires Possible(c, s)
  {
    match s
    case Connect => AfterConnect(c)
    case Disconnect => AfterDisconnect(c)
    case Opens(id) => AfterOpen(c, id)
    case HandshakeFails(id) => AfterHandshakeError(c, id)
    case Closes(id, inside) => AfterClose(c, id, inside)
    case Fires(t) => AfterOpenSocket(c.(pending := c.pending - {t}))
  }

  /** `d` can follow from `c` by these steps. */
  predicate Reaches(c: Client, steps: seq<Step>, d: Client)
    decreases |steps|
  {
    if steps == [] then d == c
    else Possible(c, steps[0]) && Reaches(Next(c, steps[0]), steps[1..], d)
  }

  /** `disconnect()` is not called from inside `onDisconnected`. */
  predicate Plain(s: Step) {
    s.Closes? ==> !s.inside
  }

  /** Never more than one live socket or pending timer. */
  ghost predicate OneAtATime(c: Client) {
    |Live(c)| + |c.pending| <= 1 && c.attempts <= MAX_RECONNECT_ATTEMPTS
  }

  /** Sockets that were closed by the client and whose close event has not come yet. */
  function Lingering(c: Client): set<nat> {
    set i | 0 <= i < |c.sockets| && c.sockets[i] == Closing
  }

  ghost predicate Sound(c: Client) {
    && c.attempts <= MAX_RECONNECT_ATTEMPTS
    && (c.ws.Some? ==> c.ws.value < |c.sockets|)
    && (forall t :: t in c.pending ==> t < |c.delays|)
    && (forall i :: i in Live(c) ==> c.ws == Some(i) && c.pending == {} && !c.intentional)
    && (forall t :: t in c.pending ==> c.timer == Some(t) && Live(c) == {} && !c.intentional)
    && (c.pending != {} ==> c.ws == None)
    && (Lingering(c) != {} ==> c.intentional)
  }

  lemma SoundMeansOne(c: Client)
    requires Sound(c)
    ensures OneAtATime(c)
  {
    if i :| i in Live(c) {
      assert Live(c) == {i};
    } else if t :| t in c.pending {
      assert c.pending == {t};
      assert Live(c) == {};
    } else {
      assert Live(c) == {} && c.pending == {};
    }
  }

  /** When it is harmless to call `connect()`: it returns at once, or nothing is left over. */
  predicate MayConnect(c: Client) {
    || c.status == Connected || c.status == Connecting
    || (Live(c) == {} && c.pending == {} && Lingering(c) == {})
  }

  lemma OpenSocketSound(c: Client)
    requires Sound(c) && Live(c) == {} && c.pending == {} && Lingering(c) == {} && !c.intentional
    ensures Sound(AfterOpenSocket(c))
  {
  }

  lemma DisconnectSound(c: Client)
    requires Sound(c)
    ensures Sound(AfterDisconnect(c)) && Live(AfterDisconnect(c)) == {} && AfterDisconnect(c).pending == {}
    ensures AfterDisconnect(c).intentional && |AfterDisconnect(c).sockets| == |c.sockets|
  {
    var d := AfterDisconnect(c);
    assert forall i :: i in Live(d) ==> i in Live(c) && c.ws != Some(i);
  }

  lemma CloseSound(c: Client, id: nat)
    requires Sound(c) && id < |c.sockets| && c.sockets[id] != Gone
    ensures Sound(AfterClose(c, id, false))
  {
    var d := c.(ws := None, sockets := c.sockets[id := Gone]);
    assert forall i :: i in Live(d) ==> i in Live(c) && i != id;
    assert forall i :: i in Lingering(d) ==> i in Lingering(c);
    if c.sockets[id] == Closing {
      assert id in Lingering(c);
    } else {
      assert id in Live(c);
    }
    assert Live(d) == {};
    var e := AfterClose(c, id, false);
    assert e.sockets == d.sockets;
    assert Live(e) == Live(d) && Lingering(e) == Lingering(d);
  }

  lemma OpenSound(c: Client, id: nat)
    requires Sound(c) && id < |c.sockets| && c.sockets[id] == Dialing
    ensures Sound(AfterOpen(c, id))
  {
  }

  lemma HandshakeErrorSound(c: Client, id: nat)
    requires Sound(c)
    ensures Sound(AfterHandshakeError(c, id))
  {
    var d := AfterHandshakeError(c, id);
    assert forall i :: i in Live(d) ==> i in Live(c);
  }

  lemma NextSound(c: Client, s: Step)
    requires Sound(c) && Possible(c, s) && Plain(s) && (s.Connect? ==> MayConnect(c))
    ensures Sound(Next(c, s))
  {
    match s
    case Connect =>
      if c.status != Connected && c.status != Connecting {
        OpenSocketSound(c.(intentional := false));
      }
    case Disconnect => DisconnectSound(c);
    case Opens(id) => OpenSound(c, id);
    case HandshakeFails(id) => HandshakeErrorSound(c, id);
    case Closes(id, inside) => CloseSound(c, id);
    case Fires(t) => OpenSocketSound(c.(pending := c.pending - {t}));
  }

  // ---------------------------------------------------------------------
  // One socket at a time
  // ---------------------------------------------------------------------

  /** No call of `connect()`, and none of `disconnect()` from inside the callback. */
  predicate Quiet(steps: seq<Step>) {
    forall i :: 0 <= i < |steps| ==> Plain(steps[i]) && !steps[i].Connect?
  }

  lemma {:induction false} QuietRunSound(c: Client, steps: seq<Step>, d: Client)
    requires Sound(c) && Quiet(steps) && Reaches(c, steps, d)
    ensures Sound(d)
    decreases |steps|
  {
    hide Sound, Next;
    if steps != [] {
      NextSound(c, steps[0]);
      QuietRunSound(Next(c, steps[0]), steps[1..], d);
    }
  }

  lemma FirstConnect()
    ensures var c := AfterConnect(Start);
            Sound(c) && Live(c) != {} && c.attempts == 0 && |c.sockets| == 1 && c.delays == []
  {
  }

  /** A client that is told to connect once has at most one live socket or pending timer, and at
      most five attempts, in every state it can get into. */
  lemma ConnectedOnce(steps: seq<Step>, d: Client)
    requires Quiet(steps) && Reaches(AfterConnect(Start), steps, d)
    ensures OneAtATime(d)
  {
    FirstConnect();
    QuietRunSound(AfterConnect(Start), steps, d);
    SoundMeansOne(d);
  }

  /** For a later `connect()` the exact condition: it is harmless if and only if it returns at
      once or no socket is live, no timer is pending and no close event is still to come. */
  lemma ConnectHarmlessIff(c: Client)
    requires Sound(c)
    ensures MayConnect(c) <==> forall steps, d :: Quiet(steps) && Reaches(AfterConnect(c), steps, d) ==> OneAtATime(d)
  {
    if MayConnect(c) {
      NextSound(c, Connect);
      forall steps, d | Quiet(steps) && Reaches(AfterConnect(c), steps, d) ensures OneAtATime(d) {
        QuietRunSound(AfterConnect(c), steps, d);
        SoundMeansOne(d);
      }
    } else {
      var steps, d := Doubled(c);
      assert Quiet(steps) && Reaches(AfterConnect(c), steps, d) && !OneAtATime(d);
    }
  }

  /** How a careless `connect()` ends with two: at once when something is live or pending, else the
      old socket's late close event plans a retry beside the new socket. */
  lemma Doubled(c: Client) returns (steps: seq<Step>, d: Client)
    requires Sound(c) && !MayConnect(c)
    ensures Quiet(steps) && Reaches(AfterConnect(c), steps, d) && !OneAtATime(d)
  {
    var newest := |c.sockets|;
    steps, d := [], AfterConnect(c);
    assert newest in Live(d);
    if i :| i in Live(c) {
      assert {i, newest} <= Live(d);
      TwoOfThem(Live(d), i, newest);
    } else if t :| t in c.pending {
      AtLeastOne(Live(d), newest);
      AtLeastOne(d.pending, t);
    } else {
      var late :| late in Lingering(c);
      steps := [Opens(newest), Closes(late, false)];
      var e := AfterOpen(d, newest);
      var f := AfterClose(e, late, false);
      assert steps[1..] == [Closes(late, false)] && steps[1..][1..] == [];
      assert Next(d, steps[0]) == e && Next(e, steps[1]) == f;
      AtLeastOne(Live(f), newest);
      AtLeastOne(f.pending, |e.delays|);
      d := f;
    }
  }

  lemma AtLeastOne(s: set<nat>, a: nat)
    requires a in s
    ensures |s| >= 1
  {
  }

  lemma TwoOfThem(s: set<nat>, a: nat, b: nat)
    requires a in s && b in s && a != b
    ensures |s| >= 2
  {
    AtLeastOne(s - {a}, b);
  }

  predicate NoConnect(steps: seq<Step>) {
    forall i :: 0 <= i < |steps| ==> !steps[i].Connect?
  }

  // ---------------------------------------------------------------------
  // After disconnect()
  // ---------------------------------------------------------------------

  ghost predicate Silent(c: Client) {
    c.intentional && c.status == Closed && c.ws == None && Live(c) == {} && c.pending == {}
  }

  lemma {:induction false} SilentForGood(c: Client, steps: seq<Step>, d: Client)
    requires Silent(c) && Reaches(c, steps, d) && NoConnect(steps)
    ensures Silent(d) && |d.sockets| == |c.sockets|
    decreases |steps|
  {
    if steps != [] {
      var e := Next(c, steps[0]);
      assert forall k :: 0 <= k < |c.sockets| && c.sockets[k] == Dialing ==> k in Live(c);
      assert forall i :: i in Live(e) ==> i in Live(c);
      SilentForGood(e, steps[1..], d);
    }
  }

  /** After `disconnect()` nothing is live or planned, and no socket opens until the next
      `connect()`. */
  lemma NothingOpensAfterDisconnect(c: Client, steps: seq<Step>, d: Client)
    requires Sound(c) && Reaches(AfterDisconnect(c), steps, d) && NoConnect(steps)
    ensures |d.sockets| == |c.sockets| && Live(d) == {} && d.pending == {} && d.status == Closed
  {
    DisconnectSound(c);
    SilentForGood(AfterDisconnect(c), steps, d);
  }

  /** Called from inside `onDisconnected`, `disconnect()` keeps that promise exactly when the
      retries are used up: otherwise the close handler goes on to plan one more. */
  lemma DisconnectInsideHoldsIff(c: Client, id: nat)
    requires Sound(c) && id in Live(c)
    ensures c.attempts == MAX_RECONNECT_ATTEMPTS <==>
              forall steps, d :: NoConnect(steps) && Reaches(AfterClose(c, id, true), steps, d)
                                 ==> |d.sockets| == |c.sockets|
  {
    var e := AfterClose(c, id, true);
    var closed := c.(ws := None, sockets := c.sockets[id := Gone]);
    assert forall i :: i in Live(closed) ==> i in Live(c) && i != id;
    assert e.sockets == closed.sockets;
    assert Live(e) == Live(closed) == {};
    if c.attempts == MAX_RECONNECT_ATTEMPTS {
      forall steps, d | NoConnect(steps) && Reaches(e, steps, d)
        ensures |d.sockets| == |c.sockets|
      {
        SilentForGood(e, steps, d);
      }
    } else {
      var steps := [Fires(|c.delays|)];
      assert steps[1..] == [] && NoConnect(steps);
      assert Reaches(e, steps, Next(e, steps[0])) && |Next(e, steps[0]).sockets| == |c.sockets| + 1;
    }
  }

  // ---------------------------------------------------------------------
  // Giving up
  // ---------------------------------------------------------------------

  /** Nothing but failures: sockets close and timers fire. */
  predicate Failures(steps: seq<Step>) {
    forall i :: 0 <= i < |steps| ==> (steps[i].Closes? && !steps[i].inside) || steps[i].Fires?
  }

  /** The next `n` delays when `a` attempts were made before. */
  function Backoff(a: nat, n: nat): seq<nat>
    decreases n
  {
    if n == 0 then [] else [Delay(a)] + Backoff(a + 1, n - 1)
  }

  /** `n` failures after `c`: a close event and a timer in turn, each timer set for twice as long,
      until a close event finds no attempt left and the client is closed. */
  ghost predicate Retried(c: Client, n: nat, d: Client) {
    var retries := n / 2;
    var left := MAX_RECONNECT_ATTEMPTS - c.attempts;
    && n <= 2 * left + 1
    && |d.sockets| == |c.sockets| + retries
    && d.delays == c.delays + Backoff(c.attempts, if n % 2 == 1 && retries < left then retries + 1 else retries)
    && (n % 2 == 0 ==> Live(d) != {} && d.attempts == c.attempts + retries)
    && (n % 2 == 1 && retries < left ==> d.pending != {})
    && (n % 2 == 1 && retries == left ==> d.status == Closed && Live(d) == {} && d.pending == {})
  }

  /** From any state with a live socket and `a` attempts behind it, failures lead through one retry
      after another and end in `closed` after exactly 5 - a of them. */
  lemma {:induction false} FailuresEnd(c: Client, steps: seq<Step>, d: Client)
    requires Sound(c) && Live(c) != {} && Failures(steps) && Reaches(c, steps, d)
    ensures Retried(c, |steps|, d)
    decreases |steps|
  {
    hide Sound, Live, AfterClose, AfterOpenSocket, Next, Possible, Retried, Failures;
    var i: nat :| i in Live(c);
    if steps == [] {
      RetriedNone(c);
    } else {
      FailuresSplit(steps);
      OneFailure(c, i);
      var e := AfterClose(c, i, false);
      if |steps| == 1 {
        RetriedOne(c, i);
      } else {
        assert steps[1..][1..] == steps[2..];
        var f := OneRetry(c, i);
        FailuresEnd(f, steps[2..], d);
        RetriedMore(c, f, |steps| - 2, d);
      }
    }
  }

  lemma FailuresSplit(steps: seq<Step>)
    requires Failures(steps)
    ensures forall k :: 0 <= k < |steps| ==> Failures([steps[k]])
    ensures |steps| >= 2 ==> Failures(steps[2..])
  {
  }

  lemma RetriedNone(c: Client)
    requires Sound(c) && Live(c) != {}
    ensures Retried(c, 0, c)
  {
  }

  lemma RetriedOne(c: Client, i: nat)
    requires Sound(c) && i in Live(c)
    ensures Retried(c, 1, AfterClose(c, i, false))
  {
    OneFailure(c, i);
    assert Backoff(c.attempts, 1) == [Delay(c.attempts)];
    assert c.delays + Backoff(c.attempts, 0) == c.delays;
  }

  lemma RetriedMore(c: Client, f: Client, n: nat, d: Client)
    requires c.attempts < MAX_RECONNECT_ATTEMPTS
    requires f.attempts == c.attempts + 1 && f.delays == c.delays + [Delay(c.attempts)]
    requires |f.sockets| == |c.sockets| + 1
    requires Retried(f, n, d)
    ensures Retried(c, n + 2, d)
  {
    hide Live, Delay;
    BackoffStep(c.attempts, c.delays, if n % 2 == 1 && n / 2 < 4 - c.attempts then n / 2 + 1 else n / 2);
  }

  /** The timer fires and the next socket is dialed. */
  lemma OneRetry(c: Client, i: nat) returns (f: Client)
    requires Sound(c) && i in Live(c) && AfterClose(c, i, false).pending != {}
    ensures var e := AfterClose(c, i, false);
            && Possible(e, Fires(|c.delays|)) && Next(e, Fires(|c.delays|)) == f
            && Sound(f) && Live(f) != {} && c.attempts < MAX_RECONNECT_ATTEMPTS && f.attempts == c.attempts + 1
            && f.delays == c.delays + [Delay(c.attempts)] && |f.sockets| == |c.sockets| + 1
  {
    hide Delay;
    OneFailure(c, i);
    var e := AfterClose(c, i, false);
    NextSound(e, Fires(|c.delays|));
    f := Next(e, Fires(|c.delays|));
    assert |c.sockets| in Live(f);
  }

  lemma BackoffStep(a: nat, delays: seq<nat>, n: nat)
    ensures delays + [Delay(a)] + Backoff(a + 1, n) == delays + Backoff(a, n + 1)
  {
  }

  /** With one live socket the only failure that can come next is its close event, and after that
      only the timer, if one was set. */
  lemma OneFailure(c: Client, i: nat)
    requires Sound(c) && i in Live(c)
    ensures forall s :: Possible(c, s) && Failures([s]) ==> s == Closes(i, false)
    ensures i < |c.sockets| && Possible(c, Closes(i, false)) && Next(c, Closes(i, false)) == AfterClose(c, i, false)
    ensures var e := AfterClose(c, i, false);
            && Sound(e) && Live(e) == {}
            && e.pending == (if c.attempts < MAX_RECONNECT_ATTEMPTS then {|c.delays|} else {})
            && forall s :: Possible(e, s) && Failures([s]) ==> e.pending != {} && s == Fires(|c.delays|)
  {
    var e := AfterClose(c, i, false);
    CloseSound(c, i);
    assert forall k :: 0 <= k < |c.sockets| && c.sockets[k] != Gone ==> k in Live(c) || k in Lingering(c);
    assert forall k :: 0 <= k < |e.sockets| && e.sockets[k] != Gone ==> k in Live(e) || k in Lingering(e);
    assert forall k :: k in Live(e) ==> k in Live(c) && k != i;
    assert forall k :: k in Lingering(e) ==> k in Lingering(c);
    forall s | Failures([s]) ensures (s.Closes? && !s.inside) || s.Fires? {
      assert [s][0] == s;
    }
  }

  /** So a client that never gets through makes six sockets in all, waits 31 seconds in all between
      them, and is then closed; it gets there within eleven events and cannot stop earlier. */
  lemma FiveRetriesThenClosed(steps: seq<Step>, d: Client)
    requires Failures(steps) && Reaches(AfterConnect(Start), steps, d)
    ensures |steps| <= 11
    ensures Live(d) == {} && d.pending == {} <==> |steps| == 11
    ensures |steps| == 11 ==> d.status == Closed && |d.sockets| == 6 && |d.delays| == 5 && Sum(d.delays) == 31_000
  {
    hide AfterConnect, Reaches, Next, Live, Failures;
    FirstConnect();
    FailuresEnd(AfterConnect(Start), steps, d);
    if |steps| == 11 {
      assert d.delays == Backoff(0, 5);
      AllDelays();
    }
  }

  lemma AllDelays()
    ensures |Backoff(0, 5)| == 5 && Sum(Backoff(0, 5)) == 31_000
  {
    assert Pow2(0) == 1 && Pow2(1) == 2 && Pow2(2) == 4 && Pow2(3) == 8 && Pow2(4) == 16;
    var all := [1000, 2000, 4000, 8000, 16000];
    assert Backoff(4, 1) == [16000];
    assert Backoff(2, 3) == [4000, 8000, 16000];
    assert Backoff(0, 5) == all;
    assert Front(all) == [1000, 2000, 4000, 8000] && Front(Front(all)) == [1000, 2000, 4000];
    assert Front([1000, 2000, 4000]) == [1000, 2000] && Front([1000, 2000]) == [1000] && Sum([1000]) == 1000;
    assert Sum([1000, 2000]) == 3000;
    assert Sum([1000, 2000, 4000]) == 7000;
    assert Sum([1000, 2000, 4000, 8000]) == 15000;
  }

  // ---------------------------------------------------------------------
  // What the status says
  // ---------------------------------------------------------------------

  /** The status shown to the user: idle until the first call, closed when nothing is live or planned,
      connected with an open socket, and while dialing, connecting for a first attempt and reconnecting
      for a retry. An open socket has used no attempt, and a planned retry has, after twice the delay of
      the one before it. */
  ghost predicate StatusMeans(c: Client) {
    && (c.status == Idle ==> c == Start)
    && (c.status != Idle ==> (c.status == Closed <==> Live(c) == {} && c.pending == {}))
    && (forall i :: 0 <= i < |c.sockets| && c.sockets[i] == Open ==> c.status == Connected && c.attempts == 0)
    && (forall i :: 0 <= i < |c.sockets| && c.sockets[i] == Dialing ==>
          c.status == if c.attempts == 0 then Connecting else Reconnecting)
    && (c.pending != {} ==>
          && 1 <= c.attempts <= 5 && c.delays != [] && Last(c.delays) == 1000 * Pow2(c.attempts - 1)
          && (c.attempts > 1 ==> c.status == Reconnecting)
          && (c.attempts == 1 ==> c.status == Connected || c.status == Connecting))
  }

  lemma DialMeans(c: Client)
    requires Live(c) == {} && c.pending == {}
    ensures StatusMeans(AfterOpenSocket(c))
  {
    var d := AfterOpenSocket(c);
    assert |c.sockets| in Live(d);
    assert forall i :: 0 <= i < |c.sockets| ==> c.sockets[i] != Dialing && c.sockets[i] != Open by {
      forall i | 0 <= i < |c.sockets| ensures c.sockets[i] != Dialing && c.sockets[i] != Open {
        assert i !in Live(c);
      }
    }
  }

  lemma QuietMeans(d: Client)
    requires Live(d) == {} && d.pending == {} && d.status == Closed
    ensures StatusMeans(d)
  {
    forall i | 0 <= i < |d.sockets| ensures d.sockets[i] != Dialing && d.sockets[i] != Open {
      assert i !in Live(d);
    }
  }

  lemma CloseMeans(c: Client, id: nat)
    requires Sound(c) && StatusMeans(c) && id < |c.sockets| && c.sockets[id] != Gone
    ensures StatusMeans(AfterClose(c, id, false))
  {
    var d := AfterClose(c, id, false);
    CloseSound(c, id);
    if c.sockets[id] == Closing {
      assert id in Lingering(c);
      assert d == c.(ws := None, sockets := c.sockets[id := Gone]);
      assert Live(d) == Live(c);
      assert forall i :: i in Live(c) ==> false;
    } else {
      assert id in Live(c);
      assert forall i :: 0 <= i < |d.sockets| && (d.sockets[i] == Dialing || d.sockets[i] == Open) ==> i in Live(c);
      assert Live(d) == {};
      if c.attempts >= 5 {
        QuietMeans(d);
      } else {
        assert |c.delays| in d.pending;
        assert forall i :: 0 <= i < |d.sockets| ==> i !in Live(d);
      }
    }
  }

  lemma NextMeans(c: Client, s: Step)
    requires Sound(c) && StatusMeans(c) && Possible(c, s) && Plain(s) && (s.Connect? ==> MayConnect(c))
    ensures StatusMeans(Next(c, s))
  {
    match s
    case Connect =>
      if c.status != Connected && c.status != Connecting {
        hide AfterOpenSocket;
        DialMeans(c.(intentional := false));
      }
    case Disconnect =>
      DisconnectSound(c);
      QuietMeans(AfterDisconnect(c));
    case Opens(id) => OpenMeans(c, id);
    case HandshakeFails(id) => HandshakeErrorMeans(c, id);
    case Closes(id, inside) => CloseMeans(c, id);
    case Fires(t) =>
      assert c.pending == {t} && Live(c) == {};
      hide AfterOpenSocket;
      DialMeans(c.(pending := c.pending - {t}));
  }

  lemma OpenMeans(c: Client, id: nat)
    requires Sound(c) && StatusMeans(c) && id < |c.sockets| && c.sockets[id] == Dialing
    ensures StatusMeans(AfterOpen(c, id))
  {
    var d := AfterOpen(c, id);
    assert id in Live(c) && id in Live(d);
    assert forall i :: 0 <= i < |d.sockets| && (d.sockets[i] == Dialing || d.sockets[i] == Open) ==> i in Live(c);
  }

  lemma HandshakeErrorMeans(c: Client, id: nat)
    requires Sound(c) && StatusMeans(c) && id < |c.sockets| && c.sockets[id] != Dialing
    ensures StatusMeans(AfterHandshakeError(c, id))
  {
    var d := AfterHandshakeError(c, id);
    if c.ws == Some(id) {
      assert forall i :: i in Live(d) ==> i in Live(c) && i != id;
      assert Live(d) == {} && d.pending == {};
      QuietMeans(d);
    }
  }

  /** `d` can follow from `c` by these steps, with every call of `connect()` a harmless one. */
  predicate ReachesWithCare(c: Client, steps: seq<Step>, d: Client)
    decreases |steps|
  {
    if steps == [] then d == c
    else
      && Possible(c, steps[0]) && Plain(steps[0]) && (steps[0].Connect? ==> MayConnect(c))
      && ReachesWithCare(Next(c, steps[0]), steps[1..], d)
  }

  lemma {:induction false} CareKeeps(c: Client, steps: seq<Step>, d: Client)
    requires Sound(c) && StatusMeans(c) && ReachesWithCare(c, steps, d)
    ensures Sound(d) && StatusMeans(d)
    decreases |steps|
  {
    hide Sound, Next, StatusMeans, MayConnect, Possible;
    if steps != [] {
      NextSound(c, steps[0]);
      NextMeans(c, steps[0]);
      CareKeeps(Next(c, steps[0]), steps[1..], d);
    }
  }

  /** In every state a client can get into that is connected and disconnected any number of times, the
      status says what is going on, and there is never more than one socket or timer. */
  lemma StatusTells(steps: seq<Step>, d: Client)
    requires ReachesWithCare(Start, steps, d)
    ensures StatusMeans(d) && OneAtATime(d)
  {
    StartTells();
    CareKeeps(Start, steps, d);
    SoundMeansOne(d);
  }

  lemma StartTells()
    ensures Sound(Start) && StatusMeans(Start)
  {
    assert Live(Start) == {};
  }

  predicate NoOpen(steps: seq<Step>) {
    forall i :: 0 <= i < |steps| ==> !steps[i].Opens?
  }

  lemma AttemptsStep(c: Client, s: Step)
    requires Possible(c, s)
    ensures var d := Next(c, s);
            && (s.Opens? ==> d.attempts == 0 && d.delays == c.delays)
            && (!s.Opens? ==> |d.delays| >= |c.delays| && d.attempts == c.attempts + (|d.delays| - |c.delays|))
  {
  }

  /** The attempts count the retries planned since a socket was last open. Nothing else resets them,
      neither `connect()` nor `disconnect()`, whatever is called and in whatever order. */
  lemma {:induction false} AttemptsCountRetries(c: Client, steps: seq<Step>, d: Client)
    requires Reaches(c, steps, d) && NoOpen(steps)
    ensures |d.delays| >= |c.delays| && d.attempts == c.attempts + (|d.delays| - |c.delays|)
    decreases |steps|
  {
    hide Next, Possible;
    if steps != [] {
      AttemptsStep(c, steps[0]);
      AttemptsCountRetries(Next(c, steps[0]), steps[1..], d);
    }
  }
}
