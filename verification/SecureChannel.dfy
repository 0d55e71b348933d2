/** Sealed frames: AES-GCM is an ideal seal that opens exactly what was sealed, and every frame
    carries its sequence and nonce twice, in the clear and under the seal. */
module SecureChannel {
  import opened Common
  import opened Frames

  type Byte = x: int | 0 <= x < 256

  type Bytes = seq<Byte>

  /** A JSON value as far as `===` can tell. Base64 text stands for the bytes it encodes. */
  datatype Value = Missing | Integer(n: int) | Fraction(text: string) | Text(bytes: Bytes) | Structure

  /** Strict equality; two parsed objects are never the same object. */
  predicate Same(a: Value, b: Value) {
    a == b && !a.Structure?
  }

  datatype Plaintext = Plaintext(sequence: Value, nonce: Value, envelope: Option<string>)

  /** A key, a nonce and the bytes that came out of the cipher. */
  datatype Box = Box(key: Bytes, nonce: Bytes, text: Bytes)

  /** Everything that anyone has sealed so far. */
  type Seals = map<Box, Plaintext>

  /** Opening is a function: bytes that already open to something else cannot come out. */
  predicate Consistent(seals: Seals, box: Box, p: Plaintext) {
    box in seals ==> seals[box] == p
  }

  datatype Frame = Frame(encrypted: bool, sequence: Value, nonce: Value, ciphertext: Option<Bytes>)

  datatype Error = FrameTooLarge | CiphertextTooShort | NotOpened | SequenceMismatch | NonceMismatch | MissingEnvelope

  datatype Result<+T> = Ok(value: T) | Err(error: Error)

  const NONCE_LENGTH := 12

  // ---------------------------------------------------------------------
  // One frame
  // ---------------------------------------------------------------------

  function Inside(envelope: string, sequence: int, nonce: Bytes): Plaintext {
    Plaintext(Integer(sequence), Text(nonce), Some(envelope))
  }

  function SealedFrame(sequence: int, nonce: Bytes, text: Bytes): Frame {
    Frame(true, Integer(sequence), Text(nonce), Some(nonce + text))
  }

  function BoxOf(key: Bytes, combined: Bytes): Box
    requires |combined| >= NONCE_LENGTH
  {
    Box(key, combined[..NONCE_LENGTH], combined[NONCE_LENGTH..])
  }

  /** What opening a frame gives, or the first check that fails. */
  function Opened(seals: Seals, f: Frame, key: Bytes): Result<string>
    requires f.ciphertext.Some?
  {
    var combined := f.ciphertext.value;
    if |combined| < NONCE_LENGTH then Err(CiphertextTooShort)
    else if BoxOf(key, combined) !in seals then Err(NotOpened)
    else
      var parsed := seals[BoxOf(key, combined)];
      if !Same(parsed.sequence, f.sequence) then Err(SequenceMismatch)
      else if !Same(parsed.nonce, f.nonce) then Err(NonceMismatch)
      else if parsed.envelope.None? then Err(MissingEnvelope)
      else Ok(parsed.envelope.value)
  }

  class Gcm {
    var seals: Seals

    constructor ()
      ensures seals == map[]
    {
      seals := map[];
    }

    /** `text` is what the cipher returns. */
    method Encrypt(key: Bytes, nonce: Bytes, plaintext: Plaintext, text: Bytes)
      requires Consistent(seals, Box(key, nonce, text), plaintext)
      modifies this
      ensures seals == old(seals)[Box(key, nonce, text) := plaintext]
    {
      seals := seals[Box(key, nonce, text) := plaintext];
    }

    method Decrypt(key: Bytes, nonce: Bytes, text: Bytes) returns (plaintext: Option<Plaintext>)
      ensures plaintext == if Box(key, nonce, text) in seals then Some(seals[Box(key, nonce, text)]) else None
    {
      var box := Box(key, nonce, text);
      plaintext := if box in seals then Some(seals[box]) else None;
    }
  }

  /** `encryptFrame`. The random nonce, the cipher's output and the size of the
      envelope are given. */
  method EncryptFrame(gcm: Gcm, envelope: string, key: Bytes, sequence: nat, nonce: Bytes, text: Bytes, size: nat)
    returns (r: Result<Frame>)
    requires |nonce| == NONCE_LENGTH && Consistent(gcm.seals, Box(key, nonce, text), Inside(envelope, sequence, nonce))
    modifies gcm
    ensures r == if !Fits(size, sequence) then Err(FrameTooLarge) else Ok(SealedFrame(sequence, nonce, text))
    ensures gcm.seals == if r.Err? then old(gcm.seals)
              else old(gcm.seals)[Box(key, nonce, text) := Inside(envelope, sequence, nonce)]
    ensures r.Ok? ==> Opened(gcm.seals, r.value, key) == Ok(envelope)
  {
    if !Fits(size, sequence) {
      return Err(FrameTooLarge);
    }
    gcm.Encrypt(key, nonce, Inside(envelope, sequence, nonce), text);
    var combined := new Byte[|nonce| + |text|];
    forall i | 0 <= i < |nonce| {
      combined[i] := nonce[i];
    }
    forall i | 0 <= i < |text| {
      combined[|nonce| + i] := text[i];
    }
    assert combined[..] == nonce + text;
    OpensAgain(gcm.seals, envelope, key, sequence, nonce, text);
    return Ok(Frame(true, Integer(sequence), Text(nonce), Some(combined[..])));
  }

  method DecryptFrame(gcm: Gcm, f: Frame, key: Bytes) returns (r: Result<string>)
    requires f.ciphertext.Some?
    ensures r == Opened(gcm.seals, f, key)
  {
    var combined := f.ciphertext.value;
    if |combined| < NONCE_LENGTH {
      return Err(CiphertextTooShort);
    }
    var nonce := combined[..NONCE_LENGTH];
    var text := combined[NONCE_LENGTH..];
    var plaintext := gcm.Decrypt(key, nonce, text);
    if plaintext.None? {
      return Err(NotOpened);
    }
    var parsed := plaintext.value;
    if !Same(parsed.sequence, f.sequence) {
      return Err(SequenceMismatch);
    }
    if !Same(parsed.nonce, f.nonce) {
      return Err(NonceMismatch);
    }
    if parsed.envelope.None? {
      return Err(MissingEnvelope);
    }
    return Ok(parsed.envelope.value);
  }

  /** Decrypting undoes encrypting. */
  lemma OpensAgain(seals: Seals, envelope: string, key: Bytes, sequence: int, nonce: Bytes, text: Bytes)
    requires |nonce| == NONCE_LENGTH
    requires Box(key, nonce, text) in seals && seals[Box(key, nonce, text)] == Inside(envelope, sequence, nonce)
    ensures Opened(seals, SealedFrame(sequence, nonce, text), key) == Ok(envelope)
  {
  }

  /** The header is bound: bytes that came from encrypting open under the header they were sealed
      with and under no other, and never with another key. */
  lemma OpensOnlyUnderItsHeader(seals: Seals, envelope: string, key: Bytes, sequence: int, nonce: Bytes, text: Bytes,
                                f: Frame)
    requires |nonce| == NONCE_LENGTH
    requires Box(key, nonce, text) in seals && seals[Box(key, nonce, text)] == Inside(envelope, sequence, nonce)
    requires f.encrypted && f.ciphertext == Some(nonce + text)
    ensures Opened(seals, f, key).Ok? <==> f == SealedFrame(sequence, nonce, text)
    ensures forall other :: Box(other, nonce, text) !in seals ==> Opened(seals, f, other).Err?
  {
  }

  // ---------------------------------------------------------------------
  // One connection at the gateway
  // ---------------------------------------------------------------------

  datatype Incoming = Oversized | Unparsable | NullMessage | Parsed(frame: Frame)

  datatype Handed = Handed(frame: Frame, envelope: string)

  /** `handed` is every message given to the message handler, `closes` the close codes. */
  datatype Connection = Connection(last: int, handed: seq<Handed>, closes: seq<nat>)

  const Fresh: Connection := Connection(0, [], [])

  function Close(c: Connection, code: nat): Connection {
    c.(closes := c.closes + [code])
  }

  /** One message on an authenticated connection; `throws` says whether its handler throws. A
      closed socket may still deliver what it had already received. */
  function Receive(seals: Seals, key: Bytes, c: Connection, m: Incoming, throws: bool): Connection {
    match m
    case Oversized => Close(c, 1009)
    case Unparsable => c
    case NullMessage => Close(c, 4004)
    case Parsed(f) =>
      if !f.encrypted || f.ciphertext.None? then Close(c, 4010)
      else if !f.sequence.Integer? || f.sequence.n <= c.last then Close(c, 4009)
      else if Opened(seals, f, key).Err? then Close(c, 4004)
      else
        var d := c.(last := f.sequence.n, handed := c.handed + [Handed(f, Opened(seals, f, key).value)]);
        if throws then Close(d, 4004) else d
  }

  class SecureConnection {
    const key: Bytes
    const gcm: Gcm
    var lastReceivedSequence: int
    var handed: seq<Handed>
    var closes: seq<nat>

    constructor (key: Bytes, gcm: Gcm)
      ensures this.key == key && this.gcm == gcm && State() == Fresh
    {
      this.key, this.gcm := key, gcm;
      lastReceivedSequence, handed, closes := 0, [], [];
    }

    ghost function State(): Connection
      reads this
    {
      Connection(lastReceivedSequence, handed, closes)
    }

    method OnMessage(m: Incoming, throws: bool)
      modifies this
      ensures State() == Receive(gcm.seals, key, old(State()), m, throws)
    {
      if m.Oversized? {
        closes := closes + [1009];
      } else if m.Unparsable? {
        return;
      } else if m.NullMessage? {
        closes := closes + [4004];
      } else if m.frame.encrypted && m.frame.ciphertext.Some? {
        if !m.frame.sequence.Integer? || m.frame.sequence.n <= lastReceivedSequence {
          closes := closes + [4009];
          return;
        }
        var decrypted := DecryptFrame(gcm, m.frame, key);
        if decrypted.Err? {
          closes := closes + [4004];
          return;
        }
        lastReceivedSequence := m.frame.sequence.n;
        handed := handed + [Handed(m.frame, decrypted.value)];
        if throws {
          closes := closes + [4004];
        }
      } else {
        closes := closes + [4010];
      }
    }
  }

  /** The phone's counter, which runs on over all its connections. */
  class UcpClient {
    const key: Bytes
    const gcm: Gcm
    var outboundSequence: nat
    var sent: seq<Frame>

    constructor (key: Bytes, gcm: Gcm)
      ensures this.key == key && this.gcm == gcm && outboundSequence == 0 && sent == []
    {
      this.key, this.gcm := key, gcm;
      outboundSequence, sent := 0, [];
    }

    /** `send` on an open socket: a frame that is too large throws and still uses up its number. */
    method Send(envelope: string, nonce: Bytes, text: Bytes, size: nat)
      requires |nonce| == NONCE_LENGTH
      requires Consistent(gcm.seals, Box(key, nonce, text), Inside(envelope, outboundSequence + 1, nonce))
      modifies this, gcm
      ensures forall c :: World(gcm.seals, sent, outboundSequence, c)
                          == Next(key, World(old(gcm.seals), old(sent), old(outboundSequence), c),
                                  Step.Send(envelope, nonce, text, size))
    {
      outboundSequence := outboundSequence + 1;
      var frame := EncryptFrame(gcm, envelope, key, outboundSequence, nonce, text, size);
      if frame.Ok? {
        sent := sent + [frame.value];
      }
    }
  }

  // ---------------------------------------------------------------------
  // Whole runs: the phone, one connection and a network that does anything
  // ---------------------------------------------------------------------

  datatype World = World(seals: Seals, sent: seq<Frame>, outbound: nat, connection: Connection)

  datatype Step =
    | Send(envelope: string, nonce: Bytes, text: Bytes, size: nat)
    | SealElsewhere(box: Box, plaintext: Plaintext)    // the bridge's own frames, other devices
    | Connect                                          // a new connection starts its counters at 0
    | Deliver(m: Incoming, throws: bool)               // any bytes: kept, repeated, reordered, made up

  predicate Possible(key: Bytes, w: World, s: Step) {
    match s
    case Send(envelope, nonce, text, _) =>
      |nonce| == NONCE_LENGTH && Consistent(w.seals, Box(key, nonce, text), Inside(envelope, w.outbound + 1, nonce))
    case SealElsewhere(box, plaintext) => Consistent(w.seals, box, plaintext)
    case Connect => true
    case Deliver(_, _) => true
  }

  function Next(key: Bytes, w: World, s: Step): World {
    match s
    case Send(envelope, nonce, text, size) =>
      var sequence := w.outbound + 1;
      if !Fits(size, sequence) then w.(outbound := sequence)
      else w.(outbound := sequence,
              seals := w.seals[Box(key, nonce, text) := Inside(envelope, sequence, nonce)],
              sent := w.sent + [SealedFrame(sequence, nonce, text)])
    case SealElsewhere(box, plaintext) => w.(seals := w.seals[box := plaintext])
    case Connect => w.(connection := Fresh)
    case Deliver(m, throws) => w.(connection := Receive(w.seals, key, w.connection, m, throws))
  }

  const Start: World := World(map[], [], 0, Fresh)

  function Run(key: Bytes, steps: seq<Step>): World {
    if steps == [] then Start else Next(key, Run(key, Front(steps)), Last(steps))
  }

  predicate AllPossible(key: Bytes, steps: seq<Step>) {
    steps == [] || (AllPossible(key, Front(steps)) && Possible(key, Run(key, Front(steps)), Last(steps)))
  }

  predicate Opens(seals: Seals, key: Bytes, f: Frame) {
    f.encrypted && f.ciphertext.Some? && f.sequence.Integer? && Opened(seals, f, key).Ok?
  }

  /** Handled sequences rise strictly, and every handled envelope opened under its own header. */
  ghost predicate HandedSound(seals: Seals, key: Bytes, c: Connection) {
    && c.last >= 0
    && (forall i :: 0 <= i < |c.handed| ==>
          Opens(seals, key, c.handed[i].frame) && 0 < c.handed[i].frame.sequence.n <= c.last
          && Opened(seals, c.handed[i].frame, key) == Ok(c.handed[i].envelope))
    && (forall i, j :: 0 <= i < j < |c.handed| ==> c.handed[i].frame.sequence.n < c.handed[j].frame.sequence.n)
  }

  /** The phone's frames carry rising sequences and all of them open. */
  ghost predicate SentSound(seals: Seals, key: Bytes, sent: seq<Frame>, outbound: nat) {
    && (forall a :: 0 <= a < |sent| ==>
        Opens(seals, key, sent[a]) && sent[a].nonce.Text? && 0 < sent[a].sequence.n <= outbound)
    && (forall a, b :: 0 <= a < b < |sent| ==> sent[a].sequence.n < sent[b].sequence.n)
  }

  ghost predicate Sound(key: Bytes, w: World) {
    HandedSound(w.seals, key, w.connection) && SentSound(w.seals, key, w.sent, w.outbound)
  }

  /** What opened once opens the same way for good. */
  lemma SealsGrow(seals: Seals, box: Box, p: Plaintext, key: Bytes, c: Connection, sent: seq<Frame>, outbound: nat)
    requires Consistent(seals, box, p)
    requires HandedSound(seals, key, c) && SentSound(seals, key, sent, outbound)
    ensures HandedSound(seals[box := p], key, c) && SentSound(seals[box := p], key, sent, outbound)
  {
  }

  lemma SentSoundGrows(seals: Seals, key: Bytes, sent: seq<Frame>, outbound: nat, envelope: string, nonce: Bytes,
                       text: Bytes)
    requires SentSound(seals, key, sent, outbound) && |nonce| == NONCE_LENGTH
    requires Box(key, nonce, text) in seals && seals[Box(key, nonce, text)] == Inside(envelope, outbound + 1, nonce)
    ensures SentSound(seals, key, sent + [SealedFrame(outbound + 1, nonce, text)], outbound + 1)
  {
  }

  lemma ReceiveSound(seals: Seals, key: Bytes, c: Connection, m: Incoming, throws: bool)
    requires HandedSound(seals, key, c)
    ensures HandedSound(seals, key, Receive(seals, key, c, m, throws))
  {
    hide Opened;
  }

  lemma NextSound(key: Bytes, w: World, s: Step)
    requires Sound(key, w) && Possible(key, w, s)
    ensures Sound(key, Next(key, w, s))
  {
    hide HandedSound, SentSound, Receive;
    match s
    case Send(envelope, nonce, text, size) =>
      if Fits(size, w.outbound + 1) {
        var p := Inside(envelope, w.outbound + 1, nonce);
        SealsGrow(w.seals, Box(key, nonce, text), p, key, w.connection, w.sent, w.outbound);
        SentSoundGrows(w.seals[Box(key, nonce, text) := p], key, w.sent, w.outbound, envelope, nonce, text);
      } else {
        SkippedNumber(w.seals, key, w.sent, w.outbound);
      }
    case SealElsewhere(box, plaintext) => SealsGrow(w.seals, box, plaintext, key, w.connection, w.sent, w.outbound);
    case Connect => FreshSound(w.seals, key);
    case Deliver(m, throws) => ReceiveSound(w.seals, key, w.connection, m, throws);
  }

  lemma SkippedNumber(seals: Seals, key: Bytes, sent: seq<Frame>, outbound: nat)
    requires SentSound(seals, key, sent, outbound)
    ensures SentSound(seals, key, sent, outbound + 1)
  {
  }

  lemma FreshSound(seals: Seals, key: Bytes)
    ensures HandedSound(seals, key, Fresh)
  {
  }

  lemma {:induction false} RunSound(key: Bytes, steps: seq<Step>)
    requires AllPossible(key, steps)
    ensures Sound(key, Run(key, steps))
  {
    hide Next, Possible, Sound;
    if steps == [] {
      StartSound(key);
    } else {
      RunSound(key, Front(steps));
      NextSound(key, Run(key, Front(steps)), Last(steps));
    }
  }

  lemma StartSound(key: Bytes)
    ensures Sound(key, Start)
  {
  }

  /** Whatever is dropped, repeated, reordered or made up: what a connection handles has strictly
      rising sequences, and each envelope was sealed under its key with exactly the sequence and
      the nonce in its frame header. */
  lemma HandledInSequence(key: Bytes, steps: seq<Step>)
    requires AllPossible(key, steps)
    ensures var w := Run(key, steps);
            && (forall i, j :: 0 <= i < j < |w.connection.handed| ==>
                  && w.connection.handed[i].frame.sequence.Integer? && w.connection.handed[j].frame.sequence.Integer?
                  && w.connection.handed[i].frame.sequence.n < w.connection.handed[j].frame.sequence.n)
            && (forall i :: 0 <= i < |w.connection.handed| ==>
                  var h := w.connection.handed[i];
                  && h.frame.ciphertext.Some? && |h.frame.ciphertext.value| >= NONCE_LENGTH
                  && BoxOf(key, h.frame.ciphertext.value) in w.seals
                  && w.seals[BoxOf(key, h.frame.ciphertext.value)]
                      == Plaintext(h.frame.sequence, h.frame.nonce, Some(h.envelope)))
  {
    hide Run;
    RunSound(key, steps);
  }

  /** The phone's envelopes are handled at most once per connection and in the order they were
      sealed, each inside the very frame the phone made. */
  lemma HandledInSealingOrder(key: Bytes, steps: seq<Step>, i: nat, j: nat, a: nat, b: nat)
    requires AllPossible(key, steps)
    requires var w := Run(key, steps);
             && i < |w.connection.handed| && j < |w.connection.handed| && a < |w.sent| && b < |w.sent|
             && w.connection.handed[i].frame.ciphertext == w.sent[a].ciphertext
             && w.connection.handed[j].frame.ciphertext == w.sent[b].ciphertext
    ensures var w := Run(key, steps);
            w.connection.handed[i].frame == w.sent[a] && (i < j <==> a < b)
  {
    hide Run;
    RunSound(key, steps);
    var w := Run(key, steps);
    assert w.connection.handed[i].frame.sequence == w.sent[a].sequence;
    assert w.connection.handed[j].frame.sequence == w.sent[b].sequence;
    assert i < j ==> w.sent[a].sequence.n < w.sent[b].sequence.n;
    assert j < i ==> w.sent[b].sequence.n < w.sent[a].sequence.n;
  }

  function Max(a: int, b: int): int {
    if a >= b then a else b
  }

  /** The highest sequence among all deliveries of this connection that opened under their header,
      handled or not. */
  function Peak(key: Bytes, steps: seq<Step>): int {
    if steps == [] then 0
    else
      match Last(steps)
      case Connect => 0
      case Deliver(Parsed(f), _) =>
        if Opens(Run(key, Front(steps)).seals, key, f) then Max(Peak(key, Front(steps)), f.sequence.n)
        else Peak(key, Front(steps))
      case _ => Peak(key, Front(steps))
  }

  lemma ReceiveRaises(seals: Seals, key: Bytes, c: Connection, m: Incoming, throws: bool)
    ensures Receive(seals, key, c, m, throws).last
         == if m.Parsed? && Opens(seals, key, m.frame) then Max(c.last, m.frame.sequence.n) else c.last
  {
    hide Opened;
  }

  lemma {:induction false} LastIsPeak(key: Bytes, steps: seq<Step>)
    ensures Run(key, steps).connection.last == Peak(key, steps)
  {
    hide Receive, Opens;
    if steps != [] {
      LastIsPeak(key, Front(steps));
      if Last(steps).Deliver? {
        var w := Run(key, Front(steps));
        ReceiveRaises(w.seals, key, w.connection, Last(steps).m, Last(steps).throws);
      }
    }
  }

  /** The close codes that one delivery brings: 1009 for an oversized message, 4010 for JSON that is no
      sealed frame, 4009 for a sequence that is not above the peak, 4004 for one that does not open, for
      `null` and for a handler that throws, and none for text that is no JSON. */
  function CodesFor(seals: Seals, key: Bytes, peak: int, m: Incoming, throws: bool): seq<nat> {
    match m
    case Oversized => [1009]
    case Unparsable => []
    case NullMessage => [4004]
    case Parsed(f) =>
      if !f.encrypted || f.ciphertext == None then [4010]
      else if !f.sequence.Integer? || f.sequence.n <= peak then [4009]
      else if !Opens(seals, key, f) || throws then [4004]
      else []
  }

  /** Exactly which deliveries are handled: those that open and whose sequence is above every sequence
      that opened on this connection before, whether that one was handled or refused. Any other leaves
      the counter, and each brings its close code. */
  lemma HandledIff(key: Bytes, steps: seq<Step>, m: Incoming, throws: bool)
    ensures var w := Run(key, steps);
            var d := Next(key, w, Deliver(m, throws)).connection;
            && d.closes == w.connection.closes + CodesFor(w.seals, key, Peak(key, steps), m, throws)
            && if m.Parsed? && Opens(w.seals, key, m.frame) && m.frame.sequence.n > Peak(key, steps) then
                 && d.handed == w.connection.handed + [Handed(m.frame, Opened(w.seals, m.frame, key).value)]
                 && d.last == m.frame.sequence.n
               else d.handed == w.connection.handed && d.last == w.connection.last
  {
    hide Run, Peak, Opened;
    LastIsPeak(key, steps);
    var w := Run(key, steps);
    assert w.connection.closes + [] == w.connection.closes;
  }

  function CloseCodes(key: Bytes, steps: seq<Step>): seq<nat> {
    if steps == [] then []
    else
      match Last(steps)
      case Connect => []
      case Deliver(m, throws) =>
        CloseCodes(key, Front(steps))
        + CodesFor(Run(key, Front(steps)).seals, key, Peak(key, Front(steps)), m, throws)
      case _ => CloseCodes(key, Front(steps))
  }

  /** So over any run a connection was closed with exactly the codes of its deliveries, in order. */
  lemma {:induction false} ClosedWith(key: Bytes, steps: seq<Step>)
    ensures Run(key, steps).connection.closes == CloseCodes(key, steps)
  {
    hide Receive, Peak, CodesFor, Opened;
    if steps != [] {
      ClosedWith(key, Front(steps));
      if Last(steps).Deliver? {
        HandledIff(key, Front(steps), Last(steps).m, Last(steps).throws);
      }
    }
  }

  /** The counter belongs to the connection and the key does not: a frame of the phone, handled or not
      on earlier connections, is handled now if and only if its sequence is above what opened on this
      one. */
  lemma HandledAgainIff(key: Bytes, steps: seq<Step>, a: nat, throws: bool)
    requires AllPossible(key, steps) && a < |Run(key, steps).sent|
    ensures var w := Run(key, steps);
            var d := Next(key, w, Deliver(Parsed(w.sent[a]), throws)).connection;
            && w.sent[a].sequence.Integer?
            && (|d.handed| == |w.connection.handed| + 1 <==> w.sent[a].sequence.n > Peak(key, steps))
            && (d.handed == w.connection.handed <==> w.sent[a].sequence.n <= Peak(key, steps))
  {
    hide Run, Peak, Opened;
    RunSound(key, steps);
    HandledIff(key, steps, Parsed(Run(key, steps).sent[a]), throws);
  }

  /** Nothing is lost without cause: frames of the phone that arrive in the order they were made,
      with any of them missing, are all handled. */
  lemma {:induction false} InOrderAllHandled(key: Bytes, steps: seq<Step>, picks: seq<nat>)
    requires AllPossible(key, steps)
    requires forall k :: 0 <= k < |picks| ==> picks[k] < |Run(key, steps).sent|
    requires forall k, l :: 0 <= k < l < |picks| ==> picks[k] < picks[l]
    ensures var w := Run(key, steps);
            var d := DeliverAll(w.seals, key, w.sent, picks);
            && |d.handed| == |picks| && d.closes == []
            && (picks == [] ==> d.last == 0)
            && (picks != [] ==> w.sent[Last(picks)].sequence == Integer(d.last))
            && forall k :: 0 <= k < |picks| ==> d.handed[k].frame == w.sent[picks[k]]
  {
    hide Run;
    RunSound(key, steps);
    var w := Run(key, steps);
    if picks != [] {
      InOrderAllHandled(key, steps, Front(picks));
      var d := DeliverAll(w.seals, key, w.sent, Front(picks));
      var f := w.sent[Last(picks)];
      assert Opens(w.seals, key, f) && 0 < f.sequence.n;
      if Front(picks) != [] {
        assert w.sent[Last(Front(picks))].sequence.n < f.sequence.n;
      }
    }
  }

  function DeliverAll(seals: Seals, key: Bytes, sent: seq<Frame>, picks: seq<nat>): Connection
    requires forall k :: 0 <= k < |picks| ==> picks[k] < |sent|
  {
    if picks == [] then Fresh
    else Receive(seals, key, DeliverAll(seals, key, sent, Front(picks)), Parsed(sent[Last(picks)]), false)
  }

  // ---------------------------------------------------------------------
  // What the phone sends, and what a damaged frame gives
  // ---------------------------------------------------------------------

  function Sends(steps: seq<Step>): nat {
    if steps == [] then 0 else Sends(Front(steps)) + (if Last(steps).Send? then 1 else 0)
  }

  /** The frames that the sends make: each numbered by its place among all sends, those that are too large
      included, with the nonce in front of the cipher's output. */
  function SentBy(steps: seq<Step>): seq<Frame> {
    if steps == [] then []
    else
      SentBy(Front(steps))
      + match Last(steps)
        case Send(_, nonce, text, size) =>
          var number := Sends(steps);
          if Fits(size, number) then [Frame(true, Integer(number), Text(nonce), Some(nonce + text))] else []
        case _ => []
  }

  /** Each send takes the next number, over all connections and also when its frame is too large. */
  lemma {:induction false} SentIs(key: Bytes, steps: seq<Step>)
    ensures Run(key, steps).outbound == Sends(steps) && Run(key, steps).sent == SentBy(steps)
  {
    hide Receive, Fits;
    if steps != [] {
      SentIs(key, Front(steps));
      assert SentBy(Front(steps)) + [] == SentBy(Front(steps));
    }
  }

  /** Which check a frame fails, for any bytes and any header. */
  lemma OpeningFailsBy(seals: Seals, f: Frame, key: Bytes)
    requires f.ciphertext.Some?
    ensures var combined, r := f.ciphertext.value, Opened(seals, f, key);
            && (r == Err(CiphertextTooShort) <==> |combined| < 12)
            && (|combined| >= 12 ==>
                  var box := Box(key, combined[..12], combined[12..]);
                  && (r == Err(NotOpened) <==> box !in seals)
                  && (box in seals ==>
                        var inside := seals[box];
                        var sameSequence := inside.sequence == f.sequence && inside.sequence != Structure;
                        var sameNonce := inside.nonce == f.nonce && inside.nonce != Structure;
                        && (r == Err(SequenceMismatch) <==> !sameSequence)
                        && (r == Err(NonceMismatch) <==> sameSequence && !sameNonce)
                        && (r == Err(MissingEnvelope) <==> sameSequence && sameNonce && inside.envelope == None)
                        && (r.Ok? <==> sameSequence && sameNonce && inside.envelope.Some?)
                        && (r.Ok? ==> inside.envelope == Some(r.value))))
            && r != Err(FrameTooLarge)
  {
  }
}
