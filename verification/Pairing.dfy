/** Pairing sessions, paired devices and their audit trail. */
module Pairing {
  import opened Common

  /** The columns of `pairing_sessions` other than the nonce, which is the primary key. */
  datatype Session = Session(code: string, hostKey: string, createdAt: int, expiresAt: int, usedAt: Option<int>)

  datatype Status = Active | Revoked

  /** The columns of `devices` other than the public key, which is unique. */
  datatype Device = Device(id: string, name: string, status: Status, pairedAt: int, lastSeenAt: int,
                           revokedAt: Option<int>)

  datatype Audit = PairingCompleted(deviceId: string, deviceName: string) | PairingRevoked(deviceId: string)

  datatype Store = Store(sessions: map<string, Session>, devices: map<string, Device>, audit: seq<Audit>)

  datatype Grant = Grant(deviceId: string, deviceKey: string, deviceName: string, pairedAt: int)

  datatype Error = InvalidNonce | NonceUsed | SessionExpired | DeviceIsRevoked | ConstraintFailed

  datatype Result<+T> = Ok(value: T) | Err(error: Error)

  const LIFETIME := 5 * 60 * 1000
  const MIN_CODE := 1000
  const CODES := 9000

  const Empty: Store := Store(map[], map[], [])

  // ---------------------------------------------------------------------
  // Codes
  // ---------------------------------------------------------------------

  predicate FourDigits(code: string) {
    |code| == 4 && forall i :: 0 <= i < 4 ==> '0' <= code[i] <= '9'
  }

  function Digit(n: nat): char
    requires n < 10
  {
    '0' + n as char
  }

  /** `String(randomInt(1000, 10000))` for the number drawn. */
  function CodeText(n: nat): (code: string)
    requires MIN_CODE <= n < MIN_CODE + CODES
    ensures FourDigits(code) && CodeNumber(code) == n
  {
    var tens := n / 10;
    var hundreds := tens / 10;
    [Digit(hundreds / 10), Digit(hundreds % 10), Digit(tens % 10), Digit(n % 10)]
  }

  function CodeNumber(code: string): int
    requires |code| == 4
  {
    (code[0] as int - 48) * 1000 + (code[1] as int - 48) * 100 + (code[2] as int - 48) * 10 + (code[3] as int - 48)
  }

  // ---------------------------------------------------------------------
  // The operations as functions of the tables
  // ---------------------------------------------------------------------

  /** The partial unique index: a code may stand in one unused row only, expired or not. */
  predicate CodeTaken(s: Store, code: string) {
    exists n :: n in s.sessions && s.sessions[n].code == code && s.sessions[n].usedAt.None?
  }

  function Created(s: Store, hostKey: string, nonce: string, code: string, createdAt: int, now: int): Result<Store> {
    if nonce in s.sessions || CodeTaken(s, code) then Err(ConstraintFailed)
    else Ok(s.(sessions := s.sessions[nonce := Session(code, hostKey, createdAt, now + LIFETIME, None)]))
  }

  predicate Validates(s: Store, code: string, nonce: string, now: int) {
    && FourDigits(code)
    && nonce in s.sessions
    && s.sessions[nonce].code == code && s.sessions[nonce].usedAt.None? && s.sessions[nonce].expiresAt >= now
  }

  predicate IdTaken(devices: map<string, Device>, id: string) {
    exists k :: k in devices && devices[k].id == id
  }

  /** UPDATE devices ... WHERE id = ? */
  function UpdatedWhere(devices: map<string, Device>, id: string, row: Device): map<string, Device> {
    map k | k in devices :: if devices[k].id == id then row else devices[k]
  }

  /** The first check of `completePairing` that fails. The clock is read for the expiry check and
      again for the rows written. */
  function Refusal(s: Store, key: string, nonce: string, checkedAt: int): Option<Error> {
    if nonce !in s.sessions then Some(InvalidNonce)
    else if s.sessions[nonce].usedAt.Some? then Some(NonceUsed)
    else if s.sessions[nonce].expiresAt < checkedAt then Some(SessionExpired)
    else if key in s.devices && s.devices[key].status == Revoked then Some(DeviceIsRevoked)
    else None
  }

  function Completed(s: Store, key: string, name: string, nonce: string, uuid: string, checkedAt: int,
                     now: int): Result<(Store, Grant)> {
    if Refusal(s, key, nonce, checkedAt).Some? then Err(Refusal(s, key, nonce, checkedAt).value)
    else if key !in s.devices && IdTaken(s.devices, uuid) then Err(ConstraintFailed)
    else
      var pairedAt := if key in s.devices then s.devices[key].pairedAt else now;
      var id := if key in s.devices then s.devices[key].id else uuid;
      var row := Device(id, name, Active, pairedAt, now, None);
      var devices := if key in s.devices then UpdatedWhere(s.devices, id, row) else s.devices[key := row];
      Ok((Store(s.sessions[nonce := s.sessions[nonce].(usedAt := Some(now))], devices,
                s.audit + [PairingCompleted(id, name)]),
          Grant(id, key, name, pairedAt)))
  }

  function Validated(s: Store, key: string, now: int): (Store, Option<Grant>) {
    if key !in s.devices || s.devices[key].status != Active then (s, None)
    else
      var d := s.devices[key];
      (s.(devices := UpdatedWhere(s.devices, d.id, d.(lastSeenAt := now))), Some(Grant(d.id, key, d.name, d.pairedAt)))
  }

  function Revocation(s: Store, key: string, now: int): (Store, bool) {
    if key !in s.devices || s.devices[key].status == Revoked then (s, false)
    else
      (s.(devices := s.devices[key := s.devices[key].(status := Revoked, revokedAt := Some(now))],
         audit := s.audit + [PairingRevoked(s.devices[key].id)]), true)
  }

  predicate IsRevoked(s: Store, key: string) {
    key in s.devices && s.devices[key].status == Revoked
  }

  /** The bridge's store. Nonces, codes, ids and clock readings are given. */
  class BridgePairingStore {
    var sessions: map<string, Session>
    var devices: map<string, Device>
    var audit: seq<Audit>

    constructor ()
      ensures State() == Empty
    {
      sessions, devices, audit := map[], map[], [];
    }

    ghost function State(): Store
      reads this
    {
      Store(sessions, devices, audit)
    }

    method CreatePairingSession(hostKey: string, nonce: string, draw: nat, createdAt: int, now: int)
      returns (r: Result<Session>)
      requires MIN_CODE <= draw < MIN_CODE + CODES
      modifies this
      ensures var after := Created(old(State()), hostKey, nonce, CodeText(draw), createdAt, now);
              && State() == (if after.Ok? then after.value else old(State()))
              && (r.Ok? <==> after.Ok?)
              && (r.Ok? ==> nonce in sessions && r.value == sessions[nonce])
    {
      var session := Session(CodeText(draw), hostKey, createdAt, now + LIFETIME, None);
      var taken := exists n :: n in sessions && sessions[n].code == session.code && sessions[n].usedAt.None?;
      if nonce in sessions || taken {
        return Err(ConstraintFailed);
      }
      sessions := sessions[nonce := session];
      return Ok(session);
    }

    method ValidatePairingCode(code: string, nonce: string, now: int) returns (valid: bool)
      ensures valid <==> Validates(State(), code, nonce, now)
    {
      if !FourDigits(code) {
        return false;
      }
      if nonce !in sessions {
        return false;
      }
      var row := sessions[nonce];
      return row.code == code && row.usedAt.None? && row.expiresAt >= now;
    }

    /** The row the query finds, whichever that is. */
    method ResolvePairingCode(code: string, now: int) returns (nonce: Option<string>)
      ensures Resolves(State(), code, now, nonce)
    {
      if !FourDigits(code) {
        return None;
      }
      if n :| n in sessions && sessions[n].code == code && sessions[n].usedAt.None? && sessions[n].expiresAt >= now {
        return Some(n);
      }
      return None;
    }

    method CompletePairing(key: string, name: string, nonce: string, uuid: string, checkedAt: int, now: int)
      returns (r: Result<Grant>)
      modifies this
      ensures var after := Completed(old(State()), key, name, nonce, uuid, checkedAt, now);
              && State() == (if after.Ok? then after.value.0 else old(State()))
              && r == if after.Ok? then Ok(after.value.1) else Err(after.error)
    {
      if nonce !in sessions {
        return Err(InvalidNonce);
      }
      var session := sessions[nonce];
      if session.usedAt.Some? {
        return Err(NonceUsed);
      }
      if session.expiresAt < checkedAt {
        return Err(SessionExpired);
      }
      var existing := if key in devices then Some(devices[key]) else None;
      if existing.Some? && existing.value.status == Revoked {
        return Err(DeviceIsRevoked);
      }
      var pairedAt := if existing.Some? then existing.value.pairedAt else now;
      var deviceId := if existing.Some? then existing.value.id else uuid;
      var row := Device(deviceId, name, Active, pairedAt, now, None);
      if existing.Some? {
        devices := UpdatedWhere(devices, deviceId, row);
      } else if IdTaken(devices, uuid) {
        return Err(ConstraintFailed);
      } else {
        devices := devices[key := row];
      }
      sessions := sessions[nonce := session.(usedAt := Some(now))];
      audit := audit + [PairingCompleted(deviceId, name)];
      return Ok(Grant(deviceId, key, name, pairedAt));
    }

    method ValidateDevice(key: string, now: int) returns (grant: Option<Grant>)
      modifies this
      ensures (State(), grant) == Validated(old(State()), key, now)
    {
      if key !in devices || devices[key].status != Active {
        return None;
      }
      var row := devices[key];
      devices := UpdatedWhere(devices, row.id, row.(lastSeenAt := now));
      return Some(Grant(row.id, key, row.name, row.pairedAt));
    }

    method RevokeDevice(key: string, now: int) returns (changed: bool)
      modifies this
      ensures (State(), changed) == Revocation(old(State()), key, now)
    {
      if key !in devices || devices[key].status == Revoked {
        return false;
      }
      devices := devices[key := devices[key].(status := Revoked, revokedAt := Some(now))];
      audit := audit + [PairingRevoked(devices[key].id)];
      return true;
    }

    method IsDeviceRevoked(key: string) returns (revoked: bool)
      ensures revoked <==> IsRevoked(State(), key)
    {
      revoked := key in devices && devices[key].status == Revoked;
    }
  }

  // ---------------------------------------------------------------------
  // Runs
  // ---------------------------------------------------------------------

  datatype Step =
    | Create(hostKey: string, nonce: string, draw: nat, createdAt: int, now: int)
    | Complete(key: string, name: string, nonce: string, uuid: string, checkedAt: int, now: int)
    | ValidateDevice(key: string, now: int)
    | RevokeDevice(key: string, now: int)

  predicate Possible(step: Step) {
    step.Create? ==> MIN_CODE <= step.draw < MIN_CODE + CODES
  }

  function Next(s: Store, step: Step): Store
    requires Possible(step)
  {
    match step
    case Create(hostKey, nonce, draw, createdAt, now) =>
      var after := Created(s, hostKey, nonce, CodeText(draw), createdAt, now);
      if after.Ok? then after.value else s
    case Complete(key, name, nonce, uuid, checkedAt, now) =>
      var after := Completed(s, key, name, nonce, uuid, checkedAt, now);
      if after.Ok? then after.value.0 else s
    case ValidateDevice(key, now) => Validated(s, key, now).0
    case RevokeDevice(key, now) => Revocation(s, key, now).0
  }

  function Run(s: Store, steps: seq<Step>): Store
    requires forall i :: 0 <= i < |steps| ==> Possible(steps[i])
  {
    if steps == [] then s else Next(Run(s, Front(steps)), Last(steps))
  }

  ghost predicate UniqueIds(devices: map<string, Device>) {
    forall a, b :: a in devices && b in devices && devices[a].id == devices[b].id ==> a == b
  }

  ghost predicate UniqueCodes(sessions: map<string, Session>) {
    forall a, b :: a in Unused(sessions) && b in Unused(sessions) && sessions[a].code == sessions[b].code ==> a == b
  }

  ghost predicate CodesDrawn(sessions: map<string, Session>) {
    forall n :: n in sessions ==>
        FourDigits(sessions[n].code) && MIN_CODE <= CodeNumber(sessions[n].code) < MIN_CODE + CODES
  }

  function Unused(sessions: map<string, Session>): set<string> {
    set n | n in sessions && sessions[n].usedAt.None?
  }

  function Used(sessions: map<string, Session>): set<string> {
    set n | n in sessions && sessions[n].usedAt.Some?
  }

  function RevokedKeys(devices: map<string, Device>): set<string> {
    set k | k in devices && devices[k].status == Revoked
  }

  function CountCompleted(audit: seq<Audit>): nat {
    if audit == [] then 0 else CountCompleted(Front(audit)) + (if Last(audit).PairingCompleted? then 1 else 0)
  }

  function CountRevoked(audit: seq<Audit>): nat {
    if audit == [] then 0 else CountRevoked(Front(audit)) + (if Last(audit).PairingRevoked? then 1 else 0)
  }

  ghost predicate Sound(s: Store) {
    && UniqueIds(s.devices) && UniqueCodes(s.sessions) && CodesDrawn(s.sessions)
    && CountCompleted(s.audit) == |Used(s.sessions)|
    && CountRevoked(s.audit) == |RevokedKeys(s.devices)|
  }

  /** With unique ids the UPDATE touches the one row. */
  lemma UpdatedOne(devices: map<string, Device>, key: string, row: Device)
    requires UniqueIds(devices) && key in devices && row.id == devices[key].id
    ensures UpdatedWhere(devices, row.id, row) == devices[key := row]
    ensures UniqueIds(devices[key := row])
  {
  }

  lemma SameRevoked(devices: map<string, Device>, key: string, row: Device)
    requires row.status == Active && (key in devices ==> devices[key].status == Active)
    ensures RevokedKeys(devices[key := row]) == RevokedKeys(devices)
  {
  }

  /** A completed pairing in one line per table. */
  lemma CompletedShape(s: Store, key: string, name: string, nonce: string, uuid: string, checkedAt: int, now: int)
    requires UniqueIds(s.devices) && Completed(s, key, name, nonce, uuid, checkedAt, now).Ok?
    ensures var t := Completed(s, key, name, nonce, uuid, checkedAt, now).value.0;
            var id := if key in s.devices then s.devices[key].id else uuid;
            var pairedAt := if key in s.devices then s.devices[key].pairedAt else now;
            && nonce in s.sessions && s.sessions[nonce].usedAt.None? && s.sessions[nonce].expiresAt >= checkedAt
            && (key in s.devices ==> s.devices[key].status == Active)
            && t.sessions == s.sessions[nonce := s.sessions[nonce].(usedAt := Some(now))]
            && t.devices == s.devices[key := Device(id, name, Active, pairedAt, now, None)]
            && t.audit == s.audit + [PairingCompleted(id, name)]
            && UniqueIds(t.devices)
  {
  }

  lemma SessionUsed(sessions: map<string, Session>, nonce: string, now: int)
    requires UniqueCodes(sessions) && CodesDrawn(sessions) && nonce in sessions && sessions[nonce].usedAt.None?
    ensures var t := sessions[nonce := sessions[nonce].(usedAt := Some(now))];
            UniqueCodes(t) && CodesDrawn(t) && |Used(t)| == |Used(sessions)| + 1
  {
    var t := sessions[nonce := sessions[nonce].(usedAt := Some(now))];
    assert Used(t) == Used(sessions) + {nonce};
    assert Unused(t) == Unused(sessions) - {nonce};
  }

  lemma CompleteSound(s: Store, key: string, name: string, nonce: string, uuid: string, checkedAt: int, now: int)
    requires Sound(s) && Completed(s, key, name, nonce, uuid, checkedAt, now).Ok?
    ensures Sound(Completed(s, key, name, nonce, uuid, checkedAt, now).value.0)
  {
    var t := Completed(s, key, name, nonce, uuid, checkedAt, now).value.0;
    CompletedShape(s, key, name, nonce, uuid, checkedAt, now);
    hide Completed, UniqueIds, UniqueCodes, CodesDrawn, Used, RevokedKeys;
    assert Front(t.audit) == s.audit;
    SessionUsed(s.sessions, nonce, now);
    SameRevoked(s.devices, key, t.devices[key]);
  }

  lemma CreateSound(s: Store, hostKey: string, nonce: string, draw: nat, createdAt: int, now: int)
    requires Sound(s) && MIN_CODE <= draw < MIN_CODE + CODES
    requires Created(s, hostKey, nonce, CodeText(draw), createdAt, now).Ok?
    ensures Sound(Created(s, hostKey, nonce, CodeText(draw), createdAt, now).value)
  {
    var t := Created(s, hostKey, nonce, CodeText(draw), createdAt, now).value;
    assert Used(t.sessions) == Used(s.sessions);
    hide FourDigits, CodeText, CodeNumber;
  }

  lemma RevokeSound(s: Store, key: string, now: int)
    requires Sound(s)
    ensures Sound(Revocation(s, key, now).0)
  {
    hide UniqueCodes, CodesDrawn, Used;
    var t := Revocation(s, key, now).0;
    if t != s {
      assert Front(t.audit) == s.audit;
      assert RevokedKeys(t.devices) == RevokedKeys(s.devices) + {key};
    }
  }

  lemma ValidateSound(s: Store, key: string, now: int)
    requires Sound(s)
    ensures Sound(Validated(s, key, now).0)
  {
    if key in s.devices && s.devices[key].status == Active {
      var row := s.devices[key].(lastSeenAt := now);
      UpdatedOne(s.devices, key, row);
      SameRevoked(s.devices, key, row);
    }
  }

  lemma NextSound(s: Store, step: Step)
    requires Sound(s) && Possible(step)
    ensures Sound(Next(s, step))
  {
    hide Sound, Created, Completed, Validated, Revocation;
    match step
    case Create(hostKey, nonce, draw, createdAt, now) =>
      if Created(s, hostKey, nonce, CodeText(draw), createdAt, now).Ok? {
        CreateSound(s, hostKey, nonce, draw, createdAt, now);
      }
    case Complete(key, name, nonce, uuid, checkedAt, now) =>
      if Completed(s, key, name, nonce, uuid, checkedAt, now).Ok? {
        CompleteSound(s, key, name, nonce, uuid, checkedAt, now);
      }
    case ValidateDevice(key, now) => ValidateSound(s, key, now);
    case RevokeDevice(key, now) => RevokeSound(s, key, now);
  }

  lemma EmptySound()
    ensures Sound(Empty)
  {
  }

  /** In every reachable state: ids and active codes are unique, and the audit trail counts one
      completion per used session and one revocation per revoked device. */
  lemma {:induction false} EveryRunSound(steps: seq<Step>)
    requires forall i :: 0 <= i < |steps| ==> Possible(steps[i])
    ensures Sound(Run(Empty, steps))
  {
    hide Next, Sound;
    if steps == [] {
      EmptySound();
    } else {
      EveryRunSound(Front(steps));
      NextSound(Run(Empty, Front(steps)), Last(steps));
    }
  }

  // ---------------------------------------------------------------------
  // What never changes
  // ---------------------------------------------------------------------

  /** A device keeps its key, id and pairing time, and a revoked one keeps its whole row. */
  predicate DeviceLives(before: Device, after: Device) {
    after.id == before.id && after.pairedAt == before.pairedAt && (before.status == Revoked ==> after == before)
  }

  /** A session keeps everything but `used_at`, and that once set. */
  predicate SessionLives(before: Session, after: Session) {
    after.(usedAt := before.usedAt) == before && (before.usedAt.Some? ==> after == before)
  }

  ghost predicate Lives(s: Store, t: Store) {
    && (forall k :: k in s.devices ==> k in t.devices && DeviceLives(s.devices[k], t.devices[k]))
    && (forall n :: n in s.sessions ==> n in t.sessions && SessionLives(s.sessions[n], t.sessions[n]))
    && s.audit <= t.audit
  }

  lemma CompleteLives(s: Store, key: string, name: string, nonce: string, uuid: string, checkedAt: int, now: int)
    requires UniqueIds(s.devices) && Completed(s, key, name, nonce, uuid, checkedAt, now).Ok?
    ensures Lives(s, Completed(s, key, name, nonce, uuid, checkedAt, now).value.0)
  {
  }

  lemma ValidateLives(s: Store, key: string, now: int)
    requires UniqueIds(s.devices)
    ensures Lives(s, Validated(s, key, now).0)
  {
  }

  lemma NextLives(s: Store, step: Step)
    requires Sound(s) && Possible(step)
    ensures Lives(s, Next(s, step))
  {
    hide CodeText, Completed, Validated, UniqueIds, UniqueCodes, CodesDrawn;
    match step
    case Create(hostKey, nonce, draw, createdAt, now) =>
    case Complete(key, name, nonce, uuid, checkedAt, now) =>
      if Completed(s, key, name, nonce, uuid, checkedAt, now).Ok? {
        CompleteLives(s, key, name, nonce, uuid, checkedAt, now);
      }
    case ValidateDevice(key, now) => ValidateLives(s, key, now);
    case RevokeDevice(key, now) =>
  }

  /** Over any further run a revoked key stays revoked, no key changes its device id or pairing
      time, a used nonce stays used, and the audit trail only grows. */
  lemma {:induction false} LivesForGood(s: Store, steps: seq<Step>)
    requires Sound(s) && forall i :: 0 <= i < |steps| ==> Possible(steps[i])
    ensures Sound(Run(s, steps)) && Lives(s, Run(s, steps))
  {
    hide Next, Sound, Lives;
    if steps == [] {
      LivesReflexive(s);
    } else {
      LivesForGood(s, Front(steps));
      NextSound(Run(s, Front(steps)), Last(steps));
      NextLives(Run(s, Front(steps)), Last(steps));
      LivesTransitive(s, Run(s, Front(steps)), Run(s, steps));
    }
  }

  lemma LivesReflexive(s: Store)
    ensures Lives(s, s)
  {
  }

  lemma LivesTransitive(a: Store, b: Store, c: Store)
    requires Lives(a, b) && Lives(b, c)
    ensures Lives(a, c)
  {
  }

  /** The pairings completed with a nonce in a run, in order. */
  function Completions(s: Store, steps: seq<Step>, nonce: string): seq<Step>
    requires forall i :: 0 <= i < |steps| ==> Possible(steps[i])
  {
    if steps == [] then []
    else
      var step := Last(steps);
      Completions(s, Front(steps), nonce)
      + if step.Complete? && step.nonce == nonce
           && Completed(Run(s, Front(steps)), step.key, step.name, nonce, step.uuid, step.checkedAt, step.now).Ok?
        then [step] else []
  }

  /** A nonce is consumed at most once over a whole run, exactly when its session ends up used, and
      only by a pairing that found it unexpired. */
  lemma {:induction false} NonceConsumedOnce(steps: seq<Step>, nonce: string)
    requires forall i :: 0 <= i < |steps| ==> Possible(steps[i])
    ensures var w := Run(Empty, steps);
            var done := Completions(Empty, steps, nonce);
            && (nonce in w.sessions && w.sessions[nonce].usedAt.Some? <==> |done| == 1)
            && (!(nonce in w.sessions && w.sessions[nonce].usedAt.Some?) <==> done == [])
            && (done != [] ==> done[0].Complete? && w.sessions[nonce].usedAt == Some(done[0].now)
                                && w.sessions[nonce].expiresAt >= done[0].checkedAt)
  {
    hide Completed, Created, Validated, Revocation, CodeText;
    if steps != [] {
      NonceConsumedOnce(Front(steps), nonce);
      EveryRunSound(Front(steps));
      OneStepConsumes(Run(Empty, Front(steps)), Last(steps), nonce);
    }
  }

  /** A step leaves a session's use as it was unless it is a pairing completed with its nonce. */
  lemma OneStepConsumes(s: Store, step: Step, nonce: string)
    requires Sound(s) && Possible(step)
    ensures var t := Next(s, step);
            if step.Complete? && step.nonce == nonce
               && Completed(s, step.key, step.name, nonce, step.uuid, step.checkedAt, step.now).Ok?
            then nonce in s.sessions && s.sessions[nonce].usedAt.None? && s.sessions[nonce].expiresAt >= step.checkedAt
                 && t.sessions == s.sessions[nonce := s.sessions[nonce].(usedAt := Some(step.now))]
            else if nonce in s.sessions then nonce in t.sessions && t.sessions[nonce] == s.sessions[nonce]
            else nonce in t.sessions ==> t.sessions[nonce].usedAt.None?
  {
    hide CodeText, Completed, CountCompleted, CountRevoked, Used, RevokedKeys, UpdatedWhere;
    if step.Complete? {
      if Completed(s, step.key, step.name, step.nonce, step.uuid, step.checkedAt, step.now).Ok? {
        CompletedShape(s, step.key, step.name, step.nonce, step.uuid, step.checkedAt, step.now);
      }
    }
  }

  // ---------------------------------------------------------------------
  // Codes in use
  // ---------------------------------------------------------------------

  /** What a query for a code may answer: some live row with the code, none only if there is none. */
  ghost predicate Resolves(s: Store, code: string, now: int, nonce: Option<string>) {
    match nonce
    case Some(n) => Validates(s, code, n, now)
    case None => forall n :: !Validates(s, code, n, now)
  }

  /** In a reachable state the query has one possible answer, and it is n exactly when the pair
      (code, n) validates. */
  lemma ResolvesIffValidates(s: Store, code: string, now: int, answer: Option<string>, n: string)
    requires Sound(s) && Resolves(s, code, now, answer)
    ensures answer == Some(n) <==> Validates(s, code, n, now)
  {
  }

  /** By pigeonhole: at most 9000 sessions are unused at any time. */
  lemma AtMost9000Unused(steps: seq<Step>)
    requires forall i :: 0 <= i < |steps| ==> Possible(steps[i])
    ensures |Unused(Run(Empty, steps).sessions)| <= 9000
  {
    var sessions := Run(Empty, steps).sessions;
    EveryRunSound(steps);
    Pigeons(sessions, Unused(sessions), CODES);
  }

  /** Distinct unused sessions have distinct numbers, so few numbers mean few sessions. */
  lemma {:induction false} Pigeons(sessions: map<string, Session>, some: set<string>, room: nat)
    requires UniqueCodes(sessions) && CodesDrawn(sessions) && some <= Unused(sessions)
    requires forall n :: n in some ==> CodeNumber(sessions[n].code) < MIN_CODE + room
    ensures |some| <= room
  {
    if room == 0 {
      assert some == {} by {
        if n :| n in some { assert false; }
      }
    } else if n :| n in some && CodeNumber(sessions[n].code) == MIN_CODE + room - 1 {
      forall m | m in some - {n} ensures CodeNumber(sessions[m].code) < MIN_CODE + room - 1 {
        if CodeNumber(sessions[m].code) == MIN_CODE + room - 1 {
          SameNumberSameCode(sessions[m].code, sessions[n].code);
        }
      }
      Pigeons(sessions, some - {n}, room - 1);
    } else {
      Pigeons(sessions, some, room - 1);
    }
  }

  lemma SameNumberSameCode(a: string, b: string)
    requires FourDigits(a) && FourDigits(b) && CodeNumber(a) == CodeNumber(b)
    ensures a == b
  {
    SameDigits(a[0] as int - 48, a[1] as int - 48, a[2] as int - 48, a[3] as int - 48,
               b[0] as int - 48, b[1] as int - 48, b[2] as int - 48, b[3] as int - 48);
  }

  lemma SameDigits(a: int, b: int, c: int, d: int, a': int, b': int, c': int, d': int)
    requires 0 <= a < 10 && 0 <= b < 10 && 0 <= c < 10 && 0 <= d < 10
    requires 0 <= a' < 10 && 0 <= b' < 10 && 0 <= c' < 10 && 0 <= d' < 10
    requires a * 1000 + b * 100 + c * 10 + d == a' * 1000 + b' * 100 + c' * 10 + d'
    ensures a == a' && b == b' && c == c' && d == d'
  {
  }

  /** A code is free exactly when no unused session holds it; expiry does not free it. So a session
      that expired unused blocks its code for as long as the tables live. */
  lemma {:induction false} ExpiredCodeIsLost(s: Store, steps: seq<Step>, n: string, since: int)
    requires Sound(s) && n in s.sessions && s.sessions[n].usedAt.None? && s.sessions[n].expiresAt < since
    requires forall i :: 0 <= i < |steps| ==> Possible(steps[i]) && (steps[i].Complete? ==> steps[i].checkedAt >= since)
    ensures var t := Run(s, steps);
            && Sound(t) && n in t.sessions && t.sessions[n] == s.sessions[n]
            && forall hostKey, nonce, createdAt, now ::
                 Created(t, hostKey, nonce, s.sessions[n].code, createdAt, now) == Err(ConstraintFailed)
  {
    hide Sound, Next, Completed;
    if steps != [] {
      ExpiredCodeIsLost(s, Front(steps), n, since);
      NextSound(Run(s, Front(steps)), Last(steps));
      OneStepConsumes(Run(s, Front(steps)), Last(steps), n);
    }
  }

  // ---------------------------------------------------------------------
  // What the tables hold, told from the steps
  // ---------------------------------------------------------------------

  /** This step stores a session under the nonce: the nonce is new and no unused session has the code. */
  predicate Issues(s: Store, step: Step, nonce: string)
    requires Possible(step)
  {
    && step.Create? && step.nonce == nonce && nonce !in s.sessions
    && forall n :: n in s.sessions && s.sessions[n].code == CodeText(step.draw) ==> s.sessions[n].usedAt.Some?
  }

  /** This step pairs the key: the session is there, unused and unexpired, the key is not revoked, and a
      new device gets an id that no other has. */
  predicate Pairs(s: Store, step: Step, key: string) {
    && step.Complete? && step.key == key
    && step.nonce in s.sessions && s.sessions[step.nonce].usedAt == None
    && s.sessions[step.nonce].expiresAt >= step.checkedAt
    && (if key in s.devices then s.devices[key].status == Active
        else forall other :: other in s.devices ==> s.devices[other].id != step.uuid)
  }

  predicate Sees(s: Store, step: Step, key: string) {
    step.ValidateDevice? && step.key == key && key in s.devices && s.devices[key].status == Active
  }

  predicate Revokes(s: Store, step: Step, key: string) {
    step.RevokeDevice? && step.key == key && key in s.devices && s.devices[key].status == Active
  }

  /** The step that stored the session. */
  function IssuedBy(steps: seq<Step>, nonce: string): Option<Step>
    requires forall i :: 0 <= i < |steps| ==> Possible(steps[i])
  {
    if steps == [] then None
    else if Issues(Run(Empty, Front(steps)), Last(steps), nonce) then Some(Last(steps))
    else IssuedBy(Front(steps), nonce)
  }

  ghost predicate SessionIs(s: Store, nonce: string, step: Option<Step>) {
    && (nonce in s.sessions <==> step.Some?)
    && (nonce in s.sessions ==>
          var row := s.sessions[nonce];
          && step.value.Create? && CodeOf(row.code, step.value.draw)
          && row.hostKey == step.value.hostKey && row.createdAt == step.value.createdAt
          && row.expiresAt == step.value.now + 300_000)
  }

  lemma SessionStep(s: Store, step: Step, nonce: string, issued: Option<Step>)
    requires Possible(step) && SessionIs(s, nonce, issued)
    ensures SessionIs(Next(s, step), nonce, if Issues(s, step, nonce) then Some(step) else issued)
  {
    hide CodeText, CodeNumber, FourDigits, CodeOf, UpdatedWhere;
    if step.Create? {
      DrawnNumber(step.draw);
    }
  }

  lemma DrawnNumber(draw: nat)
    requires MIN_CODE <= draw < MIN_CODE + CODES
    ensures CodeOf(CodeText(draw), draw)
  {
  }

  /** The decimal digits of a number from 1000 to 9999. */
  predicate CodeOf(code: string, draw: int) {
    && |code| == 4 && 1000 <= draw <= 9999
    && (forall i :: 0 <= i < 4 ==> '0' <= code[i] <= '9')
    && code[0] as int - '0' as int == draw / 1000 && code[1] as int - '0' as int == draw / 100 % 10
    && code[2] as int - '0' as int == draw / 10 % 10 && code[3] as int - '0' as int == draw % 10
  }

  /** A nonce has a session if and only if some step stored it; the row holds what that step was given,
      with a drawn code from 1000 to 9999, and lives for 300000 milliseconds. */
  lemma {:induction false} SessionIsAsIssued(steps: seq<Step>, nonce: string)
    requires forall i :: 0 <= i < |steps| ==> Possible(steps[i])
    ensures SessionIs(Run(Empty, steps), nonce, IssuedBy(steps, nonce))
  {
    hide Next, SessionIs, Issues;
    if steps == [] {
      NoSession(nonce);
    } else {
      SessionIsAsIssued(Front(steps), nonce);
      SessionStep(Run(Empty, Front(steps)), Last(steps), nonce, IssuedBy(Front(steps), nonce));
    }
  }

  lemma NoSession(nonce: string)
    ensures SessionIs(Empty, nonce, None)
  {
  }

  /** The device that the steps make of a key: id and pairing time are those of its first pairing, the
      name that of the last one, the last-seen time that of the last pairing or validation. */
  function DeviceOf(steps: seq<Step>, key: string): Option<Device>
    requires forall i :: 0 <= i < |steps| ==> Possible(steps[i])
  {
    if steps == [] then None
    else
      var s, step, was := Run(Empty, Front(steps)), Last(steps), DeviceOf(Front(steps), key);
      if Pairs(s, step, key) then
        Some(if was.None? then Device(step.uuid, step.name, Active, step.now, step.now, None)
             else Device(was.value.id, step.name, Active, was.value.pairedAt, step.now, None))
      else if was.Some? && Sees(s, step, key) then Some(was.value.(lastSeenAt := step.now))
      else if was.Some? && Revokes(s, step, key) then
        Some(was.value.(status := Revoked, revokedAt := Some(step.now)))
      else was
  }

  function RowOf(s: Store, key: string): Option<Device> {
    if key in s.devices then Some(s.devices[key]) else None
  }

  lemma DeviceStep(s: Store, step: Step, key: string)
    requires Sound(s) && Possible(step)
    ensures var was, t := RowOf(s, key), Next(s, step);
            RowOf(t, key)
            == if Pairs(s, step, key) then
                 Some(if was.None? then Device(step.uuid, step.name, Active, step.now, step.now, None)
                      else Device(was.value.id, step.name, Active, was.value.pairedAt, step.now, None))
               else if was.Some? && Sees(s, step, key) then Some(was.value.(lastSeenAt := step.now))
               else if was.Some? && Revokes(s, step, key) then
                 Some(was.value.(status := Revoked, revokedAt := Some(step.now)))
               else was
  {
    hide CodeText, UniqueCodes, CodesDrawn, CountCompleted, CountRevoked, Used, RevokedKeys;
    match step
    case Complete(k, name, nonce, uuid, checkedAt, now) =>
      if Completed(s, k, name, nonce, uuid, checkedAt, now).Ok? {
        CompletedShape(s, k, name, nonce, uuid, checkedAt, now);
        hide Completed, UniqueIds;
      }
      PairsIff(s, step, key);
    case ValidateDevice(k, now) =>
      if k in s.devices && s.devices[k].status == Active {
        UpdatedOne(s.devices, k, s.devices[k].(lastSeenAt := now));
        hide UpdatedWhere, UniqueIds;
      }
    case _ =>
  }

  lemma PairsIff(s: Store, step: Step, key: string)
    requires step.Complete?
    ensures Pairs(s, step, key) <==>
              step.key == key
                  && Completed(s, step.key, step.name, step.nonce, step.uuid, step.checkedAt, step.now).Ok?
  {
    hide UpdatedWhere;
  }

  /** The row of a key is exactly that device. */
  lemma {:induction false} DeviceIsAsPaired(steps: seq<Step>, key: string)
    requires forall i :: 0 <= i < |steps| ==> Possible(steps[i])
    ensures RowOf(Run(Empty, steps), key) == DeviceOf(steps, key)
  {
    hide Next, Pairs, Sees, Revokes, Sound;
    if steps != [] {
      DeviceIsAsPaired(Front(steps), key);
      EveryRunSound(Front(steps));
      DeviceStep(Run(Empty, Front(steps)), Last(steps), key);
    }
  }

  /** The audit trail that the steps leave. */
  function AuditOf(steps: seq<Step>): seq<Audit>
    requires forall i :: 0 <= i < |steps| ==> Possible(steps[i])
  {
    if steps == [] then []
    else
      var s, step := Run(Empty, Front(steps)), Last(steps);
      AuditOf(Front(steps))
      + match step
        case Complete(key, name, _, _, _, _) =>
          if Pairs(s, step, key) && DeviceOf(steps, key).Some? then
            [PairingCompleted(DeviceOf(steps, key).value.id, name)]
          else []
        case RevokeDevice(key, _) =>
          if Revokes(s, step, key) && DeviceOf(steps, key).Some? then [PairingRevoked(DeviceOf(steps, key).value.id)]
          else []
        case _ => []
  }

  lemma AuditStep(s: Store, step: Step)
    requires Sound(s) && Possible(step)
    ensures var t := Next(s, step);
            t.audit == s.audit
            + match step
              case Complete(key, name, _, _, _, _) =>
                if Pairs(s, step, key) && key in t.devices then [PairingCompleted(t.devices[key].id, name)] else []
              case RevokeDevice(key, _) =>
                if Revokes(s, step, key) && key in t.devices then [PairingRevoked(t.devices[key].id)] else []
              case _ => []
  {
    hide CodeText, UniqueCodes, CodesDrawn, CountCompleted, CountRevoked, Used, RevokedKeys;
    assert s.audit + [] == s.audit;
    if step.Complete? {
      PairsIff(s, step, step.key);
      if Completed(s, step.key, step.name, step.nonce, step.uuid, step.checkedAt, step.now).Ok? {
        CompletedShape(s, step.key, step.name, step.nonce, step.uuid, step.checkedAt, step.now);
        hide Completed, UniqueIds, Pairs;
      }
    }
  }

  /** Every pairing and every revocation leaves its entry, with the id of its device, in order, and
      nothing else does. */
  lemma {:induction false} AuditIsTrue(steps: seq<Step>)
    requires forall i :: 0 <= i < |steps| ==> Possible(steps[i])
    ensures Run(Empty, steps).audit == AuditOf(steps)
  {
    hide Next, Pairs, Revokes, Sound, DeviceOf;
    if steps != [] {
      AuditIsTrue(Front(steps));
      EveryRunSound(Front(steps));
      AuditStep(Run(Empty, Front(steps)), Last(steps));
      if Last(steps).Complete? || Last(steps).RevokeDevice? {
        DeviceIsAsPaired(steps, Last(steps).key);
      }
    }
  }

  /** Which error a pairing ends with, and the grant when there is none. */
  lemma PairingAnswers(s: Store, key: string, name: string, nonce: string, uuid: string, checkedAt: int, now: int)
    requires UniqueIds(s.devices)
    ensures var r, step := Completed(s, key, name, nonce, uuid, checkedAt, now),
                Complete(key, name, nonce, uuid, checkedAt, now);
            && (r == Err(InvalidNonce) <==> nonce !in s.sessions)
            && (r == Err(NonceUsed) <==> nonce in s.sessions && s.sessions[nonce].usedAt != None)
            && (r == Err(SessionExpired) <==>
                nonce in s.sessions && s.sessions[nonce].usedAt == None && s.sessions[nonce].expiresAt < checkedAt)
            && (r.Ok? <==> Pairs(s, step, key))
            && (nonce in s.sessions && s.sessions[nonce].usedAt == None && s.sessions[nonce].expiresAt >= checkedAt ==>
                  && (r == Err(DeviceIsRevoked) <==> key in s.devices && s.devices[key].status == Revoked)
                  && (r == Err(ConstraintFailed) <==>
                      key !in s.devices && exists other :: other in s.devices && s.devices[other].id == uuid))
            && (r.Ok? ==> var row := Next(s, step).devices;
                          key in row && r.value.1 == Grant(row[key].id, key, name, row[key].pairedAt))
  {
    PairsIff(s, Complete(key, name, nonce, uuid, checkedAt, now), key);
    if Completed(s, key, name, nonce, uuid, checkedAt, now).Ok? {
      CompletedShape(s, key, name, nonce, uuid, checkedAt, now);
    }
  }

  /** A device is granted access if and only if it is active, under the id, name and pairing time of its
      row. */
  lemma ValidationAnswers(s: Store, key: string, now: int)
    ensures var grant := Validated(s, key, now).1;
            && (grant.Some? <==> key in s.devices && s.devices[key].status == Active)
            && (grant.Some? ==>
                  grant.value == Grant(s.devices[key].id, key, s.devices[key].name, s.devices[key].pairedAt))
  {
  }
}
