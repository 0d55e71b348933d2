/** The first message of a connection: who is let in. */
module Handshake {
  import opened Common
  import P = Pairing
  import L = RateLimiter

  /** The payload of `connection.initialize`. */
  datatype Initialize = Initialize(deviceKey: Option<string>, deviceName: string, pairingCode: Option<string>,
                                   pairingNonce: Option<string>)

  /** The readings of the clock during one handshake. */
  datatype Clock = Clock(resolvedAt: int, seenAt: int, limitedAt: int, validatedAt: int, checkedAt: int, writtenAt: int)

  datatype Outcome = Closed(code: nat) | Authenticated(grant: P.Grant)

  /** The pairing tables and the remembered attempts per pairing code. */
  datatype Bridge = Bridge(store: P.Store, attempts: map<string, seq<int>>)

  predicate Truthy(text: Option<string>) {
    text.Some? && text.value != ""
  }

  /** The nonce a code stands for, if any. */
  ghost function Resolved(s: P.Store, code: string, now: int): (nonce: Option<string>)
    ensures P.Resolves(s, code, now, nonce)
  {
    if n :| P.Validates(s, code, n, now) then Some(n) else None
  }

  ghost function NonceOf(s: P.Store, m: Initialize, now: int): Option<string> {
    if m.pairingNonce.Some? then m.pairingNonce
    else if Truthy(m.pairingCode) then Resolved(s, m.pairingCode.value, now)
    else None
  }

  ghost function Attempted(b: Bridge, m: Initialize, now: int): (map<string, seq<int>>, bool) {
    if !Truthy(m.pairingCode) then (b.attempts, true)
    else
      var (times, refused) := L.Attempt(L.PAIRING_CODES, L.Remembered(b.attempts, m.pairingCode.value), now);
      (b.attempts[m.pairingCode.value := times], refused)
  }

  ghost function Admit(b: Bridge, m: Initialize, uuid: string, t: Clock): (Bridge, Outcome) {
    var nonce := NonceOf(b.store, m, t.resolvedAt);
    if !Truthy(m.deviceKey) then (b, Closed(4002))
    else if P.IsRevoked(b.store, m.deviceKey.value) then (b, Closed(4005))
    else
      var (seen, grant) := P.Validated(b.store, m.deviceKey.value, t.seenAt);
      var (attempts, limited) := Attempted(b, m, t.limitedAt);
      var accepted := !limited && Truthy(nonce) && P.Validates(seen, m.pairingCode.value, nonce.value, t.validatedAt);
      if grant.Some? then (Bridge(seen, attempts), Authenticated(grant.value))
      else if !accepted then (Bridge(seen, attempts), Closed(4003))
      else
        match P.Completed(seen, m.deviceKey.value, m.deviceName, nonce.value, uuid, t.checkedAt, t.writtenAt)
        case Err(_) => (Bridge(seen, attempts), Closed(4007))
        case Ok(pair) => (Bridge(pair.0, attempts), Authenticated(pair.1))
  }

  class UcpGateway {
    const pairing: P.BridgePairingStore
    const limiters: L.Limiters

    constructor (pairing: P.BridgePairingStore, limiters: L.Limiters)
      ensures this.pairing == pairing && this.limiters == limiters
    {
      this.pairing, this.limiters := pairing, limiters;
    }

    ghost function State(): Bridge
      reads this, pairing, limiters
    {
      Bridge(pairing.State(), limiters.pairingCodeAttempts)
    }

    method OnInitialize(m: Initialize, uuid: string, t: Clock) returns (outcome: Outcome)
      requires P.Sound(pairing.State())
      modifies pairing, limiters`pairingCodeAttempts
      ensures (State(), outcome) == Admit(old(State()), m, uuid, t)
    {
      hide P.Sound, P.Validated, P.Completed, P.Validates;
      var nonce := m.pairingNonce;
      if nonce.None? && Truthy(m.pairingCode) {
        nonce := pairing.ResolvePairingCode(m.pairingCode.value, t.resolvedAt);
        SameAnswer(pairing.State(), m.pairingCode.value, t.resolvedAt, nonce);
      }
      if !Truthy(m.deviceKey) {
        return Closed(4002);
      }
      var key := m.deviceKey.value;
      var revoked := pairing.IsDeviceRevoked(key);
      if revoked {
        return Closed(4005);
      }
      var grant := pairing.ValidateDevice(key, t.seenAt);
      var accepted := false;
      if Truthy(m.pairingCode) {
        var limited := limiters.IsPairingCodeRateLimited(m.pairingCode.value, t.limitedAt);
        if !limited && Truthy(nonce) {
          accepted := pairing.ValidatePairingCode(m.pairingCode.value, nonce.value, t.validatedAt);
        }
      }
      if grant.None? && accepted {
        var paired := pairing.CompletePairing(key, m.deviceName, nonce.value, uuid, t.checkedAt, t.writtenAt);
        if paired.Err? {
          return Closed(4007);
        }
        grant := Some(paired.value);
      }
      if grant.None? {
        return Closed(4003);
      }
      return Authenticated(grant.value);
    }
  }

  /** Whichever row the query finds, it is the same one. */
  lemma SameAnswer(s: P.Store, code: string, now: int, answer: Option<string>)
    requires P.Sound(s) && P.Resolves(s, code, now, answer)
    ensures answer == Resolved(s, code, now)
  {
  }

  // ---------------------------------------------------------------------
  // Who gets in
  // ---------------------------------------------------------------------

  /** A key with an active row always gets in, a revoked key never, and an unknown key exactly by a
      live code that is not rate limited, alone or with its own nonce. */
  lemma AdmittedIff(b: Bridge, m: Initialize, uuid: string, t: Clock)
    requires P.Sound(b.store) && Truthy(m.deviceKey)
    requires t.resolvedAt <= t.validatedAt <= t.checkedAt
    ensures var key := m.deviceKey.value;
            var known := key in b.store.devices;
            Admit(b, m, uuid, t).1.Authenticated? <==>
              if known then b.store.devices[key].status == P.Active
              else
                && BringsLiveCode(b.store, m, t.checkedAt)
                && |L.Recent(L.Remembered(b.attempts, m.pairingCode.value), t.limitedAt, 300_000)| < 5
                && !P.IdTaken(b.store.devices, uuid)
  {
    if m.deviceKey.value !in b.store.devices && Truthy(m.pairingCode) {
      hide P.Sound, P.Validates;
      NonceFound(b.store, m, t, t.checkedAt);
      assert L.Recent(L.Remembered(b.attempts, m.pairingCode.value), t.limitedAt, 300_000)
          == L.Recent(L.Remembered(b.attempts, m.pairingCode.value), t.limitedAt, L.PAIRING_CODES.window);
      ValidWhole(b.store, m, uuid, t);
    }
  }

  /** The message brings a code that is live at that time, alone or with its own nonce. */
  ghost predicate BringsLiveCode(s: P.Store, m: Initialize, at: int) {
    && Truthy(m.pairingCode)
    && exists nonce ::
         && P.Validates(s, m.pairingCode.value, nonce, at)
         && nonce != "" && (m.pairingNonce.Some? ==> m.pairingNonce.value == nonce)
  }

  /** The nonce the gateway looks at is the one that makes the code live, if there is one. */
  lemma NonceFound(s: P.Store, m: Initialize, t: Clock, at: int)
    requires P.Sound(s) && Truthy(m.pairingCode) && t.resolvedAt <= at
    ensures var nonce := NonceOf(s, m, t.resolvedAt);
            BringsLiveCode(s, m, at) <==> Truthy(nonce) && P.Validates(s, m.pairingCode.value, nonce.value, at)
  {
    hide P.Sound;
    var code := m.pairingCode.value;
    var answer := Resolved(s, code, t.resolvedAt);
    forall n | P.Validates(s, code, n, at) ensures answer == Some(n) {
      P.ResolvesIffValidates(s, code, t.resolvedAt, answer, n);
    }
    var nonce := NonceOf(s, m, t.resolvedAt);
    if Truthy(nonce) && P.Validates(s, code, nonce.value, at) {
      assert m.pairingNonce.Some? ==> m.pairingNonce.value == nonce.value;
    }
  }

  /** For an unknown key, all that matters is whether the pair still validates at the last check. */
  lemma ValidWhole(s: P.Store, m: Initialize, uuid: string, t: Clock)
    requires Truthy(m.pairingCode) && Truthy(m.deviceKey) && m.deviceKey.value !in s.devices
    requires t.validatedAt <= t.checkedAt
    ensures forall n :: P.Validates(s, m.pairingCode.value, n, t.validatedAt) ==>
              (P.Completed(s, m.deviceKey.value, m.deviceName, n, uuid, t.checkedAt, t.writtenAt).Ok?
               <==> P.Validates(s, m.pairingCode.value, n, t.checkedAt) && !P.IdTaken(s.devices, uuid))
    ensures forall n :: P.Validates(s, m.pairingCode.value, n, t.checkedAt) ==>
              P.Validates(s, m.pairingCode.value, n, t.validatedAt)
  {
  }

  /** How every handshake ends. Without a device key it is closed with 4002, so an admission always has
      one; a revoked key is closed with 4005; an active one gets in under its row. An unknown key is
      closed with 4003 unless it brings a code that is live when it is looked up and not rate limited;
      then with 4007 if the code has expired by the time of the pairing or the new device id is taken. */
  lemma HandshakeEndsAs(b: Bridge, m: Initialize, uuid: string, t: Clock)
    requires P.Sound(b.store) && t.resolvedAt <= t.validatedAt <= t.checkedAt
    ensures var outcome := Admit(b, m, uuid, t).1;
            if m.deviceKey == None || m.deviceKey == Some("") then outcome == Closed(4002)
            else
              var key := m.deviceKey.value;
              var devices := b.store.devices;
              if key in devices && devices[key].status == P.Revoked then outcome == Closed(4005)
              else if key in devices then
                outcome == Authenticated(P.Grant(devices[key].id, key, devices[key].name, devices[key].pairedAt))
              else if !(&& BringsLiveCode(b.store, m, t.validatedAt)
                        && |L.Recent(L.Remembered(b.attempts, m.pairingCode.value), t.limitedAt, 300_000)| < 5) then
                outcome == Closed(4003)
              else if !BringsLiveCode(b.store, m, t.checkedAt)
                      || (exists other :: other in devices && devices[other].id == uuid) then
                outcome == Closed(4007)
              else outcome == Authenticated(P.Grant(uuid, key, m.deviceName, t.writtenAt))
  {
    if Truthy(m.deviceKey) && m.deviceKey.value !in b.store.devices && Truthy(m.pairingCode) {
      hide P.Sound, P.Validates, BringsLiveCode;
      NonceFound(b.store, m, t, t.validatedAt);
      NonceFound(b.store, m, t, t.checkedAt);
      assert L.Recent(L.Remembered(b.attempts, m.pairingCode.value), t.limitedAt, 300_000)
          == L.Recent(L.Remembered(b.attempts, m.pairingCode.value), t.limitedAt, L.PAIRING_CODES.window);
      ValidWhole(b.store, m, uuid, t);
    }
  }

  // ---------------------------------------------------------------------
  // Runs
  // ---------------------------------------------------------------------

  datatype Step = Pairing(step: P.Step) | Shake(m: Initialize, uuid: string, t: Clock)

  predicate Possible(s: Step) {
    s.Pairing? ==> P.Possible(s.step)
  }

  ghost function Next(b: Bridge, s: Step): Bridge
    requires Possible(s)
  {
    match s
    case Pairing(step) => b.(store := P.Next(b.store, step))
    case Shake(m, uuid, t) => Admit(b, m, uuid, t).0
  }

  ghost function Run(b: Bridge, steps: seq<Step>): Bridge
    requires forall i :: 0 <= i < |steps| ==> Possible(steps[i])
  {
    if steps == [] then b else Next(Run(b, Front(steps)), Last(steps))
  }

  /** What a handshake does to the tables are at most two of their own operations. */
  ghost function AsSteps(b: Bridge, m: Initialize, uuid: string, t: Clock): (steps: seq<P.Step>)
    ensures forall i :: 0 <= i < |steps| ==> P.Possible(steps[i])
  {
    if !Truthy(m.deviceKey) || P.IsRevoked(b.store, m.deviceKey.value) then []
    else
      var key := m.deviceKey.value;
      var nonce := NonceOf(b.store, m, t.resolvedAt);
      var seen := P.Validated(b.store, key, t.seenAt);
      [P.ValidateDevice(key, t.seenAt)]
      + if seen.1.None? && !Attempted(b, m, t.limitedAt).1 && Truthy(nonce)
           && P.Validates(seen.0, m.pairingCode.value, nonce.value, t.validatedAt)
        then [P.Complete(key, m.deviceName, nonce.value, uuid, t.checkedAt, t.writtenAt)] else []
  }

  lemma ShakeIsSteps(b: Bridge, m: Initialize, uuid: string, t: Clock)
    ensures Admit(b, m, uuid, t).0.store == P.Run(b.store, AsSteps(b, m, uuid, t))
  {
    hide P.Validated, P.Completed, P.Validates, NonceOf, Attempted;
    var steps := AsSteps(b, m, uuid, t);
    if steps != [] {
      var first := P.ValidateDevice(m.deviceKey.value, t.seenAt);
      assert Front([first]) == [];
      assert P.Run(b.store, [first]) == P.Validated(b.store, m.deviceKey.value, t.seenAt).0;
      if |steps| == 2 {
        assert Front(steps) == [first];
      }
    }
  }

  lemma NextLives(b: Bridge, s: Step)
    requires P.Sound(b.store) && Possible(s)
    ensures P.Sound(Next(b, s).store) && P.Lives(b.store, Next(b, s).store)
  {
    hide P.Sound, P.Lives, P.Next, Admit, AsSteps;
    match s
    case Pairing(step) =>
      P.NextSound(b.store, step);
      P.NextLives(b.store, step);
    case Shake(m, uuid, t) =>
      ShakeIsSteps(b, m, uuid, t);
      P.LivesForGood(b.store, AsSteps(b, m, uuid, t));
  }

  lemma {:induction false} RunLives(b: Bridge, steps: seq<Step>)
    requires P.Sound(b.store) && forall i :: 0 <= i < |steps| ==> Possible(steps[i])
    ensures P.Sound(Run(b, steps).store) && P.Lives(b.store, Run(b, steps).store)
  {
    hide P.Sound, P.Lives, Next;
    if steps == [] {
      P.LivesReflexive(b.store);
    } else {
      RunLives(b, Front(steps));
      NextLives(Run(b, Front(steps)), Last(steps));
      P.LivesTransitive(b.store, Run(b, Front(steps)).store, Run(b, steps).store);
    }
  }

  /** Revocation is permanent: once a key is revoked, no handshake for it ever succeeds again,
      whatever codes are issued and whatever else happens in between. */
  lemma RevokedNeverAdmitted(b: Bridge, steps: seq<Step>, m: Initialize, uuid: string, t: Clock)
    requires P.Sound(b.store) && forall i :: 0 <= i < |steps| ==> Possible(steps[i])
    requires Truthy(m.deviceKey) && P.IsRevoked(b.store, m.deviceKey.value)
    ensures Admit(Run(b, steps), m, uuid, t) == (Run(b, steps), Closed(4005))
  {
    hide P.Sound, Run;
    RunLives(b, steps);
  }

  /** One identity per key: every later admission of a key carries the device id and the pairing
      time of the first. */
  lemma SameGrantEveryTime(b: Bridge, first: Step, steps: seq<Step>, m: Initialize, uuid: string, t: Clock)
    requires P.Sound(b.store) && forall i :: 0 <= i < |steps| ==> Possible(steps[i])
    requires first.Shake? && Truthy(first.m.deviceKey) && m.deviceKey == first.m.deviceKey
    requires Admit(b, first.m, first.uuid, first.t).1.Authenticated?
    requires Admit(Run(Next(b, first), steps), m, uuid, t).1.Authenticated?
    ensures var one := Admit(b, first.m, first.uuid, first.t).1.grant;
            var two := Admit(Run(Next(b, first), steps), m, uuid, t).1.grant;
            two.deviceId == one.deviceId && two.pairedAt == one.pairedAt
  {
    hide P.Sound, P.Lives, Run, Admit;
    var key := m.deviceKey.value;
    NextLives(b, first);
    RunLives(Next(b, first), steps);
    GrantIsRow(b, first.m, first.uuid, first.t);
    RowLives(Next(b, first).store, Run(Next(b, first), steps).store, key);
    KnownGrant(Run(Next(b, first), steps), m, uuid, t);
  }

  lemma RowLives(s: P.Store, u: P.Store, key: string)
    requires P.Lives(s, u) && key in s.devices
    ensures key in u.devices && u.devices[key].id == s.devices[key].id
    ensures u.devices[key].pairedAt == s.devices[key].pairedAt
  {
  }

  /** After an admission the key has an active row, and the grant is that row. */
  lemma GrantIsRow(b: Bridge, m: Initialize, uuid: string, t: Clock)
    requires P.Sound(b.store) && Truthy(m.deviceKey) && Admit(b, m, uuid, t).1.Authenticated?
    ensures var (after, outcome) := Admit(b, m, uuid, t);
            var key := m.deviceKey.value;
            && key in after.store.devices && after.store.devices[key].status == P.Active
            && after.store.devices[key].id == outcome.grant.deviceId
            && after.store.devices[key].pairedAt == outcome.grant.pairedAt
            && outcome.grant.deviceKey == key
  {
    hide NonceOf, Attempted, P.Validates;
    var key := m.deviceKey.value;
    if key in b.store.devices {
      P.UpdatedOne(b.store.devices, key, b.store.devices[key].(lastSeenAt := t.seenAt));
    }
  }

  /** A key with a row is admitted under that row. */
  lemma KnownGrant(b: Bridge, m: Initialize, uuid: string, t: Clock)
    requires Truthy(m.deviceKey) && m.deviceKey.value in b.store.devices && Admit(b, m, uuid, t).1.Authenticated?
    ensures var grant := Admit(b, m, uuid, t).1.grant;
            var row := b.store.devices[m.deviceKey.value];
            grant.deviceId == row.id && grant.pairedAt == row.pairedAt
  {
  }

  // ---------------------------------------------------------------------
  // Guessing codes
  // ---------------------------------------------------------------------

  /** Does this step ask the limiter about the code? A missing or a revoked device key is turned away
      before that. */
  ghost predicate Tries(b: Bridge, s: Step, code: string) {
    && s.Shake? && Truthy(s.m.deviceKey) && !P.IsRevoked(b.store, s.m.deviceKey.value)
    && Truthy(s.m.pairingCode) && s.m.pairingCode.value == code
  }

  /** When the code was tried, by whatever connection. */
  ghost function TryTimes(b: Bridge, steps: seq<Step>, code: string): seq<int>
    requires forall i :: 0 <= i < |steps| ==> Possible(steps[i])
  {
    if steps == [] then []
    else TryTimes(b, Front(steps), code)
         + (if Tries(Run(b, Front(steps)), Last(steps), code) then [Last(steps).t.limitedAt] else [])
  }

  /** When a try was let through to the check of the code. */
  ghost function LetThrough(b: Bridge, steps: seq<Step>, code: string): seq<int>
    requires forall i :: 0 <= i < |steps| ==> Possible(steps[i])
  {
    if steps == [] then []
    else
      var before, s := Run(b, Front(steps)), Last(steps);
      LetThrough(b, Front(steps), code)
        + (if Tries(before, s, code) && !Attempted(before, s.m, s.t.limitedAt).1 then [s.t.limitedAt] else [])
  }

  /** One step, as the limiter sees it. */
  lemma TryStep(b: Bridge, s: Step, code: string)
    requires Possible(s)
    ensures var times := L.Remembered(b.attempts, code);
            && L.Remembered(Next(b, s).attempts, code)
               == (if Tries(b, s, code) then L.Attempt(L.PAIRING_CODES, times, s.t.limitedAt).0 else times)
            && (Tries(b, s, code) ==>
                  Attempted(b, s.m, s.t.limitedAt).1 == L.Attempt(L.PAIRING_CODES, times, s.t.limitedAt).1)
  {
    hide P.Validated, P.Completed, P.Validates, NonceOf, L.Attempt;
  }

  /** The limiter's list for a code is what the tries of that code alone make of it, whatever else
      happens in between, and what it lets through are the allowed ones. */
  lemma {:induction false} ListIsTries(b: Bridge, steps: seq<Step>, code: string)
    requires b.attempts == map[] && forall i :: 0 <= i < |steps| ==> Possible(steps[i])
    ensures L.Remembered(Run(b, steps).attempts, code) == L.ListAfter(L.PAIRING_CODES, TryTimes(b, steps, code))
    ensures LetThrough(b, steps, code) == L.Allowed(L.PAIRING_CODES, TryTimes(b, steps, code))
  {
    hide Tries, Next, Attempted, L.Attempt;
    if steps != [] {
      var times, s := TryTimes(b, Front(steps), code), Last(steps);
      ListIsTries(b, Front(steps), code);
      TryStep(Run(b, Front(steps)), s, code);
      assert times + [] == times;
      assert s.Shake? ==> Front(times + [s.t.limitedAt]) == times;
      assert L.Allowed(L.PAIRING_CODES, times) + [] == L.Allowed(L.PAIRING_CODES, times);
    }
  }

  /** Over all runs of the gateway and all interleavings of connections: in any five minutes at most
      five tries of one code get as far as the check of the code. */
  lemma FiveTriesPerCode(b: Bridge, steps: seq<Step>, code: string, from: int)
    requires b.attempts == map[] && forall i :: 0 <= i < |steps| ==> Possible(steps[i])
    requires L.Sorted(TryTimes(b, steps, code))
    ensures |L.InWindow(LetThrough(b, steps, code), from, 300_000)| <= 5
  {
    ListIsTries(b, steps, code);
    L.WindowBound(L.PAIRING_CODES, TryTimes(b, steps, code), from);
  }

  /** And nobody is let in by a code without such a try: a handshake of an unknown key that ends in a
      grant was let through at that moment. */
  lemma AdmissionWasLetThrough(b: Bridge, steps: seq<Step>, s: Step)
    requires forall i :: 0 <= i < |steps| ==> Possible(steps[i])
    requires s.Shake? && Truthy(s.m.deviceKey) && s.m.deviceKey.value !in Run(b, steps).store.devices
    requires Admit(Run(b, steps), s.m, s.uuid, s.t).1.Authenticated?
    ensures Truthy(s.m.pairingCode)
    ensures (forall i :: 0 <= i < |steps + [s]| ==> Possible((steps + [s])[i]))
    ensures LetThrough(b, steps + [s], s.m.pairingCode.value)
         == LetThrough(b, steps, s.m.pairingCode.value) + [s.t.limitedAt]
  {
    assert Front(steps + [s]) == steps && Last(steps + [s]) == s;
    hide Run, P.Completed, P.Validates, NonceOf, LetThrough;
    LetThroughSnoc(b, steps, s);
  }

  lemma LetThroughSnoc(b: Bridge, steps: seq<Step>, s: Step)
    requires (forall i :: 0 <= i < |steps| ==> Possible(steps[i])) && s.Shake?
    ensures forall i :: 0 <= i < |steps + [s]| ==> Possible((steps + [s])[i])
    ensures forall code ::
              LetThrough(b, steps + [s], code)
              == LetThrough(b, steps, code)
                 + (if Tries(Run(b, steps), s, code) && !Attempted(Run(b, steps), s.m, s.t.limitedAt).1
                    then [s.t.limitedAt] else [])
  {
    assert Front(steps + [s]) == steps && Last(steps + [s]) == s;
  }
}
