/** The gateway's two sliding-window limiters: connections per address, and attempts per pairing
    code. Time is in milliseconds. */
module RateLimiter {
  import opened Common

  /** The connection limiter remembers only what it let through, the code limiter every attempt. */
  datatype Policy = Policy(window: nat, max: nat, countRefused: bool)

  const CONNECTIONS := Policy(60_000, 10, false)
  const PAIRING_CODES := Policy(300_000, 5, true)

  /** The remembered times that are still less than a window old. */
  function Recent(times: seq<int>, now: int, window: nat): seq<int> {
    if times == [] then []
    else Recent(Front(times), now, window) + (if now - Last(times) < window then [Last(times)] else [])
  }

  /** One attempt: the pruned list afterwards, and whether the attempt is refused. */
  function Attempt(p: Policy, times: seq<int>, now: int): (seq<int>, bool) {
    var recent := Recent(times, now, p.window);
    var refused := |recent| >= p.max;
    (if refused && !p.countRefused then recent else recent + [now], refused)
  }

  class Limiters {
    var connectionAttempts: map<string, seq<int>>
    var pairingCodeAttempts: map<string, seq<int>>

    constructor ()
      ensures connectionAttempts == map[] && pairingCodeAttempts == map[]
    {
      connectionAttempts, pairingCodeAttempts := map[], map[];
    }

    method IsRateLimited(ip: string, now: int) returns (limited: bool)
      modifies this`connectionAttempts
      ensures var (times, refused) := Attempt(CONNECTIONS, Remembered(old(connectionAttempts), ip), now);
              limited == refused && connectionAttempts == old(connectionAttempts)[ip := times]
    {
      var attempts := if ip in connectionAttempts then connectionAttempts[ip] else [];
      var recent := Recent(attempts, now, 60_000);
      connectionAttempts := connectionAttempts[ip := recent];
      if |recent| >= 10 {
        return true;
      }
      connectionAttempts := connectionAttempts[ip := recent + [now]];
      limited := false;
    }

    method IsPairingCodeRateLimited(code: string, now: int) returns (limited: bool)
      modifies this`pairingCodeAttempts
      ensures var (times, refused) := Attempt(PAIRING_CODES, Remembered(old(pairingCodeAttempts), code), now);
              limited == refused && pairingCodeAttempts == old(pairingCodeAttempts)[code := times]
    {
      var recent := Recent(if code in pairingCodeAttempts then pairingCodeAttempts[code] else [], now, 300_000);
      recent := recent + [now];
      pairingCodeAttempts := pairingCodeAttempts[code := recent];
      limited := |recent| > 5;
    }
  }

  function Remembered(m: map<string, seq<int>>, key: string): seq<int> {
    if key in m then m[key] else []
  }

  // ---------------------------------------------------------------------
  // The whole history of one key
  // ---------------------------------------------------------------------

  /** The list after all attempts. */
  function ListAfter(p: Policy, times: seq<int>): seq<int> {
    if times == [] then [] else Attempt(p, ListAfter(p, Front(times)), Last(times)).0
  }

  /** The attempts that were let through. */
  function Allowed(p: Policy, times: seq<int>): seq<int> {
    if times == [] then []
    else
      var refused := Attempt(p, ListAfter(p, Front(times)), Last(times)).1;
      Allowed(p, Front(times)) + (if refused then [] else [Last(times)])
  }

  /** The full history that counts against the limit. */
  function Counted(p: Policy, times: seq<int>): seq<int> {
    if p.countRefused then times else Allowed(p, times)
  }

  /** The clock never goes back. */
  ghost predicate Sorted(times: seq<int>) {
    forall i, j :: 0 <= i < j < |times| ==> times[i] <= times[j]
  }

  /** The times in the half-open window [from, from + window). */
  function InWindow(times: seq<int>, from: int, window: nat): seq<int> {
    if times == [] then []
    else InWindow(Front(times), from, window) + (if from <= Last(times) < from + window then [Last(times)] else [])
  }

  lemma {:induction false} RecentTwice(times: seq<int>, earlier: int, now: int, window: nat)
    requires earlier <= now
    ensures Recent(Recent(times, earlier, window), now, window) == Recent(times, now, window)
  {
    if times != [] {
      RecentTwice(Front(times), earlier, now, window);
      var r := Recent(Front(times), earlier, window);
      assert Front(r + [Last(times)]) == r;
      assert r + [] == r;
    }
  }

  lemma RecentSnoc(times: seq<int>, t: int, now: int, window: nat)
    ensures Recent(times + [t], now, window) == Recent(times, now, window) + (if now - t < window then [t] else [])
  {
  }

  /** Pruning loses nothing that matters: at every later moment the list says the same as the
      full history would. */
  lemma {:induction false} ListIsHistory(p: Policy, times: seq<int>, now: int)
    requires Sorted(times) && p.window > 0 && (times != [] ==> Last(times) <= now)
    ensures Recent(ListAfter(p, times), now, p.window) == Recent(Counted(p, times), now, p.window)
  {
    if times != [] {
      var t, list, counted := Last(times), ListAfter(p, Front(times)), Counted(p, Front(times));
      ListIsHistory(p, Front(times), now);
      RecentTwice(list, t, now, p.window);
      RecentSnoc(Recent(list, t, p.window), t, now, p.window);
      RecentSnoc(counted, t, now, p.window);
      assert p.countRefused ==> Front(times) + [t] == times;
      assert Allowed(p, Front(times)) + [] == Allowed(p, Front(times));
    }
  }

  /** So right after an attempt the list itself is the counted history of the last window. */
  lemma ListAfterAttempt(p: Policy, times: seq<int>)
    requires Sorted(times) && p.window > 0 && times != []
    ensures ListAfter(p, times) == Recent(Counted(p, times), Last(times), p.window)
  {
    var t, list := Last(times), ListAfter(p, Front(times));
    ListIsHistory(p, times, t);
    RecentTwice(list, t, t, p.window);
    RecentSnoc(Recent(list, t, p.window), t, t, p.window);
  }

  /** The rule, on the full history: an attempt is let through exactly when fewer than `max`
      counted attempts fell in the window before it. */
  lemma AllowedIffFewRecent(p: Policy, times: seq<int>, now: int)
    requires Sorted(times + [now]) && p.window > 0
    ensures Allowed(p, times + [now])
         == if |Recent(Counted(p, times), now, p.window)| < p.max then Allowed(p, times) + [now] else Allowed(p, times)
  {
    var all := times + [now];
    assert Front(all) == times && Last(all) == now;
    assert forall i :: 0 <= i < |times| ==> all[i] == times[i];
    assert times != [] ==> all[|times| - 1] <= all[|times|];
    ListIsHistory(p, times, now);
    assert Allowed(p, times) + [] == Allowed(p, times);
  }

  lemma {:induction false} WindowWithinRecent(times: seq<int>, from: int, now: int, window: nat)
    requires from <= now < from + window
    ensures |InWindow(times, from, window)| <= |Recent(times, now, window)|
  {
    if times != [] {
      WindowWithinRecent(Front(times), from, now, window);
    }
  }

  lemma {:induction false} AllowedWithinCounted(p: Policy, times: seq<int>, from: int, window: nat)
    ensures |InWindow(Allowed(p, times), from, window)| <= |InWindow(Counted(p, times), from, window)|
    ensures p.countRefused ==> |InWindow(Allowed(p, times), from, window)| <= |InWindow(times, from, window)|
  {
    if times != [] && p.countRefused {
      AllowedWithinCounted(p, Front(times), from, window);
      var a := Allowed(p, Front(times));
      assert Front(a + [Last(times)]) == a;
      assert a + [] == a;
    }
  }

  /** The numeric bound: however long the run, no half-open window holds more than `max` attempts
      that were let through. */
  lemma {:induction false} WindowBound(p: Policy, times: seq<int>, from: int)
    requires Sorted(times) && p.window > 0
    ensures |InWindow(Allowed(p, times), from, p.window)| <= p.max
  {
    if times != [] {
      var before, t := Front(times), Last(times);
      assert before + [t] == times;
      WindowBound(p, before, from);
      AllowedIffFewRecent(p, before, t);
      var a := Allowed(p, before);
      assert Front(a + [t]) == a;
      if from <= t < from + p.window {
        AllowedWithinCounted(p, before, from, p.window);
        WindowWithinRecent(Counted(p, before), from, t, p.window);
      }
    }
  }

  /** On a clock that does not go back the remembered times are the latest ones: exactly those less than a
      window old. */
  lemma {:induction false} RecentIsSuffix(times: seq<int>, now: int, window: nat) returns (k: nat)
    requires Sorted(times)
    ensures k <= |times| && Recent(times, now, window) == times[k..]
    ensures forall i :: 0 <= i < k ==> now - times[i] >= window
    ensures forall i :: k <= i < |times| ==> now - times[i] < window
  {
    if times == [] {
      k := 0;
    } else if now - Last(times) >= window {
      k := |times|;
      NoneRecent(times, now, window);
    } else {
      k := RecentIsSuffix(Front(times), now, window);
      assert times[k..] == Front(times)[k..] + [Last(times)];
    }
  }

  lemma {:induction false} NoneRecent(times: seq<int>, now: int, window: nat)
    requires forall i :: 0 <= i < |times| ==> now - times[i] >= window
    ensures Recent(times, now, window) == []
  {
    if times != [] {
      NoneRecent(Front(times), now, window);
    }
  }

  /** At most 10 connections per address in any minute, and none refused without need: one is accepted
      exactly when fewer than 10 accepted ones are less than a minute old. */
  lemma TenConnectionsPerMinute(times: seq<int>, now: int, from: int)
    requires Sorted(times + [now])
    ensures |InWindow(Allowed(CONNECTIONS, times + [now]), from, 60_000)| <= 10
    ensures Allowed(CONNECTIONS, times + [now])
         == if |Recent(Allowed(CONNECTIONS, times), now, 60_000)| < 10 then Allowed(CONNECTIONS, times) + [now]
           else Allowed(CONNECTIONS, times)
  {
    WindowBound(CONNECTIONS, times + [now], from);
    AllowedIffFewRecent(CONNECTIONS, times, now);
  }

  /** At most 5 admitted attempts per pairing code in any five minutes, and refused attempts count:
      an attempt is admitted only when fewer than 5 of any outcome precede it in its window. */
  lemma FiveCodeAttempts(times: seq<int>, now: int, from: int)
    requires Sorted(times + [now])
    ensures |InWindow(Allowed(PAIRING_CODES, times + [now]), from, 300_000)| <= 5
    ensures Allowed(PAIRING_CODES, times + [now])
         == if |Recent(times, now, 300_000)| < 5 then Allowed(PAIRING_CODES, times) + [now]
           else Allowed(PAIRING_CODES, times)
  {
    WindowBound(PAIRING_CODES, times + [now], from);
    AllowedIffFewRecent(PAIRING_CODES, times, now);
  }
}
