/** When the token is refreshed: the loop of `tokenRefreshLoop` and the waits it chooses. Timers fire exactly
    when due. */
module Refresh {
  import opened Arith
  import opened Backoff
  import opened Jwt

  const MINUTE: int := 60 * SECOND
  const REPLY_TIMEOUT: int := 10 * SECOND
  const PAUSE: int := 5 * SECOND
  const TWO_54: int := 0x40_0000_0000_0000

  /** The float product `0.05 * wait`, truncated: a twentieth, give or take the rounding of three float
      operations. */
  ghost predicate IsTwentieth(wait: int, five: int) {
    var e := 1 + wait / TWO_54;
    wait / 20 - e <= five <= wait / 20 + e
  }

  /** The wait the loop chooses; `five` is the jitter range it computes and `random` what it draws. */
  function ChosenWait(c: Claims, now: Time, five: int, random: int): int {
    var wait := TimeUntilHalfLife(c, now);
    if wait == 0 then SECOND
    else if wait > MINUTE then wait + (random - five)
    else wait
  }

  /** The latest instant a scheduled refresh can fire: 21/40 of the lifespan after issue, plus a rounding
      term that is zero for lifespans under two hundred days. */
  ghost function LatestScheduled(c: Claims): Time {
    var span := (c.exp - c.iat) * SECOND;
    c.iat * SECOND + 21 * span / 40 + span / TWO_54
  }

  lemma JitterBound(wait: int, five: int, random: int)
    requires wait > MINUTE && IsTwentieth(wait, five) && InRange(five * 2, random)
    ensures 0 < wait + (random - five) <= wait + wait / 20 + wait / TWO_54
  {
    assert five > 0;
  }

  lemma TwentiethOfHalf(span: int, wait: int)
    requires 0 <= wait <= span / 2
    ensures span / 2 + wait / 20 + wait / TWO_54 <= 21 * span / 40 + span / TWO_54
  {
    assert wait / 20 <= (span / 2) / 20;
    assert wait / TWO_54 <= span / TWO_54;
  }

  /** Before half-life the wait is positive and ends by the latest scheduled instant. */
  lemma ScheduledWait(c: Claims, now: Time, five: int, random: int)
    requires c.iat * SECOND <= now < HalfLife(c)
    requires IsTwentieth(TimeUntilHalfLife(c, now), five) && InRange(five * 2, random)
    ensures ChosenWait(c, now, five, random) > 0
    ensures now + ChosenWait(c, now, five, random) <= LatestScheduled(c)
  {
    var wait := TimeUntilHalfLife(c, now);
    var span := (c.exp - c.iat) * SECOND;
    assert 0 < wait <= HalfLife(c) - now;
    assert 0 < HalfLife(c) - c.iat * SECOND <= span / 2;
    if wait > MINUTE {
      JitterBound(wait, five, random);
    }
    TwentiethOfHalf(span, wait);
  }

  /** The wait against the middle of the token's life, named by its issue and expiry times: before it the wait is
      the time left, exactly up to a minute and give or take a twentieth and rounding beyond; after it one second. */
  lemma WaitAroundMidpoint(c: Claims, now: Time, five: int, random: int)
    requires c.iat * SECOND <= now && 0 <= (c.exp - c.iat) * SECOND < TWO_63
    requires IsTwentieth(TimeUntilHalfLife(c, now), five) && InRange(five * 2, random)
    ensures var left := c.iat * SECOND + (c.exp - c.iat) * SECOND / 2 - now;
            var wait := ChosenWait(c, now, five, random);
            && (left <= 0 ==> wait == SECOND)
            && (0 < left <= MINUTE ==> wait == left)
            && (0 < left ==> left - left / 20 - 1 - left / TWO_54 <= wait <= left + left / 20 + left / TWO_54)
  {
    var left := c.iat * SECOND + (c.exp - c.iat) * SECOND / 2 - now;
    assert HalfLife(c) - now == left;
    if left > 0 {
      assert TimeUntilHalfLife(c, now) == left;
      if left > MINUTE {
        JitterBound(left, five, random);
      }
    }
  }

  lemma LatestBeforeExpiry(c: Claims)
    requires c.iat < c.exp
    ensures LatestScheduled(c) < c.exp * SECOND
  {
    var span := (c.exp - c.iat) * SECOND;
    assert c.exp * SECOND == c.iat * SECOND + span;
    assert span >= SECOND;
  }

  /** Refresh beats expiry: from any moment of the token's life the wait is positive, and the refresh fires
      before the token expires, except when past half-life exactly if no more than a second is left. */
  lemma RefreshBeatsExpiry(c: Claims, now: Time, five: int, random: int)
    requires c.iat * SECOND <= now < c.exp * SECOND
    requires IsTwentieth(TimeUntilHalfLife(c, now), five) && InRange(five * 2, random)
    ensures ChosenWait(c, now, five, random) > 0
    ensures now < HalfLife(c) ==> now + ChosenWait(c, now, five, random) <= LatestScheduled(c) < c.exp * SECOND
    ensures now >= HalfLife(c) ==> ChosenWait(c, now, five, random) == SECOND
    ensures now + ChosenWait(c, now, five, random) < c.exp * SECOND
       <==> now < HalfLife(c) || now + SECOND < c.exp * SECOND
  {
    if now < HalfLife(c) {
      ScheduledWait(c, now, five, random);
      LatestBeforeExpiry(c);
    }
  }

  // ---------------------------------------------------------------------------------------------
  // The loop
  // ---------------------------------------------------------------------------------------------

  datatype Stop = Never | InWait | InPause

  /** One pass: the claims read at its top, the jitter range and draw, whether the client is connected when
      the timer fires, and how the refresh goes and how long it takes. */
  datatype Pass = Pass(claims: Claims, five: int, random: int, connected: bool, ok: bool, took: nat, stop: Stop)

  /** What one pass, its timer due at `due`, leaves: the attempts it made, and when the next pass starts if
      there is one. */
  datatype Passed = Next(attempts: seq<Time>, now: Time) | Stopped(attempts: seq<Time>)

  function AfterPass(p: Pass, due: Time): Passed {
    if p.stop.InWait? then Stopped([])
    else if !p.connected then if p.stop.InPause? then Stopped([]) else Next([], due + PAUSE)
    else if p.ok then Next([due], due + p.took)
    else if p.stop.InPause? then Stopped([due])
    else Next([due], due + p.took + PAUSE)
  }

  /** The instants at which a refresh is attempted. */
  function Attempts(now: Time, script: seq<Pass>): seq<Time>
    decreases |script|
  {
    if script == [] then []
    else
      var p := script[0];
      var after := AfterPass(p, now + ChosenWait(p.claims, now, p.five, p.random));
      after.attempts + if after.Stopped? then [] else Attempts(after.now, script[1..])
  }

  /** `TimeUntilHalfLife` and the adjustment of the wait. */
  method ChooseWait(claims: Claims, now: Time, five: int, random: int) returns (timeUntilRefresh: int)
    ensures timeUntilRefresh == ChosenWait(claims, now, five, random)
  {
    timeUntilRefresh := TimeUntilHalfLife(claims, now);
    if timeUntilRefresh == 0 {
      timeUntilRefresh := SECOND;
    } else if timeUntilRefresh > MINUTE {
      var jitter := random - five;
      timeUntilRefresh := timeUntilRefresh + jitter;
    }
  }

  lemma AttemptsUnfold(done: seq<Time>, now: Time, script: seq<Pass>, due: Time)
    requires script != []
    requires due == now + ChosenWait(script[0].claims, now, script[0].five, script[0].random)
    ensures var after := AfterPass(script[0], due);
            done + Attempts(now, script) ==
            if after.Stopped? then done + after.attempts else (done + after.attempts) + Attempts(after.now, script[1..])
  {
    hide ChosenWait, AfterPass;
    var after := AfterPass(script[0], due);
    if after.Stopped? {
      assert Attempts(now, script) == after.attempts;
    } else {
      assert Attempts(now, script) == after.attempts + Attempts(after.now, script[1..]);
    }
  }

  /** `tokenRefreshLoop`, for as many passes as the script has. */
  method TokenRefreshLoop(start: Time, script: seq<Pass>) returns (attempts: seq<Time>)
    ensures attempts == Attempts(start, script)
  {
    hide ChosenWait, Attempts;
    var now := start;
    attempts := [];
    var i := 0;
    while i < |script|
      invariant 0 <= i <= |script|
      invariant Attempts(start, script) == attempts + Attempts(now, script[i..])
    {
      var p := script[i];
      assert script[i..][1..] == script[i + 1..];
      var timeUntilRefresh := ChooseWait(p.claims, now, p.five, p.random);
      AttemptsUnfold(attempts, now, script[i..], now + timeUntilRefresh);
      if p.stop.InWait? {
        return;
      }
      now := now + timeUntilRefresh;
      if !p.connected {
        if p.stop.InPause? {
          return;
        }
        now := now + PAUSE;
      } else {
        attempts := attempts + [now];
        now := now + p.took;
        if !p.ok {
          if p.stop.InPause? {
            return;
          }
          now := now + PAUSE;
        }
      }
      i := i + 1;
    }
    assert script[i..] == [];
    NoPasses(now);
  }

  lemma NoPasses(now: Time)
    ensures Attempts(now, []) == []
  {
  }

  // What the schedule is, pass by pass


  /** The length of an uninterrupted pass after its timer: the refresh, and five seconds when there was no connection
      or no success. */
  ghost predicate PassTakes(p: Pass, due: Time, next: Time) {
    next - due == (if p.connected then p.took else 0) + (if p.connected && p.ok then 0 else 5 * SECOND)
  }

  /** The timer of a pass that starts at `now` fires at `due`. */
  ghost predicate FiresAt(p: Pass, now: Time, due: Time) {
    due == now + ChosenWait(p.claims, now, p.five, p.random)
  }

  /** Pass `i` starts at `starts[i]` and its timer fires at `due[i]`. */
  ghost predicate Timed(script: seq<Pass>, starts: seq<Time>, due: seq<Time>) {
    && |starts| == |due| == |script|
    && (forall i :: 0 <= i < |script| ==> FiresAt(script[i], starts[i], due[i]))
    && (forall i :: 1 <= i < |script| ==> PassTakes(script[i - 1], due[i - 1], starts[i]))
  }

  lemma TimedCons(script: seq<Pass>, start: Time, first: Time, starts: seq<Time>, due: seq<Time>)
    requires script != [] && Timed(script[1..], starts, due)
    requires FiresAt(script[0], start, first)
    requires starts != [] ==> PassTakes(script[0], first, starts[0])
    ensures Timed(script, [start] + starts, [first] + due)
  {
    hide FiresAt, PassTakes;
    var (later, starts', due') := (script[1..], [start] + starts, [first] + due);
    forall i | 1 <= i < |script|
      ensures FiresAt(script[i], starts'[i], due'[i]) && PassTakes(script[i - 1], due'[i - 1], starts'[i])
    {
      assert FiresAt(later[i - 1], starts[i - 1], due[i - 1]);
      if i > 1 {
        assert PassTakes(later[i - 2], due[i - 2], starts[i - 1]);
      }
    }
  }

  /** Without shutdown every pass waits its time, makes one attempt when its timer fires if the client is connected
      and none otherwise, and is followed by the next after the time it takes. */
  lemma {:induction false} PassesFollow(start: Time, script: seq<Pass>) returns (starts: seq<Time>, due: seq<Time>)
    requires forall i :: 0 <= i < |script| ==> script[i].stop.Never?
    ensures Timed(script, starts, due) && (script != [] ==> starts[0] == start)
    ensures Attempts(start, script) == Taken(script, due)
    decreases |script|
  {
    hide ChosenWait;
    if script == [] {
      starts, due := [], [];
    } else {
      var p := script[0];
      var first := start + ChosenWait(p.claims, start, p.five, p.random);
      var next := AfterPass(p, first).now;
      assert PassTakes(p, first, next);
      var laterStarts, laterDue := PassesFollow(next, script[1..]);
      starts, due := [start] + laterStarts, [first] + laterDue;
      assert FiresAt(p, start, first);
      hide PassTakes, FiresAt, Timed;
      TimedCons(script, start, first, laterStarts, laterDue);
      assert due[1..] == laterDue;
    }
  }

  /** The due times of the passes that find the client connected. */
  ghost function Taken(script: seq<Pass>, due: seq<Time>): seq<Time>
    requires |due| == |script|
  {
    if script == [] then [] else (if script[0].connected then [due[0]] else []) + Taken(script[1..], due[1..])
  }

  /** A shutdown during a wait leaves the attempts made before that pass, one during a pause those up to it. */
  lemma {:induction false} ShutdownEndsAttempts(start: Time, script: seq<Pass>, k: nat)
    requires k < |script|
    ensures script[k].stop.InWait? ==> Attempts(start, script) == Attempts(start, script[..k])
    ensures script[k].stop.InPause? && !(script[k].connected && script[k].ok) ==>
              Attempts(start, script) == Attempts(start, script[..k + 1])
    decreases k
  {
    hide ChosenWait;
    var p := script[0];
    var after := AfterPass(p, start + ChosenWait(p.claims, start, p.five, p.random));
    if k > 0 {
      assert script[..k][1..] == script[1..][..k - 1] && script[..k + 1][1..] == script[1..][..k];
      if after.Next? {
        ShutdownEndsAttempts(after.now, script[1..], k - 1);
      }
    }
  }

  /** A live connection and a token that never gets refreshed: every attempt fails, within the reply timeout. */
  ghost predicate AllFail(c: Claims, start: Time, script: seq<Pass>)
    decreases |script|
  {
    script != [] ==>
      var p := script[0];
      && p.claims == c && p.connected && !p.ok && p.stop.Never? && p.took <= REPLY_TIMEOUT
      && IsTwentieth(TimeUntilHalfLife(c, start), p.five) && InRange(p.five * 2, p.random)
      && AllFail(c, start + ChosenWait(c, start, p.five, p.random) + p.took + PAUSE, script[1..])
  }

  lemma NextDue(c: Claims, now: Time, five: int, random: int)
    requires c.iat * SECOND <= now && IsTwentieth(TimeUntilHalfLife(c, now), five) && InRange(five * 2, random)
    ensures now < now + ChosenWait(c, now, five, random) <= Max(now + SECOND, LatestScheduled(c))
  {
    if now < HalfLife(c) {
      ScheduledWait(c, now, five, random);
    }
  }

  /** Attempt `i` comes more than five and, past the deadline, at most sixteen seconds after the one before. */
  ghost predicate Spaced(deadline: Time, times: seq<Time>, i: nat)
    requires 1 <= i < |times|
  {
    times[i - 1] + PAUSE < times[i] <= Max(times[i - 1] + 16 * SECOND, deadline)
  }

  ghost predicate Paced(start: Time, deadline: Time, times: seq<Time>) {
    && (times != [] ==> start < times[0] <= Max(start + SECOND, deadline))
    && (forall i :: 1 <= i < |times| ==> Spaced(deadline, times, i))
  }

  lemma PacedCons(start: Time, deadline: Time, due: Time, next: Time, rest: seq<Time>)
    requires start < due <= Max(start + SECOND, deadline)
    requires due + PAUSE <= next <= due + REPLY_TIMEOUT + PAUSE
    requires Paced(next, deadline, rest)
    ensures Paced(start, deadline, [due] + rest)
  {
    var times := [due] + rest;
    forall i | 1 <= i < |times|
      ensures Spaced(deadline, times, i)
    {
      assert i > 1 ==> Spaced(deadline, rest, i - 1);
    }
  }

  /** While refreshing keeps failing, one attempt is made per pass; the first comes by the latest scheduled
      instant or within a second; and from that instant on attempts are at most sixteen seconds apart, and
      always more than five. */
  lemma {:induction false} FailingAttemptsKeepComing(c: Claims, start: Time, script: seq<Pass>)
    requires c.iat * SECOND <= start && AllFail(c, start, script)
    ensures |Attempts(start, script)| == |script|
    ensures Paced(start, LatestScheduled(c), Attempts(start, script))
    decreases |script|
  {
    hide ChosenWait, LatestScheduled;
    if script != [] {
      var p := script[0];
      NextDue(c, start, p.five, p.random);
      var due := start + ChosenWait(c, start, p.five, p.random);
      var next := due + p.took + PAUSE;
      FailingAttemptsKeepComing(c, next, script[1..]);
      PacedCons(start, LatestScheduled(c), due, next, Attempts(next, script[1..]));
    }
  }

  lemma {:induction false} PacedDeadline(start: Time, deadline: Time, times: seq<Time>, k: nat)
    requires Paced(start, deadline, times) && k < |times|
    ensures times[k] <= Max(start + SECOND, deadline) + 16 * SECOND * k
    decreases k
  {
    if k > 0 {
      PacedDeadline(start, deadline, times, k - 1);
      assert Spaced(deadline, times, k);
    }
  }

  /** So the k-th failing attempt (from 0) comes no later than 16 k seconds after the first deadline. */
  lemma AttemptDeadline(c: Claims, start: Time, script: seq<Pass>, k: nat)
    requires c.iat * SECOND <= start && AllFail(c, start, script) && k < |script|
    ensures |Attempts(start, script)| == |script|
    ensures Attempts(start, script)[k] <= Max(start + SECOND, LatestScheduled(c)) + 16 * SECOND * k
  {
    hide ChosenWait, LatestScheduled;
    FailingAttemptsKeepComing(c, start, script);
    PacedDeadline(start, LatestScheduled(c), Attempts(start, script), k);
  }
}
