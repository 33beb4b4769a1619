/** The retry loop of `reconnect`. The outside world of one call is a script with a round per pass of
    the loop; a finite script is a finite prefix of a run, and `Running` says the run has not ended yet. */
module Reconnect {
  import opened Arith
  import opened Backoff

  datatype Config = Config(initial: int64, cap: int64, maxRetries: int)

  /** What one pass of the loop meets: shutdown at the top, the outcome of `attemptConnection`, the outcome
      of the channel join, the jitter drawn, and shutdown while waiting. */
  datatype Round = Round(cancelled: bool, connected: bool, joined: bool, draw: Draw, cancelledInWait: bool)

  datatype Exit =
    | Running
    | InProgress
    | Cancelled
    | CancelledDuringBackoff
    | CancelledDuringChannelJoin
    | MaxRetriesExceeded
    | Reconnected

  /** How a call ended and what it did on the way. */
  datatype Log = Log(exit: Exit, attempts: nat, connectFailures: nat, joinFailures: nat, waits: seq<int>)

  const START := Log(Running, 0, 0, 0, [])

  ghost predicate ValidConfig(c: Config) {
    0 <= c.initial as int < TWO_53 && -TWO_53 < c.cap as int < TWO_53
  }

  ghost predicate ValidScript(script: seq<Round>) {
    forall i :: 0 <= i < |script| ==> ValidDraw(script[i].draw)
  }

  /** The delay scheduled after attempt `a` in round `r`. */
  function Delay(c: Config, a: nat, r: Round, overflow: int): int
    requires a >= 1 && 0 <= c.initial
  {
    Jittered(a, c.initial as nat, c.cap as int, r.draw, overflow)
  }

  /** One pass of the loop, from a log that is still running. */
  function Pass(c: Config, r: Round, overflow: int, l: Log): Log
    requires 0 <= c.initial
  {
    if r.cancelled then l.(exit := Cancelled)
    else
      var a := l.attempts + 1;
      var wait := Delay(c, a, r, overflow);
      if !r.connected then
        if c.maxRetries > 0 && a >= c.maxRetries then
          l.(exit := MaxRetriesExceeded, attempts := a, connectFailures := l.connectFailures + 1)
        else
          l.(exit := if r.cancelledInWait then CancelledDuringBackoff else Running,
             attempts := a, connectFailures := l.connectFailures + 1, waits := l.waits + [wait])
      else if !r.joined then
        l.(exit := if r.cancelledInWait then CancelledDuringChannelJoin else Running,
           attempts := a, joinFailures := l.joinFailures + 1, waits := l.waits + [wait])
      else
        l.(exit := Reconnected, attempts := a)
  }

  function Play(c: Config, script: seq<Round>, overflow: int, l: Log): Log
    requires 0 <= c.initial
  {
    if script == [] || !l.exit.Running? then l
    else Play(c, script[1..], overflow, Pass(c, script[0], overflow, l))
  }

  class Reconnector {
    const config: Config
    var reconnectFlag: bool

    constructor (config: Config)
      ensures this.config == config && !reconnectFlag
    {
      this.config := config;
      reconnectFlag := false;
    }

    /** `reconnect`: refused while another call holds the flag; otherwise the flag is held exactly as long
        as the call runs, and every way out releases it. */
    method Reconnect(script: seq<Round>, overflow: int64) returns (log: Log)
      requires ValidConfig(config) && ValidScript(script)
      modifies this
      ensures old(reconnectFlag) ==> log == START.(exit := InProgress) && reconnectFlag
      ensures !old(reconnectFlag) ==> log == Play(config, script, overflow as int, START)
      ensures !old(reconnectFlag) ==> reconnectFlag == log.exit.Running?
    {
      hide Jittered;
      if reconnectFlag {
        return START.(exit := InProgress);
      }
      reconnectFlag := true;
      log := START;
      var backoff := config.initial;
      var attempt := 0;
      var i := 0;
      while i < |script|
        invariant 0 <= i <= |script|
        invariant reconnectFlag && log.exit.Running? && attempt == log.attempts
        invariant Play(config, script, overflow as int, START) == Play(config, script[i..], overflow as int, log)
      {
        var r := script[i];
        assert script[i..][1..] == script[i + 1..];
        if r.cancelled {
          reconnectFlag := false;
          return log.(exit := Cancelled);
        }
        attempt := attempt + 1;
        if !r.connected {
          if config.maxRetries > 0 && attempt >= config.maxRetries {
            reconnectFlag := false;
            return log.(exit := MaxRetriesExceeded, attempts := attempt, connectFailures := log.connectFailures + 1);
          }
          backoff := CalculateBackoffWithJitter(attempt, config.initial, config.cap, r.draw, overflow);
          log := log.(attempts := attempt, connectFailures := log.connectFailures + 1,
                      waits := log.waits + [backoff as int]);
          if r.cancelledInWait {
            reconnectFlag := false;
            return log.(exit := CancelledDuringBackoff);
          }
        } else if !r.joined {
          backoff := CalculateBackoffWithJitter(attempt, config.initial, config.cap, r.draw, overflow);
          log := log.(attempts := attempt, joinFailures := log.joinFailures + 1, waits := log.waits + [backoff as int]);
          if r.cancelledInWait {
            reconnectFlag := false;
            return log.(exit := CancelledDuringChannelJoin);
          }
        } else {
          reconnectFlag := false;
          return log.(exit := Reconnected, attempts := attempt);
        }
        i := i + 1;
      }
    }
  }

  /** Bookkeeping every reachable log satisfies. */
  ghost predicate Accounted(c: Config, l: Log) {
    var final := if l.exit.MaxRetriesExceeded? || l.exit.Reconnected? then 1 else 0;
    && l.attempts == |l.waits| + final
    && l.connectFailures + l.joinFailures + (if l.exit.Reconnected? then 1 else 0) == l.attempts
    && (c.maxRetries > 0 ==> l.connectFailures <= c.maxRetries)
    && (c.maxRetries > 0 && !l.exit.MaxRetriesExceeded? ==> l.connectFailures < c.maxRetries)
    && (l.exit.MaxRetriesExceeded? ==> c.maxRetries > 0 && l.attempts >= c.maxRetries && l.connectFailures >= 1)
    && (l.exit.MaxRetriesExceeded? && l.joinFailures == 0 ==> l.attempts == c.maxRetries)
    && !l.exit.InProgress?
  }

  lemma {:induction false} PlayAccounts(c: Config, script: seq<Round>, overflow: int, l: Log)
    requires 0 <= c.initial && Accounted(c, l)
    ensures Accounted(c, Play(c, script, overflow, l))
    decreases |script|
  {
    if script != [] && l.exit.Running? {
      PlayAccounts(c, script[1..], overflow, Pass(c, script[0], overflow, l));
    }
  }

  /** With a positive limit N: at most N connection attempts fail however joins fail in between; a run that
      gives up without a failed join made exactly N attempts; and all attempts together number at most N
      plus the failed joins. */
  lemma RetryBound(c: Config, script: seq<Round>, overflow: int)
    requires 0 <= c.initial && c.maxRetries > 0
    ensures var l := Play(c, script, overflow, START);
            && l.connectFailures <= c.maxRetries
            && l.attempts <= c.maxRetries + l.joinFailures
            && (l.exit.MaxRetriesExceeded? ==> l.attempts >= c.maxRetries)
            && (l.exit.MaxRetriesExceeded? && l.joinFailures == 0 ==> l.attempts == l.connectFailures == c.maxRetries)
  {
    PlayAccounts(c, script, overflow, START);
  }

  /** The limit does not bound the attempts as such: with joins failing, any number of them is reached, and
      the loop is still running. */
  lemma {:induction false} JoinFailuresAreUnbounded(c: Config, overflow: int, m: nat, l: Log)
    returns (script: seq<Round>)
    requires 0 <= c.initial && l.exit.Running?
    ensures Play(c, script, overflow, l).exit.Running?
    ensures Play(c, script, overflow, l).attempts == l.attempts + m
    ensures Play(c, script, overflow, l).connectFailures == l.connectFailures
    decreases m
  {
    if m == 0 {
      script := [];
    } else {
      var r := Round(false, true, false, ReadFailed, false);
      var rest := JoinFailuresAreUnbounded(c, overflow, m - 1, Pass(c, r, overflow, l));
      script := [r] + rest;
      assert script[1..] == rest;
    }
  }

  /** No limit (zero or negative) means the loop never gives up. */
  lemma {:induction false} UnlimitedNeverGivesUp(c: Config, script: seq<Round>, overflow: int, l: Log)
    requires 0 <= c.initial && c.maxRetries <= 0 && !l.exit.MaxRetriesExceeded?
    ensures !Play(c, script, overflow, l).exit.MaxRetriesExceeded?
    decreases |script|
  {
    if script != [] && l.exit.Running? {
      UnlimitedNeverGivesUp(c, script[1..], overflow, Pass(c, script[0], overflow, l));
    }
  }

  // How a run ends

  /** A round after which the loop tries again: no shutdown at its top or while waiting, and the connection attempt
      `a` or the join after it failed, the attempt not being the last one allowed. */
  predicate GoesOn(c: Config, r: Round, a: nat) {
    && !r.cancelled && !r.cancelledInWait && !(r.connected && r.joined)
    && (r.connected || c.maxRetries <= 0 || a < c.maxRetries)
  }

  /** The first round, numbered from `done`, after which the loop does not try again; the number of rounds if there
      is none. */
  function FirstStop(c: Config, script: seq<Round>, done: nat): (k: nat)
    ensures k <= |script|
    ensures forall i :: 0 <= i < k ==> GoesOn(c, script[i], done + i + 1)
    ensures k < |script| ==> !GoesOn(c, script[k], done + k + 1)
  {
    if script == [] || !GoesOn(c, script[0], done + 1) then 0 else 1 + FirstStop(c, script[1..], done + 1)
  }

  lemma {:induction false} PlayStops(c: Config, script: seq<Round>, overflow: int, l: Log)
    requires 0 <= c.initial && l.exit.Running?
    ensures var k := FirstStop(c, script, l.attempts);
            var end := Play(c, script, overflow, l);
            if k == |script| then end.exit.Running? && end.attempts == l.attempts + k
            else EndsAs(c, script[k], l.attempts + k, end.exit, end.attempts)
    decreases |script|
  {
    if script != [] {
      var next := Pass(c, script[0], overflow, l);
      if GoesOn(c, script[0], l.attempts + 1) {
        PlayStops(c, script[1..], overflow, next);
      } else {
        assert Play(c, script[1..], overflow, next) == next;
      }
    }
  }

  /** How a last round, met after `done` attempts, ends the call. */
  ghost predicate EndsAs(c: Config, r: Round, done: nat, exit: Exit, attempts: nat) {
    var allowed := c.maxRetries <= 0 || done + 1 < c.maxRetries;
    && (exit.Cancelled? <==> r.cancelled)
    && (exit.Reconnected? <==> !r.cancelled && r.connected && r.joined)
    && (exit.MaxRetriesExceeded? <==> !r.cancelled && !r.connected && !allowed)
    && (exit.CancelledDuringBackoff? <==> !r.cancelled && !r.connected && allowed && r.cancelledInWait)
    && (exit.CancelledDuringChannelJoin? <==> !r.cancelled && r.connected && !r.joined && r.cancelledInWait)
    && attempts == done + (if r.cancelled then 0 else 1)
  }

  /** Which way a call ends, and after how many attempts, told from the rounds alone: it keeps trying exactly as long
      as every round goes on, and the first that does not says how it ends. */
  lemma ExitIsDetermined(c: Config, script: seq<Round>, overflow: int)
    requires 0 <= c.initial
    ensures var (k, end) := (FirstStop(c, script, 0), Play(c, script, overflow, START));
            && (end.exit.Running? <==> forall i :: 0 <= i < |script| ==> GoesOn(c, script[i], i + 1))
            && (k < |script| ==> EndsAs(c, script[k], k, end.exit, end.attempts))
            && (k == |script| ==> end.attempts == |script|)
  {
    PlayStops(c, script, overflow, START);
  }

  /** In particular, without a limit and without shutdown, the call reconnects exactly when some round connects and
      joins, and then with the first that does. */
  lemma ReconnectsAtFirstSuccess(c: Config, script: seq<Round>, overflow: int, k: nat)
    requires 0 <= c.initial && c.maxRetries <= 0 && k < |script| && script[k].connected && script[k].joined
    requires forall i :: 0 <= i < |script| ==> !script[i].cancelled && !script[i].cancelledInWait
    requires forall i :: 0 <= i < k ==> !(script[i].connected && script[i].joined)
    ensures var end := Play(c, script, overflow, START); end.exit.Reconnected? && end.attempts == k + 1
  {
    ExitIsDetermined(c, script, overflow);
    assert !GoesOn(c, script[k], k + 1);
    assert forall i :: 0 <= i < k ==> GoesOn(c, script[i], i + 1);
  }

  /** `w` lies in the band of attempt `a`, as far as the platform lets the schedule reach that attempt. */
  ghost predicate InBand(initial: nat, cap: nat, overflow: int, a: nat, w: int)
    requires a >= 1
  {
    Scaled(initial, a - 1) < TWO_63 || overflow >= cap ==> BandLow(initial, cap, a) <= w <= BandHigh(initial, cap, a)
  }

  /** The i-th wait follows attempt i, so it lies in that attempt's band. */
  ghost predicate WaitsInBands(initial: nat, cap: nat, overflow: int, waits: seq<int>) {
    forall i :: 0 <= i < |waits| ==> InBand(initial, cap, overflow, i + 1, waits[i])
  }

  lemma DelayInBand(c: Config, a: nat, r: Round, overflow: int)
    requires a >= 1 && 0 <= c.initial <= c.cap
    ensures InBand(c.initial as nat, c.cap as nat, overflow, a, Delay(c, a, r, overflow))
  {
    if Scaled(c.initial as nat, a - 1) < TWO_63 || overflow >= c.cap as int {
      JitteredInBand(a, c.initial as nat, c.cap as nat, r.draw, overflow);
    }
  }

  lemma SnocInBands(initial: nat, cap: nat, overflow: int, waits: seq<int>, w: int)
    requires WaitsInBands(initial, cap, overflow, waits) && InBand(initial, cap, overflow, |waits| + 1, w)
    ensures WaitsInBands(initial, cap, overflow, waits + [w])
  {
  }

  lemma {:induction false} PlayKeepsBands(c: Config, script: seq<Round>, overflow: int, l: Log)
    requires 0 <= c.initial <= c.cap && WaitsInBands(c.initial as nat, c.cap as nat, overflow, l.waits)
    requires l.exit.Running? ==> |l.waits| == l.attempts
    ensures WaitsInBands(c.initial as nat, c.cap as nat, overflow, Play(c, script, overflow, l).waits)
    decreases |script|
  {
    if script != [] && l.exit.Running? {
      var w := Delay(c, l.attempts + 1, script[0], overflow);
      DelayInBand(c, l.attempts + 1, script[0], overflow);
      SnocInBands(c.initial as nat, c.cap as nat, overflow, l.waits, w);
      PlayKeepsBands(c, script[1..], overflow, Pass(c, script[0], overflow, l));
    }
  }

  /** A wait in its band is between three and five quarters of the capped delay. */
  lemma BandQuarters(initial: nat, cap: nat, i: nat, w: int)
    requires i >= 1 && initial <= cap
    requires BandLow(initial, cap, i) <= w <= BandHigh(initial, cap, i)
    ensures 3 * Capped(initial, cap, i) <= 4 * w <= 5 * Capped(initial, cap, i)
    ensures initial <= w <= cap
  {
  }

  lemma {:induction false} BandsSum(initial: nat, cap: nat, waits: seq<int>)
    requires initial <= cap
    requires forall i {:trigger waits[i]} :: 0 <= i < |waits| ==>
               BandLow(initial, cap, i + 1) <= waits[i] <= BandHigh(initial, cap, i + 1)
    ensures SumLow(initial, cap, |waits|) <= Sum(waits) <= SumHigh(initial, cap, |waits|)
    ensures 3 * SumCapped(initial, cap, |waits|) <= 4 * Sum(waits) <= 5 * SumCapped(initial, cap, |waits|)
    decreases |waits|
  {
    var k := |waits|;
    if k > 0 {
      BandQuarters(initial, cap, k, waits[k - 1]);
      BandsSum(initial, cap, waits[..k - 1]);
    }
  }

  lemma {:induction false} SumBetween(low: int, high: int, waits: seq<int>)
    requires forall i {:trigger waits[i]} :: 0 <= i < |waits| ==> low <= waits[i] <= high
    ensures |waits| * low <= Sum(waits) <= |waits| * high
    decreases |waits|
  {
    var k := |waits|;
    if k > 0 {
      SumBetween(low, high, waits[..k - 1]);
      assert k * low == (k - 1) * low + low;
      assert k * high == (k - 1) * high + high;
    }
  }

  /** Cumulative waiting: however connect and join failures mix, after k waits the total lies between the sums of
      the lower and the upper ends of the bands, given in closed form; and so within a quarter of the capped
      schedule's sum, whose closed form is geometric up to the cap and linear after it. */
  lemma CumulativeWaiting(c: Config, script: seq<Round>, overflow: int)
    requires 1 <= c.initial <= c.cap
    requires var k := |Play(c, script, overflow, START).waits|;
             k == 0 || Scaled(c.initial as nat, k - 1) < TWO_63 || overflow >= c.cap as int
    ensures var waits := Play(c, script, overflow, START).waits;
            var (initial, cap, k) := (c.initial as nat, c.cap as nat, |waits|);
            && SumLow(initial, cap, k) <= Sum(waits) <= SumHigh(initial, cap, k)
            && SumLow(initial, cap, k) == ClosedLow(initial, cap, k)
            && SumHigh(initial, cap, k) == ClosedHigh(initial, cap, k)
            && 3 * ClosedSum(initial, cap, k) <= 4 * Sum(waits) <= 5 * ClosedSum(initial, cap, k)
  {
    var waits := Play(c, script, overflow, START).waits;
    var (initial, cap, k) := (c.initial as nat, c.cap as nat, |waits|);
    PlayKeepsBands(c, script, overflow, START);
    forall i {:trigger waits[i]} | 0 <= i < k
      ensures BandLow(initial, cap, i + 1) <= waits[i] <= BandHigh(initial, cap, i + 1)
    {
      ScaledMono(initial, i, k - 1);
      assert InBand(initial, cap, overflow, i + 1, waits[i]);
    }
    BandsSum(initial, cap, waits);
    SumCappedClosedForm(initial, cap, k);
    SumBandsClosedForm(initial, cap, k);
  }

  ghost predicate WaitsClamped(c: Config, waits: seq<int>) {
    forall i :: 0 <= i < |waits| ==> c.initial as int <= waits[i] <= c.cap as int
  }

  lemma {:induction false} PlayKeepsClamp(c: Config, script: seq<Round>, overflow: int, l: Log)
    requires 0 <= c.initial <= c.cap && WaitsClamped(c, l.waits)
    ensures WaitsClamped(c, Play(c, script, overflow, l).waits)
    decreases |script|
  {
    if script != [] && l.exit.Running? {
      PlayKeepsClamp(c, script[1..], overflow, Pass(c, script[0], overflow, l));
    }
  }

  /** The clamp needs no such hypothesis: whatever an overflowing product converts to, every wait lies between the
      initial and the maximal delay, and k waits between k of either. */
  lemma WaitingIsClamped(c: Config, script: seq<Round>, overflow: int)
    requires 0 <= c.initial <= c.cap
    ensures var waits := Play(c, script, overflow, START).waits;
            && WaitsClamped(c, waits)
            && |waits| * c.initial as int <= Sum(waits) <= |waits| * c.cap as int
  {
    PlayKeepsClamp(c, script, overflow, START);
    SumBetween(c.initial as int, c.cap as int, Play(c, script, overflow, START).waits);
  }
}
