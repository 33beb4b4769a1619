/** The persisted tokens as a table of rows. Encryption is a round trip and is left out; a database failure
    is a parameter, and rolls the transaction back. */
module TokenStore {
  import opened Arith
  import opened Backoff
  import opened Wrappers

  type Time = int

  datatype Row = Row(token: string, expiresAt: Time, updatedAt: Time)

  datatype SaveError = EmptyToken | ExpiredToken | Database

  /** `WHERE expires_at > now` */
  function Valid(rows: seq<Row>, now: Time): seq<Row> {
    if rows == [] then []
    else (if rows[0].expiresAt > now then [rows[0]] else []) + Valid(rows[1..], now)
  }

  /** What `DELETE ... WHERE expires_at < now` leaves. */
  function Unexpired(rows: seq<Row>, now: Time): seq<Row> {
    if rows == [] then []
    else (if rows[0].expiresAt < now then [] else [rows[0]]) + Unexpired(rows[1..], now)
  }

  /** `ORDER BY updated_at DESC LIMIT 1`; between equal times the first row wins. */
  function Latest(rows: seq<Row>): (r: Option<Row>)
    ensures r.None? <==> rows == []
    ensures r.Some? ==> r.value in rows && forall x :: x in rows ==> x.updatedAt <= r.value.updatedAt
  {
    if rows == [] then None
    else
      var rest := Latest(rows[1..]);
      if rest.Some? && rest.value.updatedAt > rows[0].updatedAt then rest else Some(rows[0])
  }

  function SaveFailure(token: string, expiresAt: Time, now: Time, dbFails: bool): Option<SaveError> {
    if token == "" then Some(EmptyToken)
    else if expiresAt < now then Some(ExpiredToken)
    else if dbFails then Some(Database)
    else None
  }

  class Store {
    var rows: seq<Row>

    constructor ()
      ensures rows == []
    {
      rows := [];
    }

    /** `SaveToken`; `checked` and `written` are its two clock readings. */
    method SaveToken(token: string, expiresAt: Time, checked: Time, written: Time, dbFails: bool)
      returns (error: Option<SaveError>)
      modifies this
      ensures error == SaveFailure(token, expiresAt, checked, dbFails)
      ensures error.None? <==> token != "" && checked <= expiresAt && !dbFails
      ensures error == Some(EmptyToken) <==> token == ""
      ensures error == Some(ExpiredToken) <==> token != "" && expiresAt < checked
      ensures rows == if error.None? then old(rows) + [Row(token, expiresAt, written)] else old(rows)
    {
      if token == "" {
        return Some(EmptyToken);
      }
      if expiresAt < checked {
        return Some(ExpiredToken);
      }
      if dbFails {
        return Some(Database);
      }
      rows := rows + [Row(token, expiresAt, written)];
      return None;
    }

    /** `LoadToken`: a valid row no valid row was saved after, if there is a valid row at all. */
    method LoadToken(now: Time) returns (found: Option<(string, Time)>)
      ensures found == Loaded(rows, now)
      ensures found.None? <==> forall r :: r in rows ==> r.expiresAt <= now
      ensures found.Some? ==> exists r :: r in rows && now < r.expiresAt && found.value == (r.token, r.expiresAt)
                                  && forall x :: x in rows && now < x.expiresAt ==> x.updatedAt <= r.updatedAt
    {
      ValidMembers(rows, now);
      var latest := Latest(Valid(rows, now));
      if latest.None? {
        return None;
      }
      return Some((latest.value.token, latest.value.expiresAt));
    }

    /** `CleanupExpiredTokens` */
    method CleanupExpiredTokens(now: Time, dbFails: bool) returns (ok: bool)
      modifies this
      ensures ok == !dbFails
      ensures rows == if ok then Unexpired(old(rows), now) else old(rows)
    {
      if dbFails {
        return false;
      }
      rows := Unexpired(rows, now);
      return true;
    }

    /** `Stats` */
    method Stats(now: Time) returns (total: nat, valid: nat, expired: nat)
      ensures total == |rows| && valid + expired == total
      ensures valid == |Valid(rows, now)|
      ensures expired == 0 <==> forall r :: r in rows ==> r.expiresAt > now
    {
      ValidCount(rows, now);
      total := |rows|;
      valid := |Valid(rows, now)|;
      expired := total - valid;
    }

    /** `persistTokenWithRetry`: one attempt per entry of the lists; shutdown is noticed only between
        attempts. The sleeps double from 100 ms and stop growing at 2 s. */
    method PersistTokenWithRetry(token: string, expiresAt: Time, clock: seq<(Time, Time)>, dbFails: seq<bool>,
                                 shutdown: seq<bool>, maxRetries: nat)
      returns (saved: bool, attempts: nat, sleeps: seq<int>)
      requires |clock| == |dbFails| == |shutdown| == maxRetries
      modifies this
      ensures attempts <= maxRetries
      ensures saved ==>
        attempts >= 1 && SaveFailure(token, expiresAt, clock[attempts - 1].0, dbFails[attempts - 1]).None?
      ensures saved ==> rows == old(rows) + [Row(token, expiresAt, clock[attempts - 1].1)]
      ensures !saved ==> rows == old(rows)
      ensures forall i :: 0 <= i < attempts - (if saved then 1 else 0) ==>
                SaveFailure(token, expiresAt, clock[i].0, dbFails[i]).Some?
      ensures !saved ==> attempts == maxRetries || (attempts >= 1 && shutdown[attempts - 1])
      ensures |sleeps| == if attempts == 0 then 0 else attempts - 1
      ensures forall i :: 0 <= i < |sleeps| ==>
                sleeps[i] == Capped(100_000_000, 2_000_000_000, i + 1) && !shutdown[i]
    {
      var backoff := 100_000_000;
      attempts := 0;
      sleeps := [];
      var attempt := 1;
      while attempt <= maxRetries
        invariant 1 <= attempt <= maxRetries + 1 && attempts == attempt - 1
        invariant rows == old(rows)
        invariant attempt <= maxRetries ==> backoff == Capped(100_000_000, 2_000_000_000, attempt)
        invariant |sleeps| == if attempts == 0 then 0 else if attempts < maxRetries then attempts else attempts - 1
        invariant forall i :: 0 <= i < attempts ==> SaveFailure(token, expiresAt, clock[i].0, dbFails[i]).Some?
        invariant forall i :: 0 <= i < |sleeps| ==>
                    sleeps[i] == Capped(100_000_000, 2_000_000_000, i + 1) && !shutdown[i]
      {
        attempts := attempt;
        var error := SaveToken(token, expiresAt, clock[attempt - 1].0, clock[attempt - 1].1, dbFails[attempt - 1]);
        if error.None? {
          return true, attempts, sleeps;
        }
        if attempt < maxRetries {
          if shutdown[attempt - 1] {
            return false, attempts, sleeps;
          }
          sleeps := sleeps + [backoff];
          CappedDoubles(100_000_000, 2_000_000_000, attempt);
          backoff := backoff * 2;
          if backoff > 2_000_000_000 {
            backoff := 2_000_000_000;
          }
        }
        attempt := attempt + 1;
      }
      saved := false;
    }
  }

  /** Doubling a capped delay and capping again gives the next one. */
  lemma CappedDoubles(initial: nat, cap: nat, i: nat)
    requires i >= 1
    ensures Capped(initial, cap, i + 1) == Min(2 * Capped(initial, cap, i), cap)
  {
  }

  function Loaded(rows: seq<Row>, now: Time): Option<(string, Time)> {
    var latest := Latest(Valid(rows, now));
    if latest.None? then None else Some((latest.value.token, latest.value.expiresAt))
  }

  lemma {:induction false} ValidMembers(rows: seq<Row>, now: Time)
    ensures forall r :: r in Valid(rows, now) <==> r in rows && r.expiresAt > now
  {
    if rows != [] {
      ValidMembers(rows[1..], now);
    }
  }

  lemma {:induction false} ValidCount(rows: seq<Row>, now: Time)
    ensures |Valid(rows, now)| <= |rows|
    ensures |Valid(rows, now)| == |rows| <==> forall r :: r in rows ==> r.expiresAt > now
  {
    if rows != [] {
      ValidCount(rows[1..], now);
      assert rows[0] in rows;
      assert forall r :: r in rows ==> r == rows[0] || r in rows[1..];
    }
  }

  /** After a cleanup, what `Stats` at the same instant still calls expired are exactly the rows whose
      expiry is that instant: cleanup compares strictly, the count does not. */
  lemma {:induction false} CleanupLeavesBoundary(rows: seq<Row>, now: Time)
    ensures forall r :: r in Unexpired(rows, now) <==> r in rows && r.expiresAt >= now
    ensures |Unexpired(rows, now)| - |Valid(Unexpired(rows, now), now)| == Boundary(rows, now)
  {
    if rows != [] {
      CleanupLeavesBoundary(rows[1..], now);
      ValidAppend(if rows[0].expiresAt < now then [] else [rows[0]], Unexpired(rows[1..], now), now);
    }
  }

  /** The number of rows that expire at this very instant. */
  ghost function Boundary(rows: seq<Row>, now: Time): nat {
    if rows == [] then 0 else (if rows[0].expiresAt == now then 1 else 0) + Boundary(rows[1..], now)
  }

  lemma {:induction false} ValidAppend(a: seq<Row>, b: seq<Row>, now: Time)
    ensures Valid(a + b, now) == Valid(a, now) + Valid(b, now)
  {
    if a == [] {
      assert a + b == b;
    } else {
      assert (a + b)[1..] == a[1..] + b;
      ValidAppend(a[1..], b, now);
    }
  }

  /** A past cleanup does not touch what is valid now. */
  lemma {:induction false} CleanupKeepsValid(rows: seq<Row>, cleaned: Time, now: Time)
    requires cleaned <= now
    ensures Valid(Unexpired(rows, cleaned), now) == Valid(rows, now)
  {
    if rows != [] {
      CleanupKeepsValid(rows[1..], cleaned, now);
      ValidAppend(if rows[0].expiresAt < cleaned then [] else [rows[0]], Unexpired(rows[1..], cleaned), now);
    }
  }

  // ---------------------------------------------------------------------------------------------
  // Cleanup cannot be observed
  // ---------------------------------------------------------------------------------------------

  datatype Op =
    | Save(token: string, expiresAt: Time, checked: Time, written: Time, dbFails: bool)
    | Load(now: Time)
    | Cleanup(now: Time, dbFails: bool)
    | Stats(now: Time)

  datatype Observation =
    | SaveResult(error: Option<SaveError>)
    | LoadResult(found: Option<(string, Time)>)
    | CleanupResult(ok: bool)
    | StatsResult(total: int, valid: int, expired: int)

  function Observe(rows: seq<Row>, op: Op): Observation {
    match op
    case Save(token, expiresAt, checked, _, dbFails) => SaveResult(SaveFailure(token, expiresAt, checked, dbFails))
    case Load(now) => LoadResult(Loaded(rows, now))
    case Cleanup(_, dbFails) => CleanupResult(!dbFails)
    case Stats(now) => StatsResult(|rows|, |Valid(rows, now)|, |rows| - |Valid(rows, now)|)
  }

  /** The table after an operation; `cleaning` says whether cleanup deletes anything. */
  function Effect(rows: seq<Row>, op: Op, cleaning: bool): seq<Row> {
    match op
    case Save(token, expiresAt, checked, written, dbFails) =>
      if SaveFailure(token, expiresAt, checked, dbFails).None? then rows + [Row(token, expiresAt, written)] else rows
    case Load(_) => rows
    case Stats(_) => rows
    case Cleanup(now, dbFails) => if cleaning && !dbFails then Unexpired(rows, now) else rows
  }

  /** A row is appended exactly for a token that is not empty and has not expired when it is checked, unless the
      database fails; nothing else a save does touches the table. */
  lemma SavesWhatIsAlive(rows: seq<Row>, op: Op, cleaning: bool)
    requires op.Save?
    ensures Effect(rows, op, cleaning) ==
            if op.token != "" && op.checked <= op.expiresAt && !op.dbFails
            then rows + [Row(op.token, op.expiresAt, op.written)] else rows
    ensures Observe(rows, op) == SaveResult(None) <==> op.token != "" && op.checked <= op.expiresAt && !op.dbFails
  {
  }

  /** Everything a caller sees over a sequence of operations. */
  function Observations(rows: seq<Row>, ops: seq<Op>, cleaning: bool): seq<Observation>
    decreases |ops|
  {
    if ops == [] then []
    else [Observe(rows, ops[0])] + Observations(Effect(rows, ops[0], cleaning), ops[1..], cleaning)
  }

  function Final(rows: seq<Row>, ops: seq<Op>, cleaning: bool): seq<Row>
    decreases |ops|
  {
    if ops == [] then rows else Final(Effect(rows, ops[0], cleaning), ops[1..], cleaning)
  }

  function LastReading(op: Op): Time {
    match op
    case Save(_, _, _, written, _) => written
    case Load(now) => now
    case Cleanup(now, _) => now
    case Stats(now) => now
  }

  ghost predicate ClockOrdered(start: Time, ops: seq<Op>)
    decreases |ops|
  {
    ops != [] ==>
      && start <= (if ops[0].Save? then ops[0].checked else ops[0].now)
      && (ops[0].Save? ==> ops[0].checked <= ops[0].written)
      && ClockOrdered(LastReading(ops[0]), ops[1..])
  }

  /** From time `start` on, the table and the log offer the same valid rows in the same order. */
  ghost predicate SameFuture(table: seq<Row>, log: seq<Row>, start: Time) {
    forall now :: start <= now ==> Valid(table, now) == Valid(log, now)
  }

  lemma EffectKeepsFuture(table: seq<Row>, log: seq<Row>, start: Time, op: Op)
    requires SameFuture(table, log, start) && ClockOrdered(start, [op])
    ensures SameFuture(Effect(table, op, true), Effect(log, op, false), LastReading(op))
  {
    var (table', log') := (Effect(table, op, true), Effect(log, op, false));
    forall now | LastReading(op) <= now
      ensures Valid(table', now) == Valid(log', now)
    {
      assert Valid(table, now) == Valid(log, now);
      match op
      case Save(token, expiresAt, _, written, _) =>
        ValidAppend(table, [Row(token, expiresAt, written)], now);
        ValidAppend(log, [Row(token, expiresAt, written)], now);
      case Load(_) =>
      case Stats(_) =>
      case Cleanup(cleaned, _) =>
        CleanupKeepsValid(table, cleaned, now);
    }
  }

  /** How many rows the cleanups of a run delete. */
  function Deleted(rows: seq<Row>, ops: seq<Op>): int
    decreases |ops|
  {
    if ops == [] then 0
    else
      var left := Effect(rows, ops[0], true);
      (if ops[0].Cleanup? then |rows| - |left| else 0) + Deleted(left, ops[1..])
  }

  /** The table shows what the log shows, except that the counts of all rows and of expired ones fall short of the
      log's by the rows deleted. */
  ghost predicate SameBut(deleted: int, table: Observation, log: Observation) {
    if table.StatsResult? && log.StatsResult? then
      table.valid == log.valid && table.total + deleted == log.total && table.expired + deleted == log.expired
    else table == log
  }

  lemma {:induction false} CleanupShowsInCountsOnly(
      table: seq<Row>, log: seq<Row>, start: Time, ops: seq<Op>, k: nat)
    requires SameFuture(table, log, start) && ClockOrdered(start, ops) && k < |ops|
    ensures |Observations(table, ops, true)| == |Observations(log, ops, false)| == |ops|
    ensures SameBut(|log| - |table| + Deleted(table, ops[..k]),
                    Observations(table, ops, true)[k], Observations(log, ops, false)[k])
    decreases |ops|
  {
    var (op, rest) := (ops[0], ops[1..]);
    var (table', log') := (Effect(table, op, true), Effect(log, op, false));
    ObservationsCount(table, ops, true);
    ObservationsCount(log, ops, false);
    if k == 0 {
      assert SameFuture(table, log, start);
    } else {
      EffectKeepsFuture(table, log, start, op);
      CleanupShowsInCountsOnly(table', log', LastReading(op), rest, k - 1);
      assert ops[..k][1..] == rest[..k - 1];
    }
  }

  lemma {:induction false} ObservationsCount(rows: seq<Row>, ops: seq<Op>, cleaning: bool)
    ensures |Observations(rows, ops, cleaning)| == |ops|
    decreases |ops|
  {
    if ops != [] {
      ObservationsCount(Effect(rows, ops[0], cleaning), ops[1..], cleaning);
    }
  }

  /** Cleanup is unobservable but for two counts: from the same rows, over any operations under a clock that never
      runs backwards, every save, load and cleanup result and every count of valid rows is the one an append-only
      log gives; the counts of all rows and of expired ones fall short by exactly the rows deleted before. */
  lemma CleanupUnobservable(rows: seq<Row>, start: Time, ops: seq<Op>)
    requires ClockOrdered(start, ops)
    ensures |Observations(rows, ops, true)| == |Observations(rows, ops, false)| == |ops|
    ensures forall k :: 0 <= k < |ops| ==>
      SameBut(Deleted(rows, ops[..k]), Observations(rows, ops, true)[k], Observations(rows, ops, false)[k])
  {
    ObservationsCount(rows, ops, true);
    ObservationsCount(rows, ops, false);
    forall k | 0 <= k < |ops|
      ensures SameBut(Deleted(rows, ops[..k]), Observations(rows, ops, true)[k], Observations(rows, ops, false)[k])
    {
      CleanupShowsInCountsOnly(rows, rows, start, ops, k);
    }
  }

  ghost predicate SavedInOrder(rows: seq<Row>) {
    forall i, j :: 0 <= i < j < |rows| ==> rows[i].updatedAt < rows[j].updatedAt
  }

  /** The most recently appended row still valid, scanning backwards. */
  function LastValid(rows: seq<Row>, now: Time): Option<Row> {
    if rows == [] then None
    else if rows[|rows| - 1].expiresAt > now then Some(rows[|rows| - 1])
    else LastValid(rows[..|rows| - 1], now)
  }

  lemma ValidLast(log: seq<Row>, now: Time)
    requires log != []
    ensures Valid(log, now) ==
            Valid(log[..|log| - 1], now) + (if log[|log| - 1].expiresAt > now then [log[|log| - 1]] else [])
  {
    var n := |log| - 1;
    assert log == log[..n] + [log[n]];
    ValidAppend(log[..n], [log[n]], now);
  }

  lemma EarlierIsOlder(log: seq<Row>, now: Time)
    requires SavedInOrder(log) && log != []
    ensures forall x :: x in Valid(log[..|log| - 1], now) ==> x.updatedAt < log[|log| - 1].updatedAt
  {
    ValidMembers(log[..|log| - 1], now);
  }

  /** With strictly increasing save times a load returns the last saved token that is still valid. */
  lemma {:induction false} LoadIsLastSaved(log: seq<Row>, now: Time)
    requires SavedInOrder(log)
    ensures Latest(Valid(log, now)) == LastValid(log, now)
    decreases |log|
  {
    if log == [] {
    } else {
      var n := |log| - 1;
      ValidLast(log, now);
      if log[n].expiresAt > now {
        EarlierIsOlder(log, now);
        LatestOfSnoc(Valid(log[..n], now), log[n]);
      } else {
        assert Valid(log, now) == Valid(log[..n], now);
        LoadIsLastSaved(log[..n], now);
      }
    }
  }

  lemma LatestOfSnoc(rows: seq<Row>, r: Row)
    requires forall x :: x in rows ==> x.updatedAt < r.updatedAt
    ensures Latest(rows + [r]) == Some(r)
  {
    var l := Latest(rows + [r]).value;
    assert r in rows + [r];
    assert l in rows || l == r;
  }

  ghost predicate SavesIncrease(last: Time, ops: seq<Op>)
    decreases |ops|
  {
    ops != [] ==>
      if ops[0].Save? then last < ops[0].written && SavesIncrease(ops[0].written, ops[1..])
      else SavesIncrease(last, ops[1..])
  }

  lemma {:induction false} LogStaysInOrder(log: seq<Row>, last: Time, ops: seq<Op>)
    requires SavedInOrder(log) && (forall r :: r in log ==> r.updatedAt <= last) && SavesIncrease(last, ops)
    ensures SavedInOrder(Final(log, ops, false))
    decreases |ops|
  {
    if ops != [] {
      var log' := Effect(log, ops[0], false);
      assert forall i :: 0 <= i < |log| ==> log[i] in log;
      LogStaysInOrder(log', if ops[0].Save? then ops[0].written else last, ops[1..]);
    }
  }

  lemma {:induction false} FutureAfter(table: seq<Row>, log: seq<Row>, start: Time, ops: seq<Op>)
    requires SameFuture(table, log, start) && ClockOrdered(start, ops)
    ensures SameFuture(Final(table, ops, true), Final(log, ops, false),
                       if ops == [] then start else LastReading(ops[|ops| - 1]))
    decreases |ops|
  {
    if ops != [] {
      EffectKeepsFuture(table, log, start, ops[0]);
      FutureAfter(Effect(table, ops[0], true), Effect(log, ops[0], false), LastReading(ops[0]), ops[1..]);
    }
  }

  /** From an empty store, after any operations under an orderly clock, a load at any later time returns the
      last token ever saved whose expiry is still ahead, cleanups or not. */
  lemma LoadAfterAnyRun(ops: seq<Op>, start: Time, now: Time)
    requires ClockOrdered(start, ops) && SavesIncrease(start - 1, ops)
    requires now >= if ops == [] then start else LastReading(ops[|ops| - 1])
    ensures Latest(Valid(Final([], ops, true), now)) == LastValid(Final([], ops, false), now)
  {
    FutureAfter([], [], start, ops);
    LogStaysInOrder([], start - 1, ops);
    LoadIsLastSaved(Final([], ops, false), now);
  }
}
