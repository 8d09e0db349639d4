/**
 The durable rate limiter: a table of admissions, one statement a step. `now` is the caller's
 clock in seconds, read before its statement runs.
 */
module RateTable {

  type Time = t: int | t > 0 witness 1

  /** The hourly cleanup keeps this many seconds. */
  const RETENTION := 3600

  datatype Row = Row(key: string, ts: Time)

  /**
   The statements: the conditional insert, the two deletions that make room, and the one that
   forgives a key. A status is a `Forget` and later a query that changes nothing.
   */
  datatype Event =
    | Attempt(key: string, limit: nat, window: nat, now: Time)
    | Forget(key: string, window: nat, now: Time)
    | Cleanup(now: Time)
    | Clear(key: string)

  /** The table, and every row put into it since its key was last cleared. */
  datatype State = State(rows: seq<Row>, admitted: seq<Row>)

  /** Rows of a key stamped at `low` or later. */
  function CountFrom(rows: seq<Row>, key: string, low: int): nat {
    if rows == [] then 0
    else
      var row := rows[|rows| - 1];
      CountFrom(rows[..|rows| - 1], key, low) + (if row.key == key && row.ts >= low then 1 else 0)
  }

  /** Rows of a key stamped within a closed interval. */
  function CountIn(rows: seq<Row>, key: string, low: int, high: int): nat {
    if rows == [] then 0
    else
      var row := rows[|rows| - 1];
      CountIn(rows[..|rows| - 1], key, low, high) + (if row.key == key && low <= row.ts <= high then 1 else 0)
  }

  function OldestFrom(rows: seq<Row>, key: string, low: int): (oldest: int)
    requires CountFrom(rows, key, low) > 0
    ensures oldest >= low && oldest > 0
    ensures CountFrom(rows, key, oldest) == CountFrom(rows, key, low) > CountFrom(rows, key, oldest + 1)
  {
    var init, row := rows[..|rows| - 1], rows[|rows| - 1];
    if CountFrom(init, key, low) == 0 then
      CountMonotone(init, key, low, row.ts);
      CountMonotone(init, key, low, row.ts + 1);
      row.ts
    else
      var before := OldestFrom(init, key, low);
      if row.key == key && low <= row.ts < before then
        CountMonotone(init, key, low, row.ts);
        CountMonotone(init, key, row.ts, before);
        CountMonotone(init, key, row.ts, row.ts + 1);
        row.ts
      else before
  }

  /** Deletes a key's rows stamped before `low`. */
  function Purge(rows: seq<Row>, key: string, low: int): seq<Row> {
    if rows == [] then []
    else
      var row := rows[|rows| - 1];
      Purge(rows[..|rows| - 1], key, low) + (if row.key == key && row.ts < low then [] else [row])
  }

  function PurgeAll(rows: seq<Row>, low: int): seq<Row> {
    if rows == [] then []
    else PurgeAll(rows[..|rows| - 1], low) + (if rows[|rows| - 1].ts < low then [] else [rows[|rows| - 1]])
  }

  function Without(rows: seq<Row>, key: string): seq<Row> {
    if rows == [] then []
    else Without(rows[..|rows| - 1], key) + (if rows[|rows| - 1].key == key then [] else [rows[|rows| - 1]])
  }

  predicate Allowed(rows: seq<Row>, e: Event)
    requires e.Attempt?
  {
    CountFrom(rows, e.key, e.now - e.window) < e.limit
  }

  function Step(s: State, e: Event): State {
    match e
    case Attempt(key, limit, window, now) =>
      if Allowed(s.rows, e) then State(s.rows + [Row(key, now)], s.admitted + [Row(key, now)]) else s
    case Forget(key, window, now) => s.(rows := Purge(s.rows, key, now - window))
    case Cleanup(now) => s.(rows := PurgeAll(s.rows, now - RETENTION))
    case Clear(key) => State(Without(s.rows, key), Without(s.admitted, key))
  }

  function Run(s: State, events: seq<Event>): State {
    if events == [] then s else Step(Run(s, events[..|events| - 1]), events[|events| - 1])
  }

  /** The oldest row a query counts, or the time of the query. */
  function Oldest(rows: seq<Row>, key: string, window: nat, now: Time): int {
    if CountFrom(rows, key, now - window) > 0 then OldestFrom(rows, key, now - window) else now
  }

  /** What asking for a key's status answers, on the table its query sees. */
  function RetryAfter(rows: seq<Row>, key: string, limit: nat, window: nat, now: Time): int {
    var oldest := Oldest(rows, key, window, now);
    if CountFrom(rows, key, now - window) < limit then 0
    else if oldest + window - now + 1 > 1 then oldest + window - now + 1
    else 1
  }

  class Table {
    var rows: seq<Row>
    ghost var admitted: seq<Row>

    ghost function Value(): State
      reads this
    {
      State(rows, admitted)
    }

    constructor ()
      ensures Value() == State([], [])
    {
      rows, admitted := [], [];
    }

    /** One insert whose condition counts the key's rows in the window. */
    method RateLimit(key: string, limit: nat, window: nat, now: Time) returns (ok: bool)
      modifies this
      ensures Value() == Step(old(Value()), Attempt(key, limit, window, now))
      ensures ok <==> Allowed(old(rows), Attempt(key, limit, window, now))
    {
      ok := CountFrom(rows, key, now - window) < limit;
      if ok {
        rows := rows + [Row(key, now)];
        admitted := admitted + [Row(key, now)];
      }
    }

    method Forget(key: string, window: nat, now: Time)
      modifies this
      ensures Value() == Step(old(Value()), Event.Forget(key, window, now))
    {
      rows := Purge(rows, key, now - window);
    }

    /** The query of a status changes nothing. */
    method Query(key: string, limit: nat, window: nat, now: Time) returns (limited: bool, count: nat, retryAfter: int)
      ensures count == CountFrom(rows, key, now - window) && limited == (count >= limit)
      ensures retryAfter == RetryAfter(rows, key, limit, window, now)
    {
      count := CountFrom(rows, key, now - window);
      var oldest := now;
      if count > 0 {
        oldest := OldestFrom(rows, key, now - window);
      }
      limited := count >= limit;
      retryAfter := 0;
      if limited {
        retryAfter := if oldest + window - now + 1 > 1 then oldest + window - now + 1 else 1;
      }
    }

    /** Deletion and query are two statements; `meanwhile` is what other callers' statements do between them. */
    method Status(key: string, limit: nat, window: nat, now: Time, meanwhile: seq<Event>)
      returns (limited: bool, count: nat, retryAfter: int)
      modifies this
      ensures Value() == Run(Step(old(Value()), Event.Forget(key, window, now)), meanwhile)
      ensures count == CountFrom(rows, key, now - window) && limited == (count >= limit)
      ensures retryAfter == RetryAfter(rows, key, limit, window, now)
    {
      Forget(key, window, now);
      Others(meanwhile);
      limited, count, retryAfter := Query(key, limit, window, now);
    }

    method Others(events: seq<Event>)
      modifies this
      ensures Value() == Run(old(Value()), events)
    {
      for i := 0 to |events|
        invariant Value() == Run(old(Value()), events[..i])
      {
        assert events[..i + 1][..i] == events[..i];
        match events[i] {
          case Attempt(key, limit, window, now) =>
            var _ := RateLimit(key, limit, window, now);
          case Forget(key, window, now) => Forget(key, window, now);
          case Cleanup(now) => CleanUp(now);
          case Clear(key) => ClearKey(key);
        }
      }
      assert events[..|events|] == events;
    }

    /** After a successful login the key's failures are forgiven. */
    method ClearKey(key: string)
      modifies this
      ensures Value() == Step(old(Value()), Clear(key))
    {
      rows, admitted := Without(rows, key), Without(admitted, key);
    }

    method CleanUp(now: Time)
      modifies this
      ensures Value() == Step(old(Value()), Cleanup(now))
    {
      rows := PurgeAll(rows, now - RETENTION);
    }
  }

  // ----- Counting -----

  lemma {:induction false} CountMonotone(rows: seq<Row>, key: string, low: int, higher: int)
    requires low <= higher
    ensures CountFrom(rows, key, higher) <= CountFrom(rows, key, low)
  {
    if rows == [] {
    } else {
      CountMonotone(rows[..|rows| - 1], key, low, higher);
    }
  }

  lemma CountSnoc(rows: seq<Row>, row: Row, key: string, low: int)
    ensures CountFrom(rows + [row], key, low)
         == CountFrom(rows, key, low) + if row.key == key && row.ts >= low then 1 else 0
  {
    assert (rows + [row])[..|rows|] == rows;
  }

  lemma CountInSnoc(rows: seq<Row>, row: Row, key: string, low: int, high: int)
    ensures CountIn(rows + [row], key, low, high)
         == CountIn(rows, key, low, high) + if row.key == key && low <= row.ts <= high then 1 else 0
  {
    assert (rows + [row])[..|rows|] == rows;
  }

  lemma {:induction false} CountInBelow(rows: seq<Row>, key: string, low: int, high: int)
    ensures CountIn(rows, key, low, high) <= CountFrom(rows, key, low)
    ensures (forall row <- rows :: row.ts <= high) ==> CountIn(rows, key, low, high) == CountFrom(rows, key, low)
  {
    if rows == [] {
    } else {
      var init := rows[..|rows| - 1];
      CountInBelow(init, key, low, high);
      assert forall row <- init :: row in rows;
    }
  }

  lemma {:induction false} PurgeKeepsCount(rows: seq<Row>, purged: string, cutoff: int, key: string, low: int)
    requires purged != key || cutoff <= low
    ensures CountFrom(Purge(rows, purged, cutoff), key, low) == CountFrom(rows, key, low)
  {
    if rows == [] {
    } else {
      var init, row := rows[..|rows| - 1], rows[|rows| - 1];
      PurgeKeepsCount(init, purged, cutoff, key, low);
      if row.key == purged && row.ts < cutoff {
        assert Purge(rows, purged, cutoff) == Purge(init, purged, cutoff);
      } else {
        CountSnoc(Purge(init, purged, cutoff), row, key, low);
      }
    }
  }

  lemma {:induction false} PurgeAllKeepsCount(rows: seq<Row>, cutoff: int, key: string, low: int)
    requires cutoff <= low
    ensures CountFrom(PurgeAll(rows, cutoff), key, low) == CountFrom(rows, key, low)
  {
    if rows == [] {
    } else {
      var init, row := rows[..|rows| - 1], rows[|rows| - 1];
      PurgeAllKeepsCount(init, cutoff, key, low);
      if row.ts < cutoff {
        assert PurgeAll(rows, cutoff) == PurgeAll(init, cutoff);
      } else {
        CountSnoc(PurgeAll(init, cutoff), row, key, low);
      }
    }
  }

  lemma {:induction false} WithoutCounts(rows: seq<Row>, cleared: string, key: string, low: int, high: int)
    ensures CountFrom(Without(rows, cleared), key, low) == if cleared == key then 0 else CountFrom(rows, key, low)
    ensures CountIn(Without(rows, cleared), key, low, high)
         == if cleared == key then 0 else CountIn(rows, key, low, high)
  {
    if rows == [] {
    } else {
      var init, row := rows[..|rows| - 1], rows[|rows| - 1];
      WithoutCounts(init, cleared, key, low, high);
      if row.key == cleared {
        assert Without(rows, cleared) == Without(init, cleared);
      } else {
        CountSnoc(Without(init, cleared), row, key, low);
        CountInSnoc(Without(init, cleared), row, key, low, high);
      }
    }
  }

  lemma PurgeSnoc(rows: seq<Row>, row: Row, key: string, cutoff: int)
    ensures Purge(rows + [row], key, cutoff)
         == Purge(rows, key, cutoff) + if row.key == key && row.ts < cutoff then [] else [row]
    ensures PurgeAll(rows + [row], cutoff) == PurgeAll(rows, cutoff) + if row.ts < cutoff then [] else [row]
  {
    assert (rows + [row])[..|rows|] == rows;
  }

  lemma PurgeNothing(key: string, cutoff: int)
    ensures Purge([], key, cutoff) == [] == PurgeAll([], cutoff)
  {
  }

  /** Deleting treats each row by itself, takes exactly those behind the cutoff, and leaves the others in order. */
  lemma {:induction false} PurgeConcat(a: seq<Row>, b: seq<Row>, key: string, cutoff: int)
    ensures Purge(a + b, key, cutoff) == Purge(a, key, cutoff) + Purge(b, key, cutoff)
    ensures PurgeAll(a + b, cutoff) == PurgeAll(a, cutoff) + PurgeAll(b, cutoff)
  {
    hide Purge, PurgeAll;
    if b == [] {
      PurgeNothing(key, cutoff);
      assert a + b == a;
    } else {
      var init, last := b[..|b| - 1], b[|b| - 1];
      PurgeConcat(a, init, key, cutoff);
      assert a + b == a + init + [last] && b == init + [last];
      PurgeSnoc(a + init, last, key, cutoff);
      PurgeSnoc(init, last, key, cutoff);
    }
  }

  lemma {:induction false} PurgeLeavesNone(rows: seq<Row>, key: string, cutoff: int)
    ensures forall row <- Purge(rows, key, cutoff) :: row in rows && !(row.key == key && row.ts < cutoff)
    ensures forall row <- PurgeAll(rows, cutoff) :: row in rows && row.ts >= cutoff
  {
    if rows == [] {
    } else {
      PurgeLeavesNone(rows[..|rows| - 1], key, cutoff);
    }
  }

  /** After a cleanup no row is left that is older than an hour, of any key. */
  lemma CleanupLeavesAnHour(s: State, now: Time)
    ensures forall row <- Step(s, Cleanup(now)).rows :: row.ts >= now - 3600
    ensures forall row <- Step(s, Cleanup(now)).rows :: row in s.rows
  {
    PurgeLeavesNone(s.rows, "", now - RETENTION);
  }

  // ----- What a run keeps -----

  /** The event deletes no row of the key stamped at `low` or later, unless it forgives the key. */
  predicate Spares(e: Event, key: string, low: int) {
    match e
    case Attempt(_, _, _, _) => true
    case Forget(asked, window, now) => asked == key ==> now - window <= low
    case Cleanup(now) => now - RETENTION <= low
    case Clear(_) => true
  }

  ghost predicate AllSpare(events: seq<Event>, key: string, low: int) {
    forall e <- events :: Spares(e, key, low)
  }

  lemma StepAgrees(s: State, e: Event, key: string, low: int)
    requires CountFrom(s.rows, key, low) == CountFrom(s.admitted, key, low) && Spares(e, key, low)
    ensures CountFrom(Step(s, e).rows, key, low) == CountFrom(Step(s, e).admitted, key, low)
  {
    hide CountFrom, CountIn, Purge, PurgeAll, Without;
    match e
    case Attempt(k, _, _, now) =>
      CountSnoc(s.rows, Row(k, now), key, low);
      CountSnoc(s.admitted, Row(k, now), key, low);
    case Forget(k, window, now) => PurgeKeepsCount(s.rows, k, now - window, key, low);
    case Cleanup(now) => PurgeAllKeepsCount(s.rows, now - RETENTION, key, low);
    case Clear(k) =>
      WithoutCounts(s.rows, k, key, low, low);
      WithoutCounts(s.admitted, k, key, low, low);
  }

  lemma {:induction false} TableAgrees(events: seq<Event>, key: string, low: int)
    requires AllSpare(events, key, low)
    ensures var s := Run(State([], []), events);
            CountFrom(s.rows, key, low) == CountFrom(s.admitted, key, low)
  {
    hide Step;
    if events == [] {
    } else {
      TableAgrees(events[..|events| - 1], key, low);
      StepAgrees(Run(State([], []), events[..|events| - 1]), events[|events| - 1], key, low);
    }
  }

  /** Whoever uses the key uses it with no higher limit and no shorter window. */
  ghost predicate Within(events: seq<Event>, key: string, limit: nat, window: nat) {
    forall e <- events ::
      && (e.Attempt? && e.key == key ==> e.limit <= limit && e.window >= window)
      && (e.Forget? && e.key == key ==> e.window >= window)
  }

  predicate Deletes(e: Event) { e.Forget? || e.Cleanup? }

  /** No attempt on the key is stamped before a deletion that ran earlier. */
  ghost predicate PurgesPast(events: seq<Event>, key: string) {
    forall i, j :: 0 <= i < j < |events| && Deletes(events[i]) && events[j].Attempt? && events[j].key == key ==>
        events[i].now <= events[j].now
  }

  lemma EarlierSpare(events: seq<Event>, key: string, limit: nat, window: nat, now: int)
    requires Within(events, key, limit, window) && window <= RETENTION
    requires forall e <- events :: Deletes(e) ==> e.now <= now
    ensures AllSpare(events, key, now - window)
  {
  }

  lemma InitWithin(events: seq<Event>, key: string, limit: nat, window: nat)
    requires events != [] && Within(events, key, limit, window) && PurgesPast(events, key)
    ensures Within(events[..|events| - 1], key, limit, window) && PurgesPast(events[..|events| - 1], key)
    ensures var e := events[|events| - 1]; e.Attempt? && e.key == key ==> e.limit <= limit && e.window >= window
  {
  }

  /** Every earlier admission in an interval that ends no sooner than now is one the statement counts. */
  lemma CountedByAttempt(
      events: seq<Event>, key: string, limit: nat, window: nat, now: Time, longer: nat, start: int)
    requires Within(events, key, limit, window) && window <= RETENTION && window <= longer
    requires forall e <- events :: Deletes(e) ==> e.now <= now
    requires start <= now <= start + window
    ensures var s := Run(State([], []), events);
            CountIn(s.admitted, key, start, start + window) <= CountFrom(s.rows, key, now - longer)
  {
    hide CountFrom, CountIn, Run;
    var s := Run(State([], []), events);
    EarlierSpare(events, key, limit, window, now);
    TableAgrees(events, key, now - window);
    CountInBelow(s.admitted, key, start, start + window);
    CountMonotone(s.admitted, key, now - window, start);
    CountMonotone(s.rows, key, now - longer, now - window);
  }

  /**
   Sliding window: no closed interval as long as the window ever holds more admissions of the
   key than its limit since it was last cleared, whatever other keys do and however statuses and
   cleanups are interleaved. Callers of the key may use lower limits and longer windows, and
   statements run out of clock order, as long as deletions do not run ahead.
   */
  lemma {:induction false} SlidingWindow(events: seq<Event>, key: string, limit: nat, window: nat, start: int)
    requires Within(events, key, limit, window) && PurgesPast(events, key) && window <= RETENTION
    ensures CountIn(Run(State([], []), events).admitted, key, start, start + window) <= limit
  {
    hide CountFrom, CountIn, PurgesPast, Step, Within;
    if events != [] {
      var init, e := events[..|events| - 1], events[|events| - 1];
      InitWithin(events, key, limit, window);
      SlidingWindow(init, key, limit, window, start);
      var s := Run(State([], []), init);
      StepCounts(s, e, key, start, start + window);
      if e.Attempt? && e.key == key && Allowed(s.rows, e) && start <= e.now <= start + window {
        PurgesBeforeLast(events, key);
        CountedByAttempt(init, key, limit, window, e.now, e.window, start);
      }
    } else {
      NoneCounted(key, start, start + window);
    }
  }

  lemma NoneCounted(key: string, low: int, high: int)
    ensures CountIn([], key, low, high) == 0
  {
  }

  lemma StepCounts(s: State, e: Event, key: string, low: int, high: int)
    ensures CountIn(Step(s, e).admitted, key, low, high)
         == (if e.Clear? && e.key == key then 0 else CountIn(s.admitted, key, low, high))
            + if e.Attempt? && e.key == key && Allowed(s.rows, e) && low <= e.now <= high then 1 else 0
  {
    hide CountFrom, CountIn, Without;
    if e.Attempt? { CountInSnoc(s.admitted, Row(e.key, e.now), key, low, high); }
    if e.Clear? { WithoutCounts(s.admitted, e.key, key, low, high); }
  }

  lemma PurgesBeforeLast(events: seq<Event>, key: string)
    requires events != [] && PurgesPast(events, key)
    requires events[|events| - 1].Attempt? && events[|events| - 1].key == key
    ensures forall e <- events[..|events| - 1] :: Deletes(e) ==> e.now <= events[|events| - 1].now
  {
    var init := events[..|events| - 1];
    forall e | e in init && Deletes(e)
      ensures e.now <= events[|events| - 1].now
    {
      var i :| 0 <= i < |init| && init[i] == e;
      assert events[i] == e;
    }
  }

  /** A window the cleanup does not cover is not safe: its rows are deleted while they should count. */
  lemma LongerWindowForgets(window: nat)
    requires window > RETENTION
    ensures var events := [Attempt("k", 1, window, 1), Cleanup(RETENTION + 2), Attempt("k", 1, window, RETENTION + 2)];
            CountIn(Run(State([], []), events).admitted, "k", 1, 1 + window) == 2
  {
    var first, cleanup, second := Attempt("k", 1, window, 1), Cleanup(RETENTION + 2), Attempt("k", 1, window, RETENTION + 2);
    var start := State([], []);
    assert [first, cleanup, second][..2] == [first, cleanup] && [first, cleanup][..1] == [first] && [first][..0] == [];
    assert Run(start, [first]) == State([Row("k", 1)], [Row("k", 1)]);
    assert Run(start, [first, cleanup]) == State([], [Row("k", 1)]) by {
      assert PurgeAll([Row("k", 1)], 2) == [];
    }
    assert Run(start, [first, cleanup, second]).admitted == [Row("k", 1), Row("k", RETENTION + 2)];
    CountInSnoc([], Row("k", 1), "k", 1, 1 + window);
    CountInSnoc([Row("k", 1)], Row("k", RETENTION + 2), "k", 1, 1 + window);
    assert [Row("k", 1)] + [Row("k", RETENTION + 2)] == [Row("k", 1), Row("k", RETENTION + 2)];
  }

  /**
   And nobody is refused for less: while deletions spare what it counts, an attempt is admitted
   exactly when fewer than its limit of the key were admitted since its window began.
   */
  lemma {:induction false} AdmittedIff(events: seq<Event>, e: Event)
    requires e.Attempt? && AllSpare(events, e.key, e.now - e.window)
    ensures var s := Run(State([], []), events);
            Step(s, e).admitted == s.admitted + [Row(e.key, e.now)]
            <==> CountFrom(s.admitted, e.key, e.now - e.window) < e.limit
    ensures var s := Run(State([], []), events);
            Step(s, e).admitted == s.admitted || Step(s, e).admitted == s.admitted + [Row(e.key, e.now)]
  {
    hide CountFrom, Run;
    TableAgrees(events, e.key, e.now - e.window);
    var s := Run(State([], []), events);
    assert |s.admitted + [Row(e.key, e.now)]| == |s.admitted| + 1;
  }

  ghost predicate Exceeds(events: seq<Event>, key: string, limit: nat, window: nat, start: int) {
    && Within(events, key, limit, window) && PurgesPast(events, key)
    && CountIn(Run(State([], []), events).admitted, key, start, start + window) > limit
  }

  /** So the limit holds on every run exactly for the windows the cleanup covers. */
  lemma SafeIffCovered(window: nat)
    ensures (forall events, key, limit, start :: !Exceeds(events, key, limit, window, start)) <==> window <= RETENTION
  {
    hide CountIn, Run, Step;
    if window <= RETENTION {
      forall events, key, limit, start ensures !Exceeds(events, key, limit, window, start) {
        if Within(events, key, limit, window) && PurgesPast(events, key) {
          SlidingWindow(events, key, limit, window, start);
        }
      }
    } else {
      LongerWindowForgets(window);
      assert Exceeds([Attempt("k", 1, window, 1), Cleanup(RETENTION + 2), Attempt("k", 1, window, RETENTION + 2)],
                     "k", 1, window, 1);
    }
  }

  // ----- Retry-After -----

  /** Until the oldest counted row leaves the window, a full window admits nobody and loses no row. */
  lemma FrozenStep(s: State, e: Event, key: string, limit: nat, window: nat, oldest: int, low: int)
    requires CountFrom(s.rows, key, oldest) >= limit && oldest <= low && window <= RETENTION
    requires Within([e], key, limit, window) && Meanwhile(e, key, oldest + window)
    ensures CountFrom(Step(s, e).rows, key, low) == CountFrom(s.rows, key, low)
    ensures e.Attempt? && e.key == key ==> !Allowed(s.rows, e)
  {
    hide CountFrom, CountIn, Purge, PurgeAll, Without;
    assert e in [e];
    match e
    case Attempt(k, _, longer, now) =>
      if k == key {
        CountMonotone(s.rows, key, now - longer, oldest);
      } else {
        CountSnoc(s.rows, Row(k, now), key, low);
      }
    case Forget(k, longer, now) => PurgeKeepsCount(s.rows, k, now - longer, key, low);
    case Cleanup(now) => PurgeAllKeepsCount(s.rows, now - RETENTION, key, low);
    case Clear(k) => WithoutCounts(s.rows, k, key, low, low);
  }

  /** A statement stamped no later than `last` that does not forgive the key. */
  predicate Meanwhile(e: Event, key: string, last: int) {
    if e.Clear? then e.key != key else e.now <= last
  }

  lemma {:induction false} Frozen(
      s: State, more: seq<Event>, key: string, limit: nat, window: nat, oldest: int, low: int)
    requires CountFrom(s.rows, key, oldest) >= limit && oldest <= low && window <= RETENTION
    requires Within(more, key, limit, window) && forall e <- more :: Meanwhile(e, key, oldest + window)
    ensures CountFrom(Run(s, more).rows, key, low) == CountFrom(s.rows, key, low)
  {
    if more == [] {
    } else {
      hide CountFrom, Meanwhile, Step;
      var init, e := more[..|more| - 1], more[|more| - 1];
      assert forall x <- init :: x in more;
      Frozen(s, init, key, limit, window, oldest, oldest);
      Frozen(s, init, key, limit, window, oldest, low);
      assert e in more;
      FrozenStep(Run(s, init), e, key, limit, window, oldest, low);
    }
  }

  /** The status names the instant its oldest counted row leaves the window. */
  lemma RetryLeaves(rows: seq<Row>, key: string, limit: nat, window: nat, now: Time)
    requires CountFrom(rows, key, now - window) >= limit
    ensures now + RetryAfter(rows, key, limit, window, now) == Oldest(rows, key, window, now) + window + 1 > now
    ensures limit > 0 ==>
              && CountFrom(rows, key, Oldest(rows, key, window, now)) == CountFrom(rows, key, now - window)
              && CountFrom(rows, key, Oldest(rows, key, window, now) + 1) < CountFrom(rows, key, now - window)
  {
    hide CountFrom;
  }

  /**
   Whatever table the query of a status sees: if it reports the limit reached, every attempt
   before the time it names is refused, whatever else happens meanwhile.
   */
  lemma RefusedUntilRetry(
      s: State, key: string, limit: nat, window: nat, now: Time, more: seq<Event>, attempt: Event)
    requires CountFrom(s.rows, key, now - window) >= limit && window <= RETENTION
    requires Within(more + [attempt], key, limit, window) && attempt.Attempt? && attempt.key == key
    requires forall e <- more + [attempt] :: Meanwhile(e, key, now + RetryAfter(s.rows, key, limit, window, now) - 1)
    ensures !Allowed(Run(s, more).rows, attempt)
  {
    hide CountFrom, Oldest, RetryAfter, Run;
    assert attempt in more + [attempt] && forall e <- more :: e in more + [attempt];
    if limit > 0 {
      var oldest := Oldest(s.rows, key, window, now);
      RetryLeaves(s.rows, key, limit, window, now);
      Frozen(s, more, key, limit, window, oldest, oldest);
      FrozenStep(Run(s, more), attempt, key, limit, window, oldest, oldest);
    }
  }

  /** And an attempt at that time is admitted exactly when fewer rows than the limit are younger than the oldest. */
  lemma AdmittedAtRetryIff(s: State, key: string, limit: nat, window: nat, now: Time, more: seq<Event>)
    requires CountFrom(s.rows, key, now - window) >= limit && window <= RETENTION
    requires Within(more, key, limit, window)
    requires forall e <- more :: Meanwhile(e, key, now + RetryAfter(s.rows, key, limit, window, now) - 1)
    ensures var retry := now + RetryAfter(s.rows, key, limit, window, now);
            && retry > now
            && (Allowed(Run(s, more).rows, Attempt(key, limit, window, retry))
                <==> CountFrom(s.rows, key, Oldest(s.rows, key, window, now) + 1) < limit)
  {
    hide CountFrom, Oldest, RetryAfter, Run;
    RetryLeaves(s.rows, key, limit, window, now);
    if limit > 0 {
      var oldest := Oldest(s.rows, key, window, now);
      Frozen(s, more, key, limit, window, oldest, oldest + 1);
    }
  }

  /** No wait is named exactly when an attempt at once would be admitted. */
  lemma NoWaitIff(rows: seq<Row>, key: string, limit: nat, window: nat, now: Time)
    ensures RetryAfter(rows, key, limit, window, now) == 0 <==> Allowed(rows, Attempt(key, limit, window, now))
  {
    hide CountFrom, OldestFrom;
  }

  lemma {:induction false} AdmittedInPast(events: seq<Event>, now: int)
    requires forall e <- events :: e.Attempt? ==> e.now <= now
    ensures forall row <- Run(State([], []), events).admitted :: row.ts <= now
  {
    if events == [] {
    } else {
      var init := events[..|events| - 1];
      assert forall x <- init :: x in events;
      AdmittedInPast(init, now);
      WithoutIsPart(Run(State([], []), init).admitted);
    }
  }

  lemma {:induction false} WithoutIsPart(rows: seq<Row>)
    ensures forall key :: forall row <- Without(rows, key) :: row in rows
  {
    if rows == [] {
    } else {
      WithoutIsPart(rows[..|rows| - 1]);
    }
  }

  /** While no caller's clock is ahead, the query counts the limit at most. */
  lemma CountWithinLimit(events: seq<Event>, key: string, limit: nat, window: nat, now: int)
    requires Within(events, key, limit, window) && PurgesPast(events, key) && window <= RETENTION
    requires forall e <- events :: !e.Clear? ==> e.now <= now
    ensures CountFrom(Run(State([], []), events).rows, key, now - window) <= limit
  {
    hide CountFrom, CountIn, Run;
    EarlierSpare(events, key, limit, window, now);
    TableAgrees(events, key, now - window);
    AdmittedInPast(events, now);
    CountInBelow(Run(State([], []), events).admitted, key, now - window, now);
    SlidingWindow(events, key, limit, window, now - window);
  }

  /**
   Retry-After is exact: if no statement before the query, its own deletion and those run in
   between included, carries a later time, an attempt at the time named is admitted exactly when
   the limit admits anything at all.
   */
  lemma AdmittedAtRetry(events: seq<Event>, key: string, limit: nat, window: nat, now: Time, more: seq<Event>)
    requires Within(events, key, limit, window) && PurgesPast(events, key) && window <= RETENTION
    requires forall e <- events :: !e.Clear? ==> e.now <= now
    requires Within(more, key, limit, window)
    requires var s := Run(State([], []), events);
             && CountFrom(s.rows, key, now - window) >= limit
             && forall e <- more :: Meanwhile(e, key, now + RetryAfter(s.rows, key, limit, window, now) - 1)
    ensures var s := Run(State([], []), events);
            var retry := now + RetryAfter(s.rows, key, limit, window, now);
            retry > now && (Allowed(Run(s, more).rows, Attempt(key, limit, window, retry)) <==> limit > 0)
  {
    hide CountFrom, Oldest, RetryAfter, Run;
    var s := Run(State([], []), events);
    AdmittedAtRetryIff(s, key, limit, window, now, more);
    CountWithinLimit(events, key, limit, window, now);
    RetryLeaves(s.rows, key, limit, window, now);
  }

  /** Between deletion and query a caller with a later clock may be admitted; then the time named is too early. */
  lemma AdmissionMeanwhile()
    ensures var s := Run(State([], []), [Attempt("k", 1, 60, 1), Forget("k", 60, 61), Attempt("k", 1, 60, 62)]);
            var retry := 61 + RetryAfter(s.rows, "k", 1, 60, 61);
            CountFrom(s.rows, "k", 1) == 2 && retry == 62 && !Allowed(s.rows, Attempt("k", 1, 60, retry))
  {
    hide CountFrom, OldestFrom, Purge;
    var a, b, c := Attempt("k", 1, 60, 1), Forget("k", 60, 61), Attempt("k", 1, 60, 62);
    var start, one, two := State([], []), [Row("k", 1)], [Row("k", 1), Row("k", 62)];
    assert [a, b, c][..2] == [a, b] && [a, b][..1] == [a] && [a][..0] == [];
    TwoRows();
    assert Run(start, [a]) == State(one, one);
    assert Run(start, [a, b]) == State(one, one);
    assert one + [Row("k", 62)] == two;
    assert Run(start, [a, b, c]) == State(two, two);
  }

  lemma TwoRows()
    ensures var one, two := [Row("k", 1)], [Row("k", 1), Row("k", 62)];
            && CountFrom([], "k", -59) == 0 && Purge(one, "k", 1) == one && CountFrom(one, "k", 2) == 0
            && CountFrom(two, "k", 1) == 2 && CountFrom(two, "k", 2) == 1 && OldestFrom(two, "k", 1) == 1
  {
    hide CountFrom, Purge;
    var one, two := [Row("k", 1)], [Row("k", 1), Row("k", 62)];
    assert one == [] + [Row("k", 1)] && two == one + [Row("k", 62)];
    assert CountFrom([], "k", 1) == CountFrom([], "k", 2) == CountFrom([], "k", -59) == 0 by { EmptyTable(); }
    CountSnoc([], Row("k", 1), "k", 1);
    CountSnoc([], Row("k", 1), "k", 2);
    CountSnoc(one, Row("k", 62), "k", 1);
    CountSnoc(one, Row("k", 62), "k", 2);
    OnePurged();
    if OldestFrom(two, "k", 1) > 1 { CountMonotone(two, "k", 2, OldestFrom(two, "k", 1)); }
  }

  lemma EmptyTable()
    ensures forall low :: CountFrom([], "k", low) == 0
  {
  }

  lemma OnePurged()
    ensures Purge([Row("k", 1)], "k", 1) == [Row("k", 1)]
  {
    assert [Row("k", 1)][..0] == [];
  }
}
