/**
 The limits as requests meet them: the durable limiter, the in-memory limiter of the isolate that
 serves the request, and the fallback from one to the other while the database fails. All clocks
 are one clock in milliseconds; the table is stamped in its whole seconds.
 */
module RateLimit {
  import Durable = RateTable
  import Local = FixedWindow

  type Millis = t: int | t >= 1000 witness 1000

  datatype Database = Missing | Failing | Working

  /** `BestEffort` requests never ask the database. A status is only its deletion, or a call of its own key. */
  datatype Request =
    | Limited(isolate: nat, database: Database, key: string, limit: nat, windowSec: nat, ms: Millis)
    | BestEffort(isolate: nat, key: string, limit: nat, windowSec: nat, ms: Millis)
    | Status(isolate: nat, database: Database, key: string, limit: nat, windowSec: nat, ms: Millis)
    | CleanUp(ms: Millis)

  datatype State = State(table: Durable.State, isolates: map<nat, Local.Buckets>)

  const Start := State(Durable.State([], []), map[])

  function Sec(ms: Millis): Durable.Time { ms / 1000 }

  function BucketsOf(s: State, isolate: nat): Local.Buckets {
    if isolate in s.isolates then s.isolates[isolate] else map[]
  }

  /** The statement a request runs on the table. */
  function Statements(r: Request): seq<Durable.Event> {
    match r
    case Limited(_, Working, key, limit, windowSec, ms) => [Durable.Attempt(key, limit, windowSec, Sec(ms))]
    case Status(_, Working, key, _, windowSec, ms) => [Durable.Forget(key, windowSec, Sec(ms))]
    case CleanUp(ms) => [Durable.Cleanup(Sec(ms))]
    case _ => []
  }

  /** The call a request makes of one isolate's own limiter. */
  function LocalCalls(r: Request, isolate: nat): seq<Local.Call> {
    if r.CleanUp? || r.isolate != isolate then []
    else
      match r
      case Limited(_, Failing, key, limit, windowSec, ms) => [Local.Call(key, limit, 1000 * windowSec, ms)]
      case BestEffort(_, key, limit, windowSec, ms) => [Local.Call(key, limit, 1000 * windowSec, ms)]
      case Status(_, Failing, key, limit, windowSec, ms) => [Local.Call("status:" + key, limit, 1000 * windowSec, ms)]
      case _ => []
  }

  function Step(s: State, r: Request): State {
    var table := if Statements(r) == [] then s.table else Durable.Step(s.table, Statements(r)[0]);
    if r.CleanUp? || LocalCalls(r, r.isolate) == [] then s.(table := table)
    else State(table, s.isolates[r.isolate := Local.Step(BucketsOf(s, r.isolate), LocalCalls(r, r.isolate)[0])])
  }

  function Run(requests: seq<Request>): State {
    if requests == [] then Start else Step(Run(requests[..|requests| - 1]), requests[|requests| - 1])
  }

  /** Whether the request may go on. Without a database the durable limit refuses. */
  predicate Granted(s: State, r: Request) {
    match r
    case Limited(_, Missing, _, _, _, _) => false
    case Limited(_, Working, key, limit, windowSec, ms) =>
      Durable.Allowed(s.table.rows, Durable.Attempt(key, limit, windowSec, Sec(ms)))
    case Limited(isolate, Failing, key, limit, windowSec, ms) =>
      Local.Allowed(BucketsOf(s, isolate), Local.Call(key, limit, 1000 * windowSec, ms))
    case BestEffort(isolate, key, limit, windowSec, ms) =>
      Local.Allowed(BucketsOf(s, isolate), Local.Call(key, limit, 1000 * windowSec, ms))
    case _ => false
  }

  /** A cleanup leaves no row older than an hour, and the isolates their counters. */
  lemma CleanUpCleans(s: State, ms: Millis)
    ensures var after := Step(s, CleanUp(ms));
            && after.isolates == s.isolates
            && forall row <- after.table.rows :: row.ts >= ms / 1000 - 3600
  {
    Durable.CleanupLeavesAnHour(s.table, Sec(ms));
  }

  // ----- The functions of the Worker -----

  ghost function Here(table: Durable.Table, local: Local.Limiter): State
    reads table, local
  {
    State(table.Value(), map[0 := local.buckets])
  }

  method RateLimitD1(table: Durable.Table, local: Local.Limiter, database: Database,
                     key: string, limit: nat, windowSec: nat, ms: Millis) returns (ok: bool)
    modifies table, local
    ensures Here(table, local) == Step(old(Here(table, local)), Limited(0, database, key, limit, windowSec, ms))
    ensures ok == Granted(old(Here(table, local)), Limited(0, database, key, limit, windowSec, ms))
  {
    match database
    case Missing => return false;
    case Working =>
      ok := table.RateLimit(key, limit, windowSec, Sec(ms));
    case Failing =>
      ok := local.Check(Local.Call(key, limit, 1000 * windowSec, ms));
  }

  /** A status during an outage spends the fallback's own allowance of statuses. */
  method RateLimitStatusD1(table: Durable.Table, local: Local.Limiter, database: Database,
                           key: string, limit: nat, windowSec: nat, ms: Millis, meanwhile: seq<Durable.Event>)
    returns (limited: bool, count: nat, retryAfter: int)
    modifies table, local
    ensures var after := Step(old(Here(table, local)), Status(0, database, key, limit, windowSec, ms));
            && Here(table, local)
               == (if database.Working? then after.(table := Durable.Run(after.table, meanwhile)) else after)
            && match database
               case Missing => limited && count == limit && retryAfter == windowSec
               case Working =>
                 && limited == (count >= limit)
                 && count == Durable.CountFrom(table.rows, key, Sec(ms) - windowSec)
                 && retryAfter == Durable.RetryAfter(table.rows, key, limit, windowSec, Sec(ms))
               case Failing =>
                 && limited == !Local.Allowed(old(local.buckets), Local.Call("status:" + key, limit, 1000 * windowSec, ms))
                 && count == (if limited then limit else 0) && retryAfter == (if limited then windowSec else 0)
  {
    match database
    case Missing => return true, limit, windowSec;
    case Working =>
      limited, count, retryAfter := table.Status(key, limit, windowSec, Sec(ms), meanwhile);
    case Failing =>
      var allowed := local.Check(Local.Call("status:" + key, limit, 1000 * windowSec, ms));
      limited := !allowed;
      count, retryAfter := if allowed then 0 else limit, if allowed then 0 else windowSec;
  }

  // ----- A run seen by the table and by each isolate -----

  function AllStatements(requests: seq<Request>): seq<Durable.Event> {
    if requests == [] then []
    else AllStatements(requests[..|requests| - 1]) + Statements(requests[|requests| - 1])
  }

  function AllCalls(requests: seq<Request>, isolate: nat): seq<Local.Call> {
    if requests == [] then []
    else AllCalls(requests[..|requests| - 1], isolate) + LocalCalls(requests[|requests| - 1], isolate)
  }

  lemma StepProjects(s: State, r: Request, isolate: nat)
    ensures |Statements(r)| <= 1 && |LocalCalls(r, isolate)| <= 1
    ensures Step(s, r).table == if Statements(r) == [] then s.table else Durable.Step(s.table, Statements(r)[0])
    ensures BucketsOf(Step(s, r), isolate)
         == if LocalCalls(r, isolate) == [] then BucketsOf(s, isolate)
            else Local.Step(BucketsOf(s, isolate), LocalCalls(r, isolate)[0])
  {
    hide Durable.Step, Local.Step;
  }

  lemma {:induction false} RunIsProjected(requests: seq<Request>, isolate: nat)
    ensures Run(requests).table == Durable.Run(Durable.State([], []), AllStatements(requests))
    ensures BucketsOf(Run(requests), isolate) == Local.Run(AllCalls(requests, isolate))
  {
    if requests == [] {
    } else {
      hide BucketsOf, Durable.Step, Local.Step, LocalCalls, Statements, Step;
      var init, r := requests[..|requests| - 1], requests[|requests| - 1];
      RunIsProjected(init, isolate);
      StepProjects(Run(init), r, isolate);
      SplitLast(AllStatements(init), Statements(r));
      SplitLast(AllCalls(init, isolate), LocalCalls(r, isolate));
    }
  }

  lemma SplitLast<T>(items: seq<T>, last: seq<T>)
    ensures last == [] ==> items + last == items
    ensures |last| == 1 ==>
              var all := items + last; all[..|all| - 1] == items && all[|all| - 1] == last[0]
  {
  }

  // ----- However often the database fails -----

  /** Requests of a key that were let through, by the millisecond. */
  function CountGranted(requests: seq<Request>, key: string, low: int, high: int): nat {
    if requests == [] then 0
    else
      var init, r := requests[..|requests| - 1], requests[|requests| - 1];
      CountGranted(init, key, low, high)
      + if Granted(Run(init), r) && r.key == key && low <= r.ms <= high then 1 else 0
  }

  /** What the isolates up to `isolates` let through on their own. */
  function CountLocal(requests: seq<Request>, isolates: nat, key: string, low: int, high: int): nat {
    if isolates == 0 then 0
    else
      CountLocal(requests, isolates - 1, key, low, high)
      + Local.CountIn(Local.Admissions(AllCalls(requests, isolates - 1), key), low, high)
  }

  /** Time does not run back, and the key is used with no higher limit and no shorter window. */
  ghost predicate Within(requests: seq<Request>, key: string, limit: nat, windowSec: nat, isolates: nat) {
    && (forall i, j :: 0 <= i < j < |requests| ==> requests[i].ms <= requests[j].ms)
    && (forall r <- requests :: !r.CleanUp? ==> r.isolate < isolates)
    && (forall r <- requests :: !r.CleanUp? && (r.key == key || (r.Status? && "status:" + r.key == key)) ==>
          r.limit <= limit && r.windowSec >= windowSec)
  }

  lemma InitWithin(requests: seq<Request>, key: string, limit: nat, windowSec: nat, isolates: nat)
    requires requests != [] && Within(requests, key, limit, windowSec, isolates)
    ensures Within(requests[..|requests| - 1], key, limit, windowSec, isolates)
    ensures forall r <- requests[..|requests| - 1] :: r.ms <= requests[|requests| - 1].ms
  {
    var init := requests[..|requests| - 1];
    forall r | r in init ensures r.ms <= requests[|requests| - 1].ms {
      var i :| 0 <= i < |init| && init[i] == r;
      assert requests[i] == r;
    }
  }

  lemma OneStatementWithin(requests: seq<Request>, key: string, limit: nat, windowSec: nat, isolates: nat, r: Request)
    requires Within(requests, key, limit, windowSec, isolates) && r in requests
    ensures |Statements(r)| <= 1 && Durable.Within(Statements(r), key, limit, windowSec)
    ensures forall e <- Statements(r) :: !e.Clear? && e.now == Sec(r.ms)
  {
  }

  lemma {:induction false} StatementsWithin(
      requests: seq<Request>, key: string, limit: nat, windowSec: nat, isolates: nat, ms: int)
    requires Within(requests, key, limit, windowSec, isolates) && forall r <- requests :: r.ms <= ms
    ensures var events := AllStatements(requests);
            && Durable.Within(events, key, limit, windowSec) && Durable.PurgesPast(events, key)
            && forall e <- events :: !e.Clear? && e.now <= ms / 1000
  {
    if requests == [] {
    } else {
      hide Statements, Within;
      var init, r := requests[..|requests| - 1], requests[|requests| - 1];
      InitWithin(requests, key, limit, windowSec, isolates);
      StatementsWithin(init, key, limit, windowSec, isolates, r.ms);
      OneStatementWithin(requests, key, limit, windowSec, isolates, r);
      assert r.ms / 1000 <= ms / 1000;
    }
  }

  lemma OneCallWithin(
      requests: seq<Request>, key: string, limit: nat, windowSec: nat, isolates: nat, r: Request, isolate: nat)
    requires Within(requests, key, limit, windowSec, isolates) && r in requests
    ensures |LocalCalls(r, isolate)| <= 1 && Local.Within(LocalCalls(r, isolate), key, limit, 1000 * windowSec)
    ensures forall c <- LocalCalls(r, isolate) :: c.now == r.ms
  {
  }

  lemma Extend(calls: seq<Local.Call>, last: seq<Local.Call>, key: string, limit: nat, window: nat, ms: int)
    requires Local.Nondecreasing(calls) && Local.Within(calls, key, limit, window) && |last| <= 1
    requires Local.Within(last, key, limit, window) && forall c <- last :: c.now == ms
    requires forall c <- calls :: c.now <= ms
    ensures Local.Nondecreasing(calls + last) && Local.Within(calls + last, key, limit, window)
    ensures forall c <- calls + last :: c.now <= ms
  {
  }

  lemma {:induction false} CallsWithin(
      requests: seq<Request>, key: string, limit: nat, windowSec: nat, isolates: nat, isolate: nat, ms: int)
    requires Within(requests, key, limit, windowSec, isolates) && forall r <- requests :: r.ms <= ms
    ensures var calls := AllCalls(requests, isolate);
            && Local.Nondecreasing(calls) && Local.Within(calls, key, limit, 1000 * windowSec)
            && forall c <- calls :: c.now <= ms
  {
    if requests == [] {
    } else {
      hide LocalCalls, Local.Nondecreasing, Local.Within, Within;
      var init, r := requests[..|requests| - 1], requests[|requests| - 1];
      InitWithin(requests, key, limit, windowSec, isolates);
      CallsWithin(init, key, limit, windowSec, isolates, isolate, r.ms);
      OneCallWithin(requests, key, limit, windowSec, isolates, r, isolate);
      Extend(AllCalls(init, isolate), LocalCalls(r, isolate), key, limit, 1000 * windowSec, r.ms);
    }
  }

  predicate FromTable(r: Request) { r.Limited? && r.database.Working? }

  lemma TableCounts(requests: seq<Request>, key: string, low: int, high: int)
    requires requests != []
    ensures var init, r := requests[..|requests| - 1], requests[|requests| - 1];
            (Durable.CountIn(Run(requests).table.admitted, key, low / 1000, high / 1000)
             >= Durable.CountIn(Run(init).table.admitted, key, low / 1000, high / 1000)
            + if FromTable(r) && Granted(Run(init), r) && r.key == key && low <= r.ms <= high then 1 else 0)
  {
    hide Durable.CountFrom, Durable.CountIn, Durable.Step, Local.Step;
    var init, r := requests[..|requests| - 1], requests[|requests| - 1];
    if Statements(r) != [] {
      Durable.StepCounts(Run(init).table, Statements(r)[0], key, low / 1000, high / 1000);
    }
  }

  lemma CallsCount(requests: seq<Request>, isolate: nat, key: string, low: int, high: int)
    requires requests != []
    ensures var init, r := requests[..|requests| - 1], requests[|requests| - 1];
            (Local.CountIn(Local.Admissions(AllCalls(requests, isolate), key), low, high)
             >= Local.CountIn(Local.Admissions(AllCalls(init, isolate), key), low, high)
            + if !FromTable(r) && Granted(Run(init), r) && r.isolate == isolate && r.key == key && low <= r.ms <= high
              then 1 else 0)
  {
    hide Local.Admissions, Local.Allowed, Local.CountIn, Local.Run, Run;
    var init, r := requests[..|requests| - 1], requests[|requests| - 1];
    RunIsProjected(init, isolate);
    var calls, last := AllCalls(init, isolate), LocalCalls(r, isolate);
    SplitLast(calls, last);
    if last != [] {
      assert last == [last[0]];
      Local.OneMore(calls, last[0], key, low, high);
    }
  }

  lemma {:induction false} LocalCounts(requests: seq<Request>, isolates: nat, key: string, low: int, high: int)
    requires requests != []
    ensures var init, r := requests[..|requests| - 1], requests[|requests| - 1];
            (CountLocal(requests, isolates, key, low, high)
             >= CountLocal(init, isolates, key, low, high)
            + if !FromTable(r) && Granted(Run(init), r) && r.isolate < isolates && r.key == key && low <= r.ms <= high
              then 1 else 0)
  {
    hide AllCalls, FromTable, Granted, Local.Admissions, Local.CountIn, Run;
    NotGranted(Run(requests[..|requests| - 1]), requests[|requests| - 1]);
    if isolates == 0 {
    } else {
      LocalCounts(requests, isolates - 1, key, low, high);
      CallsCount(requests, isolates - 1, key, low, high);
    }
  }

  lemma {:induction false} NothingYet(isolates: nat, key: string, low: int, high: int)
    ensures CountLocal([], isolates, key, low, high) == 0
  {
    if isolates == 0 {
    } else {
      NothingYet(isolates - 1, key, low, high);
    }
  }

  /** Every request let through is a row of the table or an admission of its isolate. */
  lemma {:induction false} GrantedAreCounted(
      requests: seq<Request>, key: string, limit: nat, windowSec: nat, isolates: nat, low: int, high: int)
    requires Within(requests, key, limit, windowSec, isolates)
    ensures CountGranted(requests, key, low, high)
         <= Durable.CountIn(Run(requests).table.admitted, key, low / 1000, high / 1000)
            + CountLocal(requests, isolates, key, low, high)
  {
    hide AllCalls, Durable.CountIn, FromTable, Granted, Local.CountIn, Local.Admissions, Run;
    if requests == [] {
    } else {
      var init, r := requests[..|requests| - 1], requests[|requests| - 1];
      InitWithin(requests, key, limit, windowSec, isolates);
      GrantedAreCounted(init, key, limit, windowSec, isolates, low, high);
      TableCounts(requests, key, low, high);
      LocalCounts(requests, isolates, key, low, high);
      NotGranted(Run(init), r);
    }
  }

  lemma NotGranted(s: State, r: Request)
    ensures r.CleanUp? ==> !Granted(s, r)
  {
  }

  /** No isolate's sweep removes the key's counter before the window is over. */
  ghost predicate Spared(requests: seq<Request>, key: string, windowSec: nat, isolates: nat) {
    forall isolate: nat :: isolate < isolates ==> Local.AllSpare(AllCalls(requests, isolate), key, 1000 * windowSec)
  }

  lemma {:induction false} LocalBound(
      requests: seq<Request>, key: string, limit: nat, windowSec: nat, isolates: nat, most: nat, low: int, ms: int)
    requires Within(requests, key, limit, windowSec, isolates) && Spared(requests, key, windowSec, isolates)
    requires most <= isolates
    requires forall r <- requests :: r.ms <= ms
    ensures CountLocal(requests, most, key, low, low + 1000 * windowSec) <= most * Local.MostIn(limit)
  {
    hide AllCalls, Local.Admissions, Local.AllSpare, Local.CountIn, Local.MostIn, Local.Nondecreasing, Local.Within,
         Within;
    if most == 0 {
    } else {
      LocalBound(requests, key, limit, windowSec, isolates, most - 1, low, ms);
      CallsWithin(requests, key, limit, windowSec, isolates, most - 1, ms);
      Local.LessThanTwice(AllCalls(requests, most - 1), key, limit, 1000 * windowSec, low);
      assert most * Local.MostIn(limit) == (most - 1) * Local.MostIn(limit) + Local.MostIn(limit);
    }
  }

  lemma TableBound(requests: seq<Request>, key: string, limit: nat, windowSec: nat, isolates: nat, low: int, ms: int)
    requires Within(requests, key, limit, windowSec, isolates) && windowSec <= Durable.RETENTION
    requires forall r <- requests :: r.ms <= ms
    ensures Durable.CountIn(Run(requests).table.admitted, key, low / 1000, low / 1000 + windowSec) <= limit
  {
    hide AllStatements, Durable.CountIn, Durable.PurgesPast, Durable.Run, Durable.Within, Run, Within;
    RunIsProjected(requests, 0);
    StatementsWithin(requests, key, limit, windowSec, isolates, ms);
    Durable.SlidingWindow(AllStatements(requests), key, limit, windowSec, low / 1000);
  }

  lemma InSeconds(low: int, windowSec: nat)
    ensures (low + 1000 * windowSec) / 1000 == low / 1000 + windowSec
  {
  }

  lemma LastTime(requests: seq<Request>, key: string, limit: nat, windowSec: nat, isolates: nat) returns (ms: int)
    requires Within(requests, key, limit, windowSec, isolates)
    ensures forall r <- requests :: r.ms <= ms
  {
    ms := 0;
    if requests != [] {
      InitWithin(requests, key, limit, windowSec, isolates);
      ms := requests[|requests| - 1].ms;
    }
  }

  /**
   However often the database fails, and whichever requests never ask it: in no interval as long
   as the window do a number of isolates let through more requests of a key than the limit once
   between them, and each less than twice that on its own.
   */
  lemma LimitAcrossOutages(requests: seq<Request>, key: string, limit: nat, windowSec: nat, isolates: nat, low: int)
    requires Within(requests, key, limit, windowSec, isolates) && Spared(requests, key, windowSec, isolates)
    requires windowSec <= Durable.RETENTION
    ensures CountGranted(requests, key, low, low + 1000 * windowSec) <= limit + isolates * Local.MostIn(limit)
  {
    hide CountGranted, CountLocal, Durable.CountIn, Local.MostIn, Run, Spared, Within;
    var ms := LastTime(requests, key, limit, windowSec, isolates);
    InSeconds(low, windowSec);
    GrantedAreCounted(requests, key, limit, windowSec, isolates, low, low + 1000 * windowSec);
    TableBound(requests, key, limit, windowSec, isolates, low, ms);
    LocalBound(requests, key, limit, windowSec, isolates, isolates, low, ms);
  }

  // ----- The bound is reached -----

  function Call(limit: nat, windowSec: nat, ms: Millis): Local.Call { Local.Call("k", limit, 1000 * windowSec, ms) }

  /** The same call so many times. */
  function Charge(buckets: Local.Buckets, c: Local.Call, calls: nat): Local.Buckets {
    if calls == 0 then buckets else Local.Step(Charge(buckets, c, calls - 1), c)
  }

  function Grants(buckets: Local.Buckets, c: Local.Call, calls: nat): nat {
    if calls == 0 then 0
    else Grants(buckets, c, calls - 1) + if Local.Allowed(Charge(buckets, c, calls - 1), c) then 1 else 0
  }

  function Round(isolate: nat, calls: nat, limit: nat, windowSec: nat, ms: Millis): seq<Request> {
    if calls == 0 then []
    else Round(isolate, calls - 1, limit, windowSec, ms) + [BestEffort(isolate, "k", limit, windowSec, ms)]
  }

  function Rounds(isolates: nat, calls: nat, limit: nat, windowSec: nat, ms: Millis): seq<Request> {
    if isolates == 0 then []
    else Rounds(isolates - 1, calls, limit, windowSec, ms) + Round(isolates - 1, calls, limit, windowSec, ms)
  }

  function Durably(calls: nat, limit: nat, windowSec: nat, ms: Millis): seq<Request> {
    if calls == 0 then []
    else Durably(calls - 1, limit, windowSec, ms) + [Limited(0, Working, "k", limit, windowSec, ms)]
  }

  lemma RequestSnoc(requests: seq<Request>, r: Request, low: int, high: int)
    ensures Run(requests + [r]) == Step(Run(requests), r)
    ensures CountGranted(requests + [r], "k", low, high)
         == CountGranted(requests, "k", low, high)
            + if Granted(Run(requests), r) && r.key == "k" && low <= r.ms <= high then 1 else 0
  {
    assert (requests + [r])[..|requests|] == requests;
  }

  lemma BestEffortSnoc(requests: seq<Request>, isolate: nat, limit: nat, windowSec: nat, ms: Millis, low: int, high: int)
    ensures var before, all := Run(requests), requests + [BestEffort(isolate, "k", limit, windowSec, ms)];
            var buckets, c := BucketsOf(before, isolate), Call(limit, windowSec, ms);
            && BucketsOf(Run(all), isolate) == Local.Step(buckets, c)
            && (forall other: nat :: other != isolate ==> BucketsOf(Run(all), other) == BucketsOf(before, other))
            && Run(all).table == before.table
            && CountGranted(all, "k", low, high)
               == CountGranted(requests, "k", low, high) + if low <= ms <= high && Local.Allowed(buckets, c) then 1 else 0
  {
    hide CountGranted, Local.Allowed, Local.Step, Run;
    RequestSnoc(requests, BestEffort(isolate, "k", limit, windowSec, ms), low, high);
  }

  /** A round changes its isolate's counters and nothing else. */
  lemma {:induction false} RoundCharges(
      requests: seq<Request>, isolate: nat, calls: nat, limit: nat, windowSec: nat, ms: Millis, low: int, high: int)
    ensures var before, all := Run(requests), requests + Round(isolate, calls, limit, windowSec, ms);
            var buckets, c := BucketsOf(before, isolate), Call(limit, windowSec, ms);
            && BucketsOf(Run(all), isolate) == Charge(buckets, c, calls)
            && (forall other: nat :: other != isolate ==> BucketsOf(Run(all), other) == BucketsOf(before, other))
            && Run(all).table == before.table
            && CountGranted(all, "k", low, high)
               == CountGranted(requests, "k", low, high) + if low <= ms <= high then Grants(buckets, c, calls) else 0
  {
    if calls == 0 {
      hide BucketsOf, CountGranted, Run;
      assert requests + [] == requests;
    } else {
      hide BucketsOf, CountGranted, Local.Allowed, Local.Step, Run;
      var before := requests + Round(isolate, calls - 1, limit, windowSec, ms);
      RoundCharges(requests, isolate, calls - 1, limit, windowSec, ms, low, high);
      BestEffortSnoc(before, isolate, limit, windowSec, ms, low, high);
      assert requests + Round(isolate, calls, limit, windowSec, ms)
          == before + [BestEffort(isolate, "k", limit, windowSec, ms)];
    }
  }

  /** All isolates hold the same counters. */
  ghost predicate Alike(s: State, isolates: nat, buckets: Local.Buckets) {
    forall isolate: nat :: isolate < isolates ==> BucketsOf(s, isolate) == buckets
  }

  lemma {:induction false} RoundsCharge(
      requests: seq<Request>, isolates: nat, calls: nat, limit: nat, windowSec: nat, ms: Millis, low: int, high: int,
      buckets: Local.Buckets)
    requires Alike(Run(requests), isolates, buckets)
    ensures var all, c := requests + Rounds(isolates, calls, limit, windowSec, ms), Call(limit, windowSec, ms);
            && Alike(Run(all), isolates, Charge(buckets, c, calls))
            && (forall other: nat :: other >= isolates ==> BucketsOf(Run(all), other) == BucketsOf(Run(requests), other))
            && Run(all).table == Run(requests).table
            && CountGranted(all, "k", low, high)
               == CountGranted(requests, "k", low, high)
                  + if low <= ms <= high then isolates * Grants(buckets, c, calls) else 0
  {
    hide BucketsOf, Charge, CountGranted, Grants, Round, Run;
    if isolates == 0 {
      assert requests + [] == requests;
    } else {
      var before := requests + Rounds(isolates - 1, calls, limit, windowSec, ms);
      RoundsCharge(requests, isolates - 1, calls, limit, windowSec, ms, low, high, buckets);
      RoundCharges(before, isolates - 1, calls, limit, windowSec, ms, low, high);
      assert requests + Rounds(isolates, calls, limit, windowSec, ms)
          == before + Round(isolates - 1, calls, limit, windowSec, ms);
      var each := Grants(buckets, Call(limit, windowSec, ms), calls);
      assert isolates * each == (isolates - 1) * each + each;
    }
  }

  /** From a running counter, and from none or one that has expired. */
  lemma {:induction false} RunningCharges(bucket: Local.Bucket, c: Local.Call, calls: nat)
    requires !Local.Expired(bucket, c.window, c.now) && bucket.count + calls <= c.limit
    ensures var buckets := map[c.key := bucket];
            && Charge(buckets, c, calls) == map[c.key := Local.Bucket(bucket.start, bucket.count + calls)]
            && Grants(buckets, c, calls) == calls
  {
    if calls == 0 {
    } else {
      hide Local.Step, Local.Allowed;
      RunningCharges(bucket, c, calls - 1);
      Local.ChargeOnce(c, Local.Bucket(bucket.start, bucket.count + calls - 1));
    }
  }

  lemma {:induction false} NewCharges(buckets: Local.Buckets, c: Local.Call, calls: nat)
    requires buckets.Keys <= {c.key} && (c.key in buckets ==> Local.Expired(buckets[c.key], c.window, c.now))
    requires 0 < calls <= c.limit
    ensures Charge(buckets, c, calls) == map[c.key := Local.Bucket(c.now, calls)] && Grants(buckets, c, calls) == calls
  {
    hide Local.Step, Local.Allowed;
    if calls == 1 {
      Begins(buckets, c);
      assert Charge(buckets, c, 0) == buckets && Grants(buckets, c, 0) == 0;
    } else {
      NewCharges(buckets, c, calls - 1);
      Local.ChargeOnce(c, Local.Bucket(c.now, calls - 1));
    }
  }

  lemma Begins(buckets: Local.Buckets, c: Local.Call)
    requires buckets.Keys <= {c.key} && (c.key in buckets ==> Local.Expired(buckets[c.key], c.window, c.now))
    ensures Local.Step(buckets, c) == map[c.key := Local.Bucket(c.now, 1)]
    ensures c.limit > 0 ==> Local.Allowed(buckets, c)
  {
    var after := Local.Plain(buckets, c);
    assert after == map[c.key := Local.Bucket(c.now, 1)];
    assert |after| == 1;
  }

  /** An empty table admits the limit. */
  lemma {:induction false} DurablyCharges(
      requests: seq<Request>, calls: nat, limit: nat, windowSec: nat, ms: Millis, low: int, high: int)
    requires Run(requests).table.rows == [] && calls <= limit && low <= ms <= high
    ensures var all := requests + Durably(calls, limit, windowSec, ms);
            && Durable.CountFrom(Run(all).table.rows, "k", Sec(ms) - windowSec) == calls
            && Run(all).isolates == Run(requests).isolates
            && CountGranted(all, "k", low, high) == CountGranted(requests, "k", low, high) + calls
  {
    hide CountGranted, Durable.CountFrom, Run;
    if calls == 0 {
      assert requests + [] == requests;
      NoRows(Sec(ms) - windowSec);
    } else {
      var before := requests + Durably(calls - 1, limit, windowSec, ms);
      DurablyCharges(requests, calls - 1, limit, windowSec, ms, low, high);
      WorkingSnoc(before, limit, windowSec, ms, low, high);
      assert requests + Durably(calls, limit, windowSec, ms) == before + [Limited(0, Working, "k", limit, windowSec, ms)];
    }
  }

  lemma NoRows(low: int)
    ensures Durable.CountFrom([], "k", low) == 0
  {
  }

  lemma WorkingSnoc(requests: seq<Request>, limit: nat, windowSec: nat, ms: Millis, low: int, high: int)
    requires Durable.CountFrom(Run(requests).table.rows, "k", Sec(ms) - windowSec) < limit && low <= ms <= high
    ensures var all := requests + [Limited(0, Working, "k", limit, windowSec, ms)];
            && Durable.CountFrom(Run(all).table.rows, "k", Sec(ms) - windowSec)
               == Durable.CountFrom(Run(requests).table.rows, "k", Sec(ms) - windowSec) + 1
            && Run(all).isolates == Run(requests).isolates
            && CountGranted(all, "k", low, high) == CountGranted(requests, "k", low, high) + 1
  {
    hide CountGranted, Durable.CountFrom, Run;
    RequestSnoc(requests, Limited(0, Working, "k", limit, windowSec, ms), low, high);
    Durable.CountSnoc(Run(requests).table.rows, Durable.Row("k", Sec(ms)), "k", Sec(ms) - windowSec);
  }

  /** One call each; then, as the window ends, the rest of every limit and the table's; then every limit anew. */
  function Crest(limit: nat, windowSec: nat, isolates: nat): seq<Request>
    requires limit > 0
  {
    var end := 1000 + 1000 * windowSec;
    Rounds(isolates, 1, limit, windowSec, 1000) + Rounds(isolates, limit - 1, limit, windowSec, end)
    + Durably(limit, limit, windowSec, end) + Rounds(isolates, limit, limit, windowSec, end + 1)
  }

  /** Any number of isolates together reach the bound, for every limit and window. */
  lemma OutageBoundIsReached(limit: nat, windowSec: nat, isolates: nat)
    requires limit > 0 && windowSec > 0
    ensures CountGranted(Crest(limit, windowSec, isolates), "k", 1001, 1001 + 1000 * windowSec)
         == limit + isolates * Local.MostIn(limit)
  {
    hide Alike, BucketsOf, Charge, CountGranted, Durably, Grants, Rounds, Run;
    var end := 1000 + 1000 * windowSec;
    var low, high := 1001, 1001 + 1000 * windowSec;
    var first, last, anew := Call(limit, windowSec, 1000), Call(limit, windowSec, end), Call(limit, windowSec, end + 1);
    var one, full := Local.Bucket(1000, 1), Local.Bucket(1000, limit);
    var a := Rounds(isolates, 1, limit, windowSec, 1000);
    var b := a + Rounds(isolates, limit - 1, limit, windowSec, end);
    var c := b + Durably(limit, limit, windowSec, end);
    NothingCounted(isolates, low, high);
    RoundsCharge([], isolates, 1, limit, windowSec, 1000, low, high, map[]);
    NewCharges(map[], first, 1);
    assert [] + a == a;
    RoundsCharge(a, isolates, limit - 1, limit, windowSec, end, low, high, map["k" := one]);
    RunningCharges(one, last, limit - 1);
    DurablyCharges(b, limit, limit, windowSec, end, low, high);
    SameIsolates(Run(b), Run(c), isolates, map["k" := full]);
    RoundsCharge(c, isolates, limit, limit, windowSec, end + 1, low, high, map["k" := full]);
    NewCharges(map["k" := full], anew, limit);
    assert isolates * (limit - 1) + isolates * limit == isolates * (2 * limit - 1);
  }

  lemma NothingCounted(isolates: nat, low: int, high: int)
    ensures CountGranted([], "k", low, high) == 0 && Alike(Run([]), isolates, map[]) && Run([]).table.rows == []
  {
    assert Run([]) == Start;
  }

  lemma SameIsolates(s: State, t: State, isolates: nat, buckets: Local.Buckets)
    requires s.isolates == t.isolates && Alike(s, isolates, buckets)
    ensures Alike(t, isolates, buckets)
  {
    forall isolate: nat | isolate < isolates
      ensures BucketsOf(t, isolate) == buckets
    {
      assert BucketsOf(s, isolate) == buckets;
    }
  }

  /** Requests of the key in order, from `low` to `high`. */
  ghost predicate Uniform(requests: seq<Request>, limit: nat, windowSec: nat, isolates: nat, low: int, high: int) {
    && (forall r <- requests ::
          && (r.Limited? || r.BestEffort?) && r.key == "k" && r.limit == limit && r.windowSec == windowSec
          && r.isolate < isolates && low <= r.ms <= high)
    && (forall i, j :: 0 <= i < j < |requests| ==> requests[i].ms <= requests[j].ms)
  }

  lemma UniformConcat(
      a: seq<Request>, b: seq<Request>, limit: nat, windowSec: nat, isolates: nat, low: int, middle: int, high: int)
    requires Uniform(a, limit, windowSec, isolates, low, middle) && Uniform(b, limit, windowSec, isolates, middle, high)
    requires low <= middle <= high
    ensures Uniform(a + b, limit, windowSec, isolates, low, high)
  {
    var all := a + b;
    forall i, j | 0 <= i < j < |all| ensures all[i].ms <= all[j].ms {
      if i < |a| { assert all[i] in a; }
      if j >= |a| { assert all[j] in b; }
    }
  }

  lemma {:induction false} RoundUniform(
      isolate: nat, calls: nat, limit: nat, windowSec: nat, ms: Millis, isolates: nat)
    requires isolate < isolates
    ensures Uniform(Round(isolate, calls, limit, windowSec, ms), limit, windowSec, isolates, ms, ms)
  {
    if calls == 0 {
    } else {
      RoundUniform(isolate, calls - 1, limit, windowSec, ms, isolates);
    }
  }

  lemma {:induction false} RoundsUniform(most: nat, calls: nat, limit: nat, windowSec: nat, ms: Millis, isolates: nat)
    requires most <= isolates
    ensures Uniform(Rounds(most, calls, limit, windowSec, ms), limit, windowSec, isolates, ms, ms)
  {
    if most == 0 {
    } else {
      RoundsUniform(most - 1, calls, limit, windowSec, ms, isolates);
      RoundUniform(most - 1, calls, limit, windowSec, ms, isolates);
      UniformConcat(Rounds(most - 1, calls, limit, windowSec, ms), Round(most - 1, calls, limit, windowSec, ms),
                    limit, windowSec, isolates, ms, ms, ms);
    }
  }

  lemma {:induction false} DurablyUniform(calls: nat, limit: nat, windowSec: nat, ms: Millis, isolates: nat)
    requires isolates > 0
    ensures Uniform(Durably(calls, limit, windowSec, ms), limit, windowSec, isolates, ms, ms)
  {
    if calls == 0 {
    } else {
      DurablyUniform(calls - 1, limit, windowSec, ms, isolates);
    }
  }

  lemma {:induction false} UniformWindows(
      requests: seq<Request>, limit: nat, windowSec: nat, isolates: nat, low: int, high: int, isolate: nat)
    requires Uniform(requests, limit, windowSec, isolates, low, high)
    ensures forall c <- AllCalls(requests, isolate) :: c.window == 1000 * windowSec
  {
    if requests == [] {
    } else {
      var init, r := requests[..|requests| - 1], requests[|requests| - 1];
      assert r in requests && forall x <- init :: x in requests;
      UniformWindows(init, limit, windowSec, isolates, low, high, isolate);
    }
  }

  lemma UniformFits(requests: seq<Request>, limit: nat, windowSec: nat, isolates: nat, low: int, high: int)
    requires Uniform(requests, limit, windowSec, isolates, low, high)
    ensures Within(requests, "k", limit, windowSec, isolates) && Spared(requests, "k", windowSec, isolates)
  {
    forall isolate: nat | isolate < isolates
      ensures Local.AllSpare(AllCalls(requests, isolate), "k", 1000 * windowSec)
    {
      var calls := AllCalls(requests, isolate);
      UniformWindows(requests, limit, windowSec, isolates, low, high, isolate);
      assert forall i :: 0 <= i < |calls| ==> calls[i] in calls;
      Local.SparedByLongWindowsOrFewKeys(calls, "k", 1000 * windowSec);
    }
  }

  /** And that run meets the conditions under which the bound holds. */
  lemma CrestFits(limit: nat, windowSec: nat, isolates: nat)
    requires limit > 0 && isolates > 0
    ensures Within(Crest(limit, windowSec, isolates), "k", limit, windowSec, isolates)
    ensures Spared(Crest(limit, windowSec, isolates), "k", windowSec, isolates)
  {
    hide Durably, Rounds, Spared, Uniform, Within;
    var end := 1000 + 1000 * windowSec;
    var a, b := Rounds(isolates, 1, limit, windowSec, 1000), Rounds(isolates, limit - 1, limit, windowSec, end);
    var c, d := Durably(limit, limit, windowSec, end), Rounds(isolates, limit, limit, windowSec, end + 1);
    RoundsUniform(isolates, 1, limit, windowSec, 1000, isolates);
    RoundsUniform(isolates, limit - 1, limit, windowSec, end, isolates);
    DurablyUniform(limit, limit, windowSec, end, isolates);
    RoundsUniform(isolates, limit, limit, windowSec, end + 1, isolates);
    Widen(b, limit, windowSec, isolates, 1000, end, end);
    UniformConcat(a, b, limit, windowSec, isolates, 1000, 1000, end);
    UniformConcat(a + b, c, limit, windowSec, isolates, 1000, end, end);
    Widen(d, limit, windowSec, isolates, end, end + 1, end + 1);
    UniformConcat(a + b + c, d, limit, windowSec, isolates, 1000, end, end + 1);
    UniformFits(a + b + c + d, limit, windowSec, isolates, 1000, end + 1);
  }

  lemma Widen(requests: seq<Request>, limit: nat, windowSec: nat, isolates: nat, lower: int, low: int, high: int)
    requires Uniform(requests, limit, windowSec, isolates, low, high) && lower <= low
    ensures Uniform(requests, limit, windowSec, isolates, lower, high)
  {
  }
}
