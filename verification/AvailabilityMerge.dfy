/**
 The availability shown for each agent and day: what is stored, the time since the last
 report, and for days before anything was stored the agent's own uptime.
 Agent ids are already sanitised; an empty one stands for an id that sanitises to nothing.
 */
module AvailabilityMerge {
  import opened Availability

  datatype Entry = Entry(agentId: string, day: int, total: int, ok: int)

  datatype Metric = Metric(agentId: string, updatedAt: int, uptimeSec: nat)

  datatype Target = Target(id: string, noPublicIp: bool, createdAt: int)

  type Merged = map<(string, int), Row>

  /** The days of an interval in order, with the part before `onlineUntil` online. */
  function IntervalEntries(agentId: string, start: int, onlineUntil: int, end: int, env: Env): seq<Entry> {
    if end <= start then []
    else
      seq(DayOf(end - 1, env) - DayOf(start, env) + 1,
          i requires 0 <= i =>
            Entry(agentId, DayOf(start, env) + i, Overlap(start, end, DayOf(start, env) + i, env),
                  Overlap(start, onlineUntil, DayOf(start, env) + i, env)))
  }

  function LiveEntries(metric: Metric, now: int, env: Env): seq<Entry> {
    if metric.updatedAt == 0 || now == 0 || now <= metric.updatedAt then []
    else
      IntervalEntries(metric.agentId, SpanStart(metric.updatedAt, now, env),
                      OnlineUntil(metric.updatedAt, now, env), now, env)
  }

  function AllLive(metrics: seq<Metric>, now: int, env: Env): seq<Entry> {
    if metrics == [] then []
    else AllLive(metrics[..|metrics| - 1], now, env) + LiveEntries(metrics[|metrics| - 1], now, env)
  }

  predicate HasStored(stored: seq<Entry>, agentId: string) {
    exists i :: 0 <= i < |stored| && stored[i].agentId == agentId
  }

  /** The earliest stored day of an agent; 0 if it has none. */
  function FirstStored(stored: seq<Entry>, agentId: string): (first: int)
    ensures forall i :: 0 <= i < |stored| && stored[i].agentId == agentId ==> first <= stored[i].day
  {
    if stored == [] then 0
    else
      var init, last := stored[..|stored| - 1], stored[|stored| - 1];
      if last.agentId != agentId then FirstStored(init, agentId)
      else if HasStored(init, agentId) then MinInt(FirstStored(init, agentId), last.day)
      else last.day
  }

  /** The last metric row of an agent, or one that reported nothing. */
  function MetricOf(metrics: seq<Metric>, agentId: string): Metric {
    if metrics == [] then Metric(agentId, 0, 0)
    else if metrics[|metrics| - 1].agentId == agentId then metrics[|metrics| - 1]
    else MetricOf(metrics[..|metrics| - 1], agentId)
  }

  function DropFrom(entries: seq<Entry>, day: int): seq<Entry> {
    if entries == [] then []
    else if entries[|entries| - 1].day >= day then DropFrom(entries[..|entries| - 1], day)
    else DropFrom(entries[..|entries| - 1], day) + [entries[|entries| - 1]]
  }

  /** The uptime of a target without a public address, clipped to its creation and the retention. */
  function BaselineOf(target: Target, stored: seq<Entry>, metrics: seq<Metric>, now: int, env: Env): seq<Entry> {
    var metric := MetricOf(metrics, target.id);
    var endAt := metric.updatedAt;
    var startAt := MaxInt(MaxInt(endAt - metric.uptimeSec, target.createdAt), now - env.retentionDays * DAY);
    if !target.noPublicIp || target.id == "" || endAt == 0 || metric.uptimeSec == 0 || endAt <= startAt then []
    else
      var days := IntervalEntries(target.id, startAt, endAt, endAt, env);
      if HasStored(stored, target.id) then DropFrom(days, FirstStored(stored, target.id)) else days
  }

  function Baseline(targets: seq<Target>, stored: seq<Entry>, metrics: seq<Metric>, now: int, env: Env): seq<Entry> {
    if targets == [] then []
    else
      Baseline(targets[..|targets| - 1], stored, metrics, now, env)
      + BaselineOf(targets[|targets| - 1], stored, metrics, now, env)
  }

  function MergeRow(rows: Merged, e: Entry): Merged {
    if e.agentId == "" then rows
    else
      var key := (e.agentId, e.day);
      var row := if key in rows then rows[key] else Row(0, 0);
      rows[key := Row(row.total + MaxInt(0, e.total), row.ok + MaxInt(0, e.ok))]
  }

  function MergeAll(rows: Merged, entries: seq<Entry>): Merged {
    if entries == [] then rows
    else MergeRow(MergeAll(rows, entries[..|entries| - 1]), entries[|entries| - 1])
  }

  function MergedRows(stored: seq<Entry>, metrics: seq<Metric>, targets: seq<Target>, now: int, env: Env): Merged {
    MergeAll(MergeAll(MergeAll(map[], Baseline(targets, stored, metrics, now, env)), stored), AllLive(metrics, now, env))
  }

  method Merge(rows: Merged, entries: seq<Entry>) returns (result: Merged)
    ensures result == MergeAll(rows, entries)
  {
    result := rows;
    for i := 0 to |entries|
      invariant result == MergeAll(rows, entries[..i])
    {
      if entries[i].agentId != "" {
        var key := (entries[i].agentId, entries[i].day);
        var row := if key in result then result[key] else Row(0, 0);
        row := row.(total := row.total + MaxInt(0, entries[i].total));
        row := row.(ok := row.ok + MaxInt(0, entries[i].ok));
        result := result[key := row];
      }
      assert entries[..i + 1][..i] == entries[..i];
    }
    assert entries[..|entries|] == entries;
  }

  /** The values of a map of days, in the order of the days. */
  method EntriesOf(agentId: string, rows: Rows, start: int, onlineUntil: int, end: int, env: Env) returns (entries: seq<Entry>)
    requires start < end
    requires forall d :: DayOf(start, env) <= d <= DayOf(end - 1, env) ==>
               d in rows && rows[d] == Row(Overlap(start, end, d, env), Overlap(start, onlineUntil, d, env))
    ensures entries == IntervalEntries(agentId, start, onlineUntil, end, env)
  {
    entries := [];
    DayMonotone(start, end - 1, env);
    var first, count := DayOf(start, env), DayOf(end - 1, env) - DayOf(start, env) + 1;
    for i := 0 to count
      invariant entries == IntervalEntries(agentId, start, onlineUntil, end, env)[..i]
    {
      entries := entries + [Entry(agentId, first + i, rows[first + i].total, rows[first + i].ok)];
    }
  }

  /** Days from the first stored one on are left to what is stored. */
  method BeforeStored(days: seq<Entry>, stored: seq<Entry>, agentId: string) returns (kept: seq<Entry>)
    ensures kept == if HasStored(stored, agentId) then DropFrom(days, FirstStored(stored, agentId)) else days
  {
    kept := [];
    for i := 0 to |days|
      invariant kept == if HasStored(stored, agentId) then DropFrom(days[..i], FirstStored(stored, agentId)) else days[..i]
    {
      assert days[..i + 1][..i] == days[..i];
      if HasStored(stored, agentId) && days[i].day >= FirstStored(stored, agentId) {
        continue;
      }
      kept := kept + [days[i]];
    }
    assert days[..|days|] == days;
  }

  method UptimeBaselineRows(stored: seq<Entry>, metrics: seq<Metric>, targets: seq<Target>, now: int, env: Env)
    returns (output: seq<Entry>)
    ensures output == Baseline(targets, stored, metrics, now, env)
  {
    hide AddsInterval, DropFrom, FirstStored, HasStored, IntervalEntries, MetricOf, Overlap;
    output := [];
    for i := 0 to |targets|
      invariant output == Baseline(targets[..i], stored, metrics, now, env)
    {
      assert targets[..i + 1][..i] == targets[..i];
      var id := targets[i].id;
      var endAt, uptimeSec := MetricOf(metrics, id).updatedAt, MetricOf(metrics, id).uptimeSec;
      var startAt := MaxInt(MaxInt(endAt - uptimeSec, targets[i].createdAt), now - env.retentionDays * DAY);
      if !targets[i].noPublicIp || id == "" || endAt == 0 || uptimeSec == 0 || endAt <= startAt {
        continue;
      }
      var rows := AddInterval(map[], startAt, endAt, true, env);
      IntervalIsRows(rows, startAt, endAt, env);
      var days := EntriesOf(id, rows, startAt, endAt, endAt, env);
      var kept := BeforeStored(days, stored, id);
      output := output + kept;
    }
    assert targets[..|targets|] == targets;
  }

  lemma IntervalIsRows(rows: Rows, start: int, end: int, env: Env)
    requires start < end && AddsInterval(map[], rows, start, end, true, env)
    ensures forall d :: DayOf(start, env) <= d <= DayOf(end - 1, env) ==>
              d in rows && rows[d] == Row(Overlap(start, end, d, env), Overlap(start, end, d, env))
  {
    forall d | DayOf(start, env) <= d <= DayOf(end - 1, env)
      ensures d in rows && rows[d] == Row(Overlap(start, end, d, env), Overlap(start, end, d, env))
    {
      OverlapDays(start, end, d, env);
    }
  }

  method MergeAgentAvailabilityRows(stored: seq<Entry>, metrics: seq<Metric>, targets: seq<Target>, now: int, env: Env)
    returns (byKey: Merged)
    requires ValidEnv(env)
    ensures byKey == MergedRows(stored, metrics, targets, now, env)
  {
    var baseline := UptimeBaselineRows(stored, metrics, targets, now, env);
    byKey := Merge(map[], baseline);
    byKey := Merge(byKey, stored);
    ghost var before := byKey;
    for i := 0 to |metrics|
      invariant byKey == MergeAll(before, AllLive(metrics[..i], now, env))
    {
      var rows := AgentAvailabilitySegments(metrics[i].updatedAt, now, env);
      var live := [];
      if rows != map[] {
        SegmentsAt(metrics[i].updatedAt, now, 0, env);
        live := EntriesOf(metrics[i].agentId, rows, SpanStart(metrics[i].updatedAt, now, env),
                          OnlineUntil(metrics[i].updatedAt, now, env), now, env);
      } else {
        NoSegmentsNoEntries(metrics[i], now, env);
      }
      byKey := Merge(byKey, live);
      assert metrics[..i + 1][..i] == metrics[..i];
      MergeConcat(before, AllLive(metrics[..i], now, env), live);
    }
    assert metrics[..|metrics|] == metrics;
  }

  lemma NoSegmentsNoEntries(metric: Metric, now: int, env: Env)
    requires ValidEnv(env) && Segments(metric.updatedAt, now, env) == map[]
    ensures LiveEntries(metric, now, env) == []
  {
    if metric.updatedAt != 0 && now != 0 && metric.updatedAt < now {
      var start := SpanStart(metric.updatedAt, now, env);
      SegmentsAt(metric.updatedAt, now, DayOf(start, env), env);
      OverlapDays(start, now, DayOf(start, env), env);
      DayMonotone(start, now - 1, env);
      assert false;
    }
  }

  lemma {:induction false} MergeConcat(rows: Merged, a: seq<Entry>, b: seq<Entry>)
    ensures MergeAll(rows, a + b) == MergeAll(MergeAll(rows, a), b)
  {
    if b == [] {
      assert a + b == a;
    } else {
      var all := a + b;
      assert all[|all| - 1] == b[|b| - 1] && all[..|all| - 1] == a + b[..|b| - 1];
      MergeConcat(rows, a, b[..|b| - 1]);
    }
  }

  // ----- Sums per agent and day -----

  function SumTotal(entries: seq<Entry>, agentId: string, d: int): int {
    if entries == [] then 0
    else
      var last := entries[|entries| - 1];
      SumTotal(entries[..|entries| - 1], agentId, d)
      + if last.agentId == agentId && last.day == d then MaxInt(0, last.total) else 0
  }

  function SumOk(entries: seq<Entry>, agentId: string, d: int): int {
    if entries == [] then 0
    else
      var last := entries[|entries| - 1];
      SumOk(entries[..|entries| - 1], agentId, d)
      + if last.agentId == agentId && last.day == d then MaxInt(0, last.ok) else 0
  }

  function TotalAt(rows: Merged, agentId: string, d: int): int {
    if (agentId, d) in rows then rows[(agentId, d)].total else 0
  }

  function OkAt(rows: Merged, agentId: string, d: int): int {
    if (agentId, d) in rows then rows[(agentId, d)].ok else 0
  }

  lemma {:induction false} MergeSums(rows: Merged, entries: seq<Entry>, agentId: string, d: int)
    requires agentId != ""
    ensures TotalAt(MergeAll(rows, entries), agentId, d) == TotalAt(rows, agentId, d) + SumTotal(entries, agentId, d)
    ensures OkAt(MergeAll(rows, entries), agentId, d) == OkAt(rows, agentId, d) + SumOk(entries, agentId, d)
  {
    if entries == [] {
    } else {
      MergeSums(rows, entries[..|entries| - 1], agentId, d);
    }
  }

  lemma {:induction false} SumsConcat(a: seq<Entry>, b: seq<Entry>, agentId: string, d: int)
    ensures SumTotal(a + b, agentId, d) == SumTotal(a, agentId, d) + SumTotal(b, agentId, d)
    ensures SumOk(a + b, agentId, d) == SumOk(a, agentId, d) + SumOk(b, agentId, d)
  {
    if b == [] {
      assert a + b == a;
    } else {
      var all := a + b;
      assert all[|all| - 1] == b[|b| - 1] && all[..|all| - 1] == a + b[..|b| - 1];
      SumsConcat(a, b[..|b| - 1], agentId, d);
    }
  }

  ghost predicate AllOf(entries: seq<Entry>, agentId: string) {
    forall i :: 0 <= i < |entries| ==> entries[i].agentId == agentId
  }

  lemma {:induction false} OtherAgentsSumToZero(entries: seq<Entry>, owner: string, agentId: string, d: int)
    requires AllOf(entries, owner) && owner != agentId
    ensures SumTotal(entries, agentId, d) == 0 && SumOk(entries, agentId, d) == 0
  {
    if entries == [] {
    } else {
      OtherAgentsSumToZero(entries[..|entries| - 1], owner, agentId, d);
    }
  }

  /** Days strictly ascending: each occurs at most once. */
  ghost predicate Ascending(entries: seq<Entry>) {
    forall i, j :: 0 <= i < j < |entries| ==> entries[i].day < entries[j].day
  }

  lemma {:induction false} AbsentDaySumsToZero(entries: seq<Entry>, agentId: string, d: int)
    requires forall i :: 0 <= i < |entries| ==> entries[i].day != d
    ensures SumTotal(entries, agentId, d) == 0 && SumOk(entries, agentId, d) == 0
  {
    if entries == [] {
    } else {
      AbsentDaySumsToZero(entries[..|entries| - 1], agentId, d);
    }
  }

  /** An interval puts on each day at most its overlap with it, and no more online than total. */
  lemma {:induction false} IntervalSums(
      entries: seq<Entry>, agentId: string, start: int, onlineUntil: int, end: int, d: int, env: Env)
    requires start <= onlineUntil <= end && Ascending(entries)
    requires forall i :: 0 <= i < |entries| ==>
               entries[i] == Entry(agentId, entries[i].day, Overlap(start, end, entries[i].day, env),
                                   Overlap(start, onlineUntil, entries[i].day, env))
    ensures 0 <= SumOk(entries, agentId, d) <= SumTotal(entries, agentId, d) <= Overlap(start, end, d, env)
  {
    if entries == [] {
    } else {
      var init, last := entries[..|entries| - 1], entries[|entries| - 1];
      if last.day == d {
        AbsentDaySumsToZero(init, agentId, d);
      } else {
        IntervalSums(init, agentId, start, onlineUntil, end, d, env);
      }
    }
  }

  lemma {:induction false} DropFromKeeps(entries: seq<Entry>, day: int)
    requires Ascending(entries)
    ensures DropFrom(entries, day) <= entries
    ensures forall i :: 0 <= i < |DropFrom(entries, day)| ==> DropFrom(entries, day)[i].day < day
  {
    if entries == [] {
    } else {
      var init, last := entries[..|entries| - 1], entries[|entries| - 1];
      assert entries == init + [last];
      if last.day < day {
        assert forall i :: 0 <= i < |init| ==> init[i].day < last.day;
        AllBelow(init, day);
      } else {
        DropFromKeeps(init, day);
        assert init <= entries;
      }
    }
  }

  lemma {:induction false} AllBelow(entries: seq<Entry>, day: int)
    requires forall i :: 0 <= i < |entries| ==> entries[i].day < day
    ensures DropFrom(entries, day) == entries
  {
    if entries == [] {
    } else {
      AllBelow(entries[..|entries| - 1], day);
    }
  }

  // ----- A day is never overfilled -----

  ghost predicate DistinctMetrics(metrics: seq<Metric>) {
    forall i, j :: 0 <= i < j < |metrics| ==> metrics[i].agentId != metrics[j].agentId
  }

  /** Only a target without a public address has a baseline. */
  predicate Eligible(target: Target, agentId: string) {
    target.noPublicIp && target.id == agentId
  }

  ghost predicate OneEligible(targets: seq<Target>, agentId: string) {
    forall i, j :: 0 <= i < j < |targets| ==> !(Eligible(targets[i], agentId) && Eligible(targets[j], agentId))
  }

  ghost predicate DistinctStored(stored: seq<Entry>) {
    forall i, j :: 0 <= i < j < |stored| ==> stored[i].agentId != stored[j].agentId || stored[i].day != stored[j].day
  }

  /** An agent's stored rows cover time before its last report, once. */
  ghost predicate StoredUpTo(stored: seq<Entry>, metrics: seq<Metric>, agentId: string, env: Env) {
    var last := MetricOf(metrics, agentId).updatedAt;
    forall i :: 0 <= i < |stored| && stored[i].agentId == agentId ==>
      && 0 <= stored[i].ok <= stored[i].total <= DAY
      && (last != 0 ==> stored[i].total <= Overlap(DayStart(stored[i].day, env), last, stored[i].day, env))
  }

  lemma {:induction false} LiveSums(metrics: seq<Metric>, agentId: string, now: int, d: int, env: Env)
    requires ValidEnv(env) && DistinctMetrics(metrics)
    ensures var last := MetricOf(metrics, agentId).updatedAt;
            0 <= SumOk(AllLive(metrics, now, env), agentId, d) <= SumTotal(AllLive(metrics, now, env), agentId, d)
            <= if last == 0 then 0 else Overlap(last, MaxInt(last, now), d, env)
  {
    if metrics == [] {
    } else {
      var init, metric := metrics[..|metrics| - 1], metrics[|metrics| - 1];
      LiveSums(init, agentId, now, d, env);
      SumsConcat(AllLive(init, now, env), LiveEntries(metric, now, env), agentId, d);
      if metric.agentId != agentId {
        OtherAgentsSumToZero(LiveEntries(metric, now, env), metric.agentId, agentId, d);
      } else {
        NoMetric(init, agentId);
        LiveOfSums(metric, now, d, env);
      }
    }
  }

  lemma LiveOfSums(metric: Metric, now: int, d: int, env: Env)
    requires ValidEnv(env)
    ensures var entries := LiveEntries(metric, now, env);
            0 <= SumOk(entries, metric.agentId, d) <= SumTotal(entries, metric.agentId, d)
            <= if metric.updatedAt == 0 then 0 else Overlap(metric.updatedAt, MaxInt(metric.updatedAt, now), d, env)
  {
    if metric.updatedAt != 0 && now != 0 && metric.updatedAt < now {
      var start := SpanStart(metric.updatedAt, now, env);
      IntervalEntriesSums(metric.agentId, start, OnlineUntil(metric.updatedAt, now, env), now, d, env);
      OverlapSplits(metric.updatedAt, start, now, d, env);
    }
  }

  lemma IntervalEntriesSums(agentId: string, start: int, onlineUntil: int, end: int, d: int, env: Env)
    requires start <= onlineUntil <= end
    ensures var entries := IntervalEntries(agentId, start, onlineUntil, end, env);
            0 <= SumOk(entries, agentId, d) <= SumTotal(entries, agentId, d) <= Overlap(start, end, d, env)
  {
    IntervalSums(IntervalEntries(agentId, start, onlineUntil, end, env), agentId, start, onlineUntil, end, d, env);
  }

  lemma {:induction false} NoMetric(metrics: seq<Metric>, agentId: string)
    requires forall i :: 0 <= i < |metrics| ==> metrics[i].agentId != agentId
    ensures MetricOf(metrics, agentId).updatedAt == 0
  {
    if metrics == [] {
    } else {
      NoMetric(metrics[..|metrics| - 1], agentId);
    }
  }

  lemma {:induction false} NoTarget(
      targets: seq<Target>, stored: seq<Entry>, metrics: seq<Metric>, agentId: string, now: int, d: int, env: Env)
    requires forall i :: 0 <= i < |targets| ==> !Eligible(targets[i], agentId)
    ensures SumTotal(Baseline(targets, stored, metrics, now, env), agentId, d) == 0
    ensures SumOk(Baseline(targets, stored, metrics, now, env), agentId, d) == 0
  {
    if targets == [] {
    } else {
      var init, target := targets[..|targets| - 1], targets[|targets| - 1];
      NoTarget(init, stored, metrics, agentId, now, d, env);
      SumsConcat(Baseline(init, stored, metrics, now, env), BaselineOf(target, stored, metrics, now, env), agentId, d);
      if target.id != agentId {
        BaselineOwner(target, stored, metrics, now, env);
        OtherAgentsSumToZero(BaselineOf(target, stored, metrics, now, env), target.id, agentId, d);
      }
    }
  }

  lemma BaselineOwner(target: Target, stored: seq<Entry>, metrics: seq<Metric>, now: int, env: Env)
    ensures AllOf(BaselineOf(target, stored, metrics, now, env), target.id)
  {
    var endAt := MetricOf(metrics, target.id).updatedAt;
    var startAt := MaxInt(MaxInt(endAt - MetricOf(metrics, target.id).uptimeSec, target.createdAt),
                          now - env.retentionDays * DAY);
    DropFromKeeps(IntervalEntries(target.id, startAt, endAt, endAt, env), FirstStored(stored, target.id));
  }

  lemma BaselineOfSums(target: Target, stored: seq<Entry>, metrics: seq<Metric>, now: int, d: int, env: Env)
    ensures BaselineFits(BaselineOf(target, stored, metrics, now, env), target.id,
                         MetricOf(metrics, target.id).updatedAt, stored, d, env)
  {
    var metric := MetricOf(metrics, target.id);
    var endAt := metric.updatedAt;
    var startAt := MaxInt(MaxInt(endAt - metric.uptimeSec, target.createdAt), now - env.retentionDays * DAY);
    if target.noPublicIp && target.id != "" && endAt != 0 && metric.uptimeSec != 0 && startAt < endAt {
      if HasStored(stored, target.id) {
        TrimmedSums(target.id, startAt, endAt, FirstStored(stored, target.id), d, env);
      } else {
        IntervalEntriesSums(target.id, startAt, endAt, endAt, d, env);
      }
    }
  }

  /** What an agent's baseline may hold of a day whose agent last reported at `last`. */
  predicate BaselineFits(entries: seq<Entry>, agentId: string, last: int, stored: seq<Entry>, d: int, env: Env) {
    && 0 <= SumOk(entries, agentId, d) <= SumTotal(entries, agentId, d)
    && SumTotal(entries, agentId, d) <= (if last == 0 then 0 else Overlap(DayStart(d, env), last, d, env))
    && (HasStored(stored, agentId) && d >= FirstStored(stored, agentId) ==> SumTotal(entries, agentId, d) == 0)
  }

  lemma TrimmedSums(agentId: string, startAt: int, endAt: int, first: int, d: int, env: Env)
    requires startAt < endAt
    ensures var entries := DropFrom(IntervalEntries(agentId, startAt, endAt, endAt, env), first);
            && 0 <= SumOk(entries, agentId, d) <= SumTotal(entries, agentId, d) <= Overlap(startAt, endAt, d, env)
            && (d >= first ==> SumTotal(entries, agentId, d) == 0)
  {
    var days := IntervalEntries(agentId, startAt, endAt, endAt, env);
    var entries := DropFrom(days, first);
    DropFromKeeps(days, first);
    assert forall i :: 0 <= i < |entries| ==> entries[i] == days[i];
    IntervalSums(entries, agentId, startAt, endAt, endAt, d, env);
    if d >= first {
      AbsentDaySumsToZero(entries, agentId, d);
    }
  }

  lemma {:induction false} BaselineSums(
      targets: seq<Target>, stored: seq<Entry>, metrics: seq<Metric>, agentId: string, now: int, d: int, env: Env)
    requires OneEligible(targets, agentId)
    ensures BaselineFits(Baseline(targets, stored, metrics, now, env), agentId,
                         MetricOf(metrics, agentId).updatedAt, stored, d, env)
  {
    if targets == [] {
    } else {
      var init, target := targets[..|targets| - 1], targets[|targets| - 1];
      SumsConcat(Baseline(init, stored, metrics, now, env), BaselineOf(target, stored, metrics, now, env), agentId, d);
      if Eligible(target, agentId) {
        NoTarget(init, stored, metrics, agentId, now, d, env);
        BaselineOfSums(target, stored, metrics, now, d, env);
      } else {
        BaselineSums(init, stored, metrics, agentId, now, d, env);
        if target.id != agentId {
          BaselineOwner(target, stored, metrics, now, env);
          OtherAgentsSumToZero(BaselineOf(target, stored, metrics, now, env), target.id, agentId, d);
        }
      }
    }
  }

  /** An agent's stored seconds of a day: at most one row, and none before the first stored day. */
  lemma {:induction false} StoredSums(stored: seq<Entry>, agentId: string, d: int)
    requires DistinctStored(stored)
    ensures (forall i :: 0 <= i < |stored| ==> stored[i].agentId != agentId || stored[i].day != d) ==>
              SumTotal(stored, agentId, d) == 0 && SumOk(stored, agentId, d) == 0
    ensures forall i :: 0 <= i < |stored| && stored[i].agentId == agentId && stored[i].day == d ==>
              SumTotal(stored, agentId, d) == MaxInt(0, stored[i].total)
              && SumOk(stored, agentId, d) == MaxInt(0, stored[i].ok)
  {
    if stored == [] {
    } else {
      StoredSums(stored[..|stored| - 1], agentId, d);
    }
  }

  /**
   Stored, live and baseline time never add up to more than a day, nor online time to more than
   the total, when the agent has one eligible target at most and stored rows cover reports up to
   the last one.
   */
  lemma NeverOverfills(
      stored: seq<Entry>, metrics: seq<Metric>, targets: seq<Target>, now: int, env: Env, agentId: string, d: int)
    requires ValidEnv(env) && agentId != ""
    requires DistinctStored(stored) && DistinctMetrics(metrics) && OneEligible(targets, agentId)
    requires StoredUpTo(stored, metrics, agentId, env)
    ensures var rows := MergedRows(stored, metrics, targets, now, env);
            0 <= OkAt(rows, agentId, d) <= TotalAt(rows, agentId, d) <= DAY
  {
    var base, live := Baseline(targets, stored, metrics, now, env), AllLive(metrics, now, env);
    MergeSums(map[], base, agentId, d);
    MergeSums(MergeAll(map[], base), stored, agentId, d);
    MergeSums(MergeAll(MergeAll(map[], base), stored), live, agentId, d);
    var last := MetricOf(metrics, agentId).updatedAt;
    LiveSums(metrics, agentId, now, d, env);
    BaselineSums(targets, stored, metrics, agentId, now, d, env);
    StoredSums(stored, agentId, d);
    OverlapSplitsAtDayStart(last, MaxInt(last, now), d, env);
    if i :| 0 <= i < |stored| && stored[i].agentId == agentId && stored[i].day == d {
      assert HasStored(stored, agentId) && FirstStored(stored, agentId) <= d;
    }
  }

  lemma OverlapSplitsAtDayStart(last: int, end: int, d: int, env: Env)
    requires last <= end
    ensures Overlap(DayStart(d, env), last, d, env) + Overlap(last, end, d, env) <= DAY
  {
  }

  /** What the ledger of a regular run of reports stores of a day meets the bound above. */
  lemma {:induction false} LedgerRowFits(reports: seq<int>, d: int, env: Env)
    requires ValidEnv(env) && Regular(reports, env) && reports != []
    ensures var rows := RecordAll(reports, env);
            && 0 <= OkOf(rows, d) <= TotalOf(rows, d) <= DAY
            && TotalOf(rows, d) <= Overlap(DayStart(d, env), reports[|reports| - 1], d, env)
  {
    OnlineWithinTotal(reports, d, env);
    LedgerIsExact(reports, d, env);
  }

  /** The agent's rows are the days its reports recorded. */
  ghost predicate Records(stored: seq<Entry>, agentId: string, reports: seq<int>, env: Env) {
    var rows := RecordAll(reports, env);
    forall i :: 0 <= i < |stored| && stored[i].agentId == agentId ==>
      stored[i].day in rows && rows[stored[i].day] == Row(stored[i].total, stored[i].ok)
  }

  /** Of an agent that reports regularly no day shown, recorded or not, is ever more than a day. */
  lemma {:induction false} RegularReportsNeverOverfill(
      reports: seq<int>, stored: seq<Entry>, metrics: seq<Metric>, targets: seq<Target>, now: int, env: Env,
      agentId: string, d: int)
    requires ValidEnv(env) && agentId != "" && Regular(reports, env) && reports != []
    requires Records(stored, agentId, reports, env) && MetricOf(metrics, agentId).updatedAt == reports[|reports| - 1]
    requires DistinctStored(stored) && DistinctMetrics(metrics) && OneEligible(targets, agentId)
    ensures var rows := MergedRows(stored, metrics, targets, now, env);
            0 <= OkAt(rows, agentId, d) <= TotalAt(rows, agentId, d) <= DAY
  {
    hide DistinctMetrics, DistinctStored, MergedRows, OneEligible, Overlap, RecordAll, Regular;
    forall i | 0 <= i < |stored| && stored[i].agentId == agentId
      ensures 0 <= stored[i].ok <= stored[i].total <= DAY
      ensures stored[i].total <= Overlap(DayStart(stored[i].day, env), reports[|reports| - 1], stored[i].day, env)
    {
      LedgerRowFits(reports, stored[i].day, env);
    }
    NeverOverfills(stored, metrics, targets, now, env, agentId, d);
  }

  // ----- What the baseline holds -----

  lemma {:induction false} FirstStoredIsEarliest(stored: seq<Entry>, agentId: string)
    requires HasStored(stored, agentId)
    ensures exists i :: 0 <= i < |stored| && stored[i].agentId == agentId && stored[i].day == FirstStored(stored, agentId)
    ensures forall i :: 0 <= i < |stored| && stored[i].agentId == agentId ==> FirstStored(stored, agentId) <= stored[i].day
  {
    var init, last := stored[..|stored| - 1], stored[|stored| - 1];
    if HasStored(init, agentId) {
      FirstStoredIsEarliest(init, agentId);
      var i :| 0 <= i < |init| && init[i].agentId == agentId && init[i].day == FirstStored(init, agentId);
      assert stored[i] == init[i];
    } else {
      assert forall i :: 0 <= i < |init| ==> stored[i] == init[i] && init[i].agentId != agentId;
    }
  }

  lemma {:induction false} DropFromSums(entries: seq<Entry>, first: int, agentId: string, d: int)
    ensures SumTotal(DropFrom(entries, first), agentId, d) == if d < first then SumTotal(entries, agentId, d) else 0
    ensures SumOk(DropFrom(entries, first), agentId, d) == if d < first then SumOk(entries, agentId, d) else 0
  {
    if entries == [] {
    } else {
      var init, last := entries[..|entries| - 1], entries[|entries| - 1];
      DropFromSums(init, first, agentId, d);
      if last.day < first {
        var kept := DropFrom(init, first) + [last];
        assert kept[..|kept| - 1] == DropFrom(init, first) && kept[|kept| - 1] == last;
      }
    }
  }

  /** When a target's uptime may count: behind its start, its target's creation, and the retention. */
  function UptimeFrom(target: Target, metric: Metric, now: int, env: Env): int {
    MaxInt(MaxInt(metric.updatedAt - metric.uptimeSec, target.createdAt), now - 86400 * env.retentionDays)
  }

  /** A target without a public address shows, of each day before the first stored one, its seconds of uptime. */
  lemma {:induction false} BaselineExact(target: Target, stored: seq<Entry>, metrics: seq<Metric>, now: int, d: int, env: Env)
    ensures var metric := MetricOf(metrics, target.id);
            var entries := BaselineOf(target, stored, metrics, now, env);
            var seconds := if target.noPublicIp && target.id != "" && metric.updatedAt != 0 && metric.uptimeSec != 0
                              && (forall i :: 0 <= i < |stored| && stored[i].agentId == target.id ==> d < stored[i].day)
                           then Overlap(UptimeFrom(target, metric, now, env), metric.updatedAt, d, env) else 0;
            SumTotal(entries, target.id, d) == seconds == SumOk(entries, target.id, d)
  {
    hide DropFrom, FirstStored, MetricOf, SumOk, SumTotal;
    var metric := MetricOf(metrics, target.id);
    var from, end := UptimeFrom(target, metric, now, env), metric.updatedAt;
    NothingSums(target.id, d);
    if HasStored(stored, target.id) {
      FirstStoredIsEarliest(stored, target.id);
      DropFromSums(IntervalEntries(target.id, from, end, end, env), FirstStored(stored, target.id), target.id, d);
    }
    if from < end {
      IntervalAt(target.id, from, end, end, d, env);
      OverlapDays(from, end, d, env);
    }
  }

  lemma NothingSums(agentId: string, d: int)
    ensures SumTotal([], agentId, d) == 0 == SumOk([], agentId, d)
  {
  }

  lemma {:induction false} OnlyBaseline(
      targets: seq<Target>, i: nat, stored: seq<Entry>, metrics: seq<Metric>, agentId: string, now: int, d: int, env: Env)
    requires i < |targets| && Eligible(targets[i], agentId) && OneEligible(targets, agentId)
    ensures SumTotal(Baseline(targets, stored, metrics, now, env), agentId, d)
         == SumTotal(BaselineOf(targets[i], stored, metrics, now, env), agentId, d)
    ensures SumOk(Baseline(targets, stored, metrics, now, env), agentId, d)
         == SumOk(BaselineOf(targets[i], stored, metrics, now, env), agentId, d)
  {
    hide SumOk, SumTotal;
    var init, last := targets[..|targets| - 1], targets[|targets| - 1];
    SumsConcat(Baseline(init, stored, metrics, now, env), BaselineOf(last, stored, metrics, now, env), agentId, d);
    if i == |init| {
      NoTarget(init, stored, metrics, agentId, now, d, env);
    } else {
      OnlyBaseline(init, i, stored, metrics, agentId, now, d, env);
      BaselineExact(last, stored, metrics, now, d, env);
      BaselineOwner(last, stored, metrics, now, env);
      if last.id != agentId { OtherAgentsSumToZero(BaselineOf(last, stored, metrics, now, env), last.id, agentId, d); }
    }
  }

  /**
   Of any rows, whether reports were regular or not: a day shows the seconds stored of it, those
   since the last report, and, if nothing is stored up to it, those of the uptime before.
   */
  lemma {:induction false} MergedExactly(
      stored: seq<Entry>, metrics: seq<Metric>, targets: seq<Target>, i: nat, now: int, env: Env, agentId: string, d: int)
    requires ValidEnv(env) && agentId != "" && DistinctMetrics(metrics)
    requires i < |targets| && Eligible(targets[i], agentId) && OneEligible(targets, agentId)
    requires 0 < MetricOf(metrics, agentId).updatedAt < now && MetricOf(metrics, agentId).uptimeSec > 0
    ensures var rows, metric := MergedRows(stored, metrics, targets, now, env), MetricOf(metrics, agentId);
            var last, from := metric.updatedAt, MaxInt(metric.updatedAt, now - 86400 * env.retentionDays);
            var before := if forall k :: 0 <= k < |stored| && stored[k].agentId == agentId ==> d < stored[k].day
                          then Overlap(UptimeFrom(targets[i], metric, now, env), last, d, env) else 0;
            && TotalAt(rows, agentId, d) == SumTotal(stored, agentId, d) + Overlap(from, now, d, env) + before
            && OkAt(rows, agentId, d)
               == SumOk(stored, agentId, d) + Overlap(from, MinInt(now, last + env.offlineAfterSec), d, env) + before
  {
    hide AllLive, Baseline, BaselineOf, DistinctMetrics, MergeAll, Segments, SumOk, SumTotal;
    var base, live := Baseline(targets, stored, metrics, now, env), AllLive(metrics, now, env);
    MergeSums(map[], base, agentId, d);
    MergeSums(MergeAll(map[], base), stored, agentId, d);
    MergeSums(MergeAll(MergeAll(map[], base), stored), live, agentId, d);
    OnlyBaseline(targets, i, stored, metrics, agentId, now, d, env);
    BaselineExact(targets[i], stored, metrics, now, d, env);
    AllLiveSums(metrics, agentId, now, d, env);
    OwnMetric(metrics, agentId);
    LiveIsSegments(MetricOf(metrics, agentId), now, d, env);
    SegmentsAt(MetricOf(metrics, agentId).updatedAt, now, d, env);
  }

  // ----- Shown as if reported now -----

  lemma {:induction false} AllLiveSums(metrics: seq<Metric>, agentId: string, now: int, d: int, env: Env)
    requires DistinctMetrics(metrics)
    ensures var live := LiveEntries(MetricOf(metrics, agentId), now, env);
            && SumTotal(AllLive(metrics, now, env), agentId, d) == SumTotal(live, agentId, d)
            && SumOk(AllLive(metrics, now, env), agentId, d) == SumOk(live, agentId, d)
  {
    if metrics == [] {
    } else {
      hide LiveEntries, SumOk, SumTotal;
      var init, metric := metrics[..|metrics| - 1], metrics[|metrics| - 1];
      AllLiveSums(init, agentId, now, d, env);
      SumsConcat(AllLive(init, now, env), LiveEntries(metric, now, env), agentId, d);
      LiveOwner(metric, now, env);
      LiveOwner(MetricOf(init, agentId), now, env);
      if metric.agentId != agentId {
        OtherAgentsSumToZero(LiveEntries(metric, now, env), metric.agentId, agentId, d);
      } else {
        NoMetric(init, agentId);
        NoneLive(MetricOf(init, agentId), agentId, now, d, env);
      }
    }
  }

  lemma LiveOwner(metric: Metric, now: int, env: Env)
    ensures AllOf(LiveEntries(metric, now, env), metric.agentId)
  {
  }

  lemma NoneLive(metric: Metric, agentId: string, now: int, d: int, env: Env)
    requires metric.updatedAt == 0
    ensures SumTotal(LiveEntries(metric, now, env), agentId, d) == 0 == SumOk(LiveEntries(metric, now, env), agentId, d)
  {
  }

  lemma IntervalAt(agentId: string, start: int, onlineUntil: int, end: int, d: int, env: Env)
    requires start < end
    ensures var entries := IntervalEntries(agentId, start, onlineUntil, end, env);
            if DayOf(start, env) <= d <= DayOf(end - 1, env)
            then SumTotal(entries, agentId, d) == Overlap(start, end, d, env)
                 && SumOk(entries, agentId, d) == Overlap(start, onlineUntil, d, env)
            else SumTotal(entries, agentId, d) == 0 == SumOk(entries, agentId, d)
  {
    DayMonotone(start, end - 1, env);
    assert Overlap(start, end, d, env) >= 0 && Overlap(start, onlineUntil, d, env) >= 0;
    hide DayOf, Overlap, SumOk, SumTotal;
    var entries := IntervalEntries(agentId, start, onlineUntil, end, env);
    assert DistinctStored(entries);
    StoredSums(entries, agentId, d);
    if DayOf(start, env) <= d <= DayOf(end - 1, env) {
      assert entries[d - DayOf(start, env)].day == d;
    }
  }

  /** The time since the last report, as it is shown, is what a report now would record. */
  lemma LiveIsSegments(metric: Metric, now: int, d: int, env: Env)
    requires ValidEnv(env) && 0 < metric.updatedAt < now
    ensures SumTotal(LiveEntries(metric, now, env), metric.agentId, d) == TotalOf(Segments(metric.updatedAt, now, env), d)
    ensures SumOk(LiveEntries(metric, now, env), metric.agentId, d) == OkOf(Segments(metric.updatedAt, now, env), d)
  {
    hide DayOf, IntervalEntries, OnlineUntil, Overlap, SumOk, SumTotal;
    var start := SpanStart(metric.updatedAt, now, env);
    assert start < now;
    IntervalAt(metric.agentId, start, OnlineUntil(metric.updatedAt, now, env), now, d, env);
  }

  /** Stored are exactly the days the reports recorded. */
  ghost predicate RecordsAll(stored: seq<Entry>, agentId: string, reports: seq<int>, env: Env) {
    && DistinctStored(stored) && Records(stored, agentId, reports, env)
    && forall d <- RecordAll(reports, env) :: exists i :: 0 <= i < |stored| && stored[i].agentId == agentId && stored[i].day == d
  }

  /** The baseline adds nothing to the day: the agent has none, or the day is not before the first stored one. */
  ghost predicate NoBaseline(targets: seq<Target>, stored: seq<Entry>, agentId: string, d: int) {
    || (forall i :: 0 <= i < |targets| ==> !Eligible(targets[i], agentId))
    || (OneEligible(targets, agentId) && HasStored(stored, agentId) && d >= FirstStored(stored, agentId))
  }

  lemma StoredIsRecorded(stored: seq<Entry>, agentId: string, reports: seq<int>, d: int, env: Env)
    requires ValidEnv(env) && Regular(reports, env) && reports != [] && RecordsAll(stored, agentId, reports, env)
    ensures SumTotal(stored, agentId, d) == TotalOf(RecordAll(reports, env), d)
    ensures SumOk(stored, agentId, d) == OkOf(RecordAll(reports, env), d)
  {
    hide Regular, RecordAll, SumOk, SumTotal;
    OnlineWithinTotal(reports, d, env);
    StoredSums(stored, agentId, d);
    if d in RecordAll(reports, env) {
      var i :| 0 <= i < |stored| && stored[i].agentId == agentId && stored[i].day == d;
    }
  }

  /**
   Merging at any time shows of each kept day just what the ledger would hold had the agent
   reported at that time: its seconds since the first report, and the online ones among them.
   */
  lemma {:induction false} ShownAsIfReported(
      reports: seq<int>, stored: seq<Entry>, metrics: seq<Metric>, targets: seq<Target>, now: int, env: Env,
      agentId: string, d: int)
    requires ValidEnv(env) && agentId != "" && reports != [] && Regular(reports, env) && Regular(reports + [now], env)
    requires RecordsAll(stored, agentId, reports, env) && NoBaseline(targets, stored, agentId, d)
    requires DistinctMetrics(metrics) && MetricOf(metrics, agentId).updatedAt == reports[|reports| - 1]
    requires d >= DayOf(now - env.retentionDays * DAY, env)
    ensures var rows := MergedRows(stored, metrics, targets, now, env);
            && TotalAt(rows, agentId, d) == TotalOf(RecordAll(reports + [now], env), d)
            && OkAt(rows, agentId, d) == OkOf(RecordAll(reports + [now], env), d)
            && TotalAt(rows, agentId, d) == Overlap(reports[0], now, d, env)
            && OkAt(rows, agentId, d) == |OnlineSeconds(reports + [now], d, env)|
  {
    hide Cut, OnlineSeconds, Overlap;
    hide AllLive, Baseline, DistinctMetrics, MergeAll, RecordPair, RecordsAll, Segments, SumOk, SumTotal;
    var base, live := Baseline(targets, stored, metrics, now, env), AllLive(metrics, now, env);
    var last, all := reports[|reports| - 1], reports + [now];
    assert all[|reports| - 1] == last && all[|reports| - 1 + 1] == now && all[..|all| - 1] == reports;
    MergeSums(map[], base, agentId, d);
    MergeSums(MergeAll(map[], base), stored, agentId, d);
    MergeSums(MergeAll(MergeAll(map[], base), stored), live, agentId, d);
    NothingFromBaseline(targets, stored, metrics, agentId, now, d, env);
    StoredIsRecorded(stored, agentId, reports, d, env);
    AllLiveSums(metrics, agentId, now, d, env);
    OwnMetric(metrics, agentId);
    LiveIsSegments(MetricOf(metrics, agentId), now, d, env);
    PairRows(last, now, d, env);
    RecordPairIs(RecordAll(reports, env), last, now, d, env);
    LedgerIsExact(all, d, env);
    CutBehind(all, env);
  }

  lemma {:induction false} OwnMetric(metrics: seq<Metric>, agentId: string)
    ensures MetricOf(metrics, agentId).agentId == agentId
  {
    if metrics == [] {
    } else {
      OwnMetric(metrics[..|metrics| - 1], agentId);
    }
  }

  lemma NothingFromBaseline(
      targets: seq<Target>, stored: seq<Entry>, metrics: seq<Metric>, agentId: string, now: int, d: int, env: Env)
    requires NoBaseline(targets, stored, agentId, d)
    ensures var base := Baseline(targets, stored, metrics, now, env);
            SumTotal(base, agentId, d) == 0 == SumOk(base, agentId, d)
  {
    hide Baseline, FirstStored, HasStored, SumOk, SumTotal;
    if forall i :: 0 <= i < |targets| ==> !Eligible(targets[i], agentId) {
      NoTarget(targets, stored, metrics, agentId, now, d, env);
    } else {
      BaselineSums(targets, stored, metrics, agentId, now, d, env);
    }
  }

  // ----- Two targets of one agent -----

  /** Whatever is stored and reported by `latest`, no day of the agent holds more than a day. */
  ghost predicate NeverFull(targets: seq<Target>, agentId: string, latest: int, env: Env) {
    forall stored, metrics, now, d :: FitInput(stored, metrics, agentId, env) && now <= latest ==>
      TotalAt(MergedRows(stored, metrics, targets, now, env), agentId, d) <= DAY
  }

  ghost predicate FitInput(stored: seq<Entry>, metrics: seq<Metric>, agentId: string, env: Env) {
    DistinctStored(stored) && DistinctMetrics(metrics) && StoredUpTo(stored, metrics, agentId, env)
  }

  /** The later creation of two targets, in seconds. */
  function LaterCreation(a: Target, b: Target): int { MaxInt(0, MaxInt(a.createdAt, b.createdAt)) }

  /**
   An agent's days stay within a day exactly when at most one of its targets has a baseline; and if
   not, one is overfilled no later than two days after the last of the targets was created.
   */
  lemma NeverFullIff(targets: seq<Target>, agentId: string, latest: int, env: Env)
    requires ValidEnv(env) && agentId != ""
    requires forall target <- targets :: MaxInt(0, target.createdAt) + 2 * DAY <= latest
    ensures NeverFull(targets, agentId, latest, env) <==> OneEligible(targets, agentId)
  {
    if OneEligible(targets, agentId) {
      forall stored, metrics, now, d | FitInput(stored, metrics, agentId, env) && now <= latest
        ensures TotalAt(MergedRows(stored, metrics, targets, now, env), agentId, d) <= DAY
      {
        NeverOverfills(stored, metrics, targets, now, env, agentId, d);
      }
    } else {
      var i, j :| 0 <= i < j < |targets| && Eligible(targets[i], agentId) && Eligible(targets[j], agentId);
      assert targets[i] in targets && targets[j] in targets;
      var metrics, now, d := TwoEligibleOverfill(targets, i, j, agentId, env);
      assert FitInput([], metrics, agentId, env);
    }
  }

  /**
   Two eligible targets of one agent count a day of its uptime twice: the first whole day after
   both were created, when the agent reports as it ends.
   */
  lemma TwoEligibleOverfill(targets: seq<Target>, i: nat, j: nat, agentId: string, env: Env)
    returns (metrics: seq<Metric>, now: int, d: int)
    requires ValidEnv(env) && agentId != ""
    requires i < j < |targets| && Eligible(targets[i], agentId) && Eligible(targets[j], agentId)
    ensures var created := LaterCreation(targets[i], targets[j]);
            && d == DayOf(created, env) + 1 && created < now == DayStart(d + 1, env) <= created + 2 * DAY
            && metrics == [Metric(agentId, now, DAY)] && FitInput([], metrics, agentId, env)
    ensures TotalAt(MergedRows([], metrics, targets, now, env), agentId, d) >= 2 * DAY
  {
    var created := LaterCreation(targets[i], targets[j]);
    d := DayOf(created, env) + 1;
    now := DayStart(d + 1, env);
    metrics := [Metric(agentId, now, DAY)];
    DayBounds(created, d - 1, env);
    var base := Baseline(targets, [], metrics, now, env);
    WholeDay(targets[i], metrics, now, d, env);
    WholeDay(targets[j], metrics, now, d, env);
    TwoBaselines(targets, i, j, metrics, agentId, now, d, env);
    MergeSums(map[], base, agentId, d);
    MergeSums(MergeAll(map[], base), [], agentId, d);
    MergeSums(MergeAll(MergeAll(map[], base), []), AllLive(metrics, now, env), agentId, d);
    SumTotalNonNegative(AllLive(metrics, now, env), agentId, d);
  }

  lemma WholeDay(target: Target, metrics: seq<Metric>, now: int, d: int, env: Env)
    requires ValidEnv(env) && target.id != "" && target.noPublicIp
    requires target.createdAt <= DayStart(d, env) && 0 <= DayStart(d, env)
    requires now == DayStart(d + 1, env) && metrics == [Metric(target.id, now, DAY)]
    ensures SumTotal(BaselineOf(target, [], metrics, now, env), target.id, d) == DAY
  {
    var entries := BaselineOf(target, [], metrics, now, env);
    DayBounds(now - DAY, d, env);
    DayBounds(now - 1, d, env);
    assert !HasStored([], target.id) && now != 0;
    assert MaxInt(MaxInt(now - DAY, target.createdAt), now - env.retentionDays * DAY) == now - DAY == DayStart(d, env);
    assert DayOf(now - DAY, env) == DayOf(now - 1, env) == d;
    assert Overlap(now - DAY, now, d, env) == DAY;
    assert entries == IntervalEntries(target.id, now - DAY, now, now, env);
    assert |entries| == 1 && entries[0] == Entry(target.id, d, DAY, DAY);
    assert entries[..0] == [];
  }

  lemma {:induction false} SumTotalNonNegative(entries: seq<Entry>, agentId: string, d: int)
    ensures SumTotal(entries, agentId, d) >= 0
  {
    if entries == [] {
    } else {
      SumTotalNonNegative(entries[..|entries| - 1], agentId, d);
    }
  }

  lemma {:induction false} TwoBaselines(
      targets: seq<Target>, i: int, j: nat, metrics: seq<Metric>, agentId: string, now: int, d: int, env: Env)
    requires i < j < |targets|
    ensures SumTotal(Baseline(targets, [], metrics, now, env), agentId, d)
         >= (if i < 0 then 0 else SumTotal(BaselineOf(targets[i], [], metrics, now, env), agentId, d))
            + SumTotal(BaselineOf(targets[j], [], metrics, now, env), agentId, d)
  {
    hide BaselineOf;
    var init, last := targets[..|targets| - 1], targets[|targets| - 1];
    SumsConcat(Baseline(init, [], metrics, now, env), BaselineOf(last, [], metrics, now, env), agentId, d);
    SumTotalNonNegative(Baseline(init, [], metrics, now, env), agentId, d);
    SumTotalNonNegative(BaselineOf(last, [], metrics, now, env), agentId, d);
    if j < |targets| - 1 {
      TwoBaselines(init, i, j, metrics, agentId, now, d, env);
    } else if i >= 0 {
      TwoBaselines(init, -1, i, metrics, agentId, now, d, env);
    }
  }
}
