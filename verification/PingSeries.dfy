/**
 Pings grouped by target and written as a start time and deltas, and the reader that turns
 the groups back into pings.
 */
module PingSeries {
  import opened Telemetry
  import opened Wrappers

  /** Byte order of texts, as an ordered map keeps its keys. */
  predicate TextLess(a: Text, b: Text) {
    b != [] && (a == [] || a[0] < b[0] || (a[0] == b[0] && TextLess(a[1..], b[1..])))
  }

  lemma {:induction false} TextLessTransitive(a: Text, b: Text, c: Text)
    requires TextLess(a, b) && TextLess(b, c)
    ensures TextLess(a, c)
  {
    if a != [] && a[0] == b[0] && b[0] == c[0] {
      TextLessTransitive(a[1..], b[1..], c[1..]);
    }
  }

  lemma {:induction false} TextLessTotal(a: Text, b: Text)
    ensures TextLess(a, b) || a == b || TextLess(b, a)
    ensures !(TextLess(a, b) && (a == b || TextLess(b, a)))
  {
    if a != [] && b != [] {
      TextLessTotal(a[1..], b[1..]);
      assert a == [a[0]] + a[1..] && b == [b[0]] + b[1..];
    }
  }

  datatype Group = Group(targetId: Text, points: seq<PingResult>)

  /** The ordered map of targets: a new target goes to its place, a known one gets the ping last. */
  function AddPing(groups: seq<Group>, p: PingResult): seq<Group> {
    if groups == [] then [Group(p.targetId, [p])]
    else if p.targetId == groups[0].targetId then [groups[0].(points := groups[0].points + [p])] + groups[1..]
    else if TextLess(p.targetId, groups[0].targetId) then [Group(p.targetId, [p])] + groups
    else [groups[0]] + AddPing(groups[1..], p)
  }

  function GroupPings(pings: seq<PingResult>): seq<Group> {
    if pings == [] then [] else AddPing(GroupPings(pings[..|pings| - 1]), pings[|pings| - 1])
  }

  /** Into its place behind every point that is not later. */
  function InsertByTs(points: seq<PingResult>, p: PingResult): seq<PingResult> {
    if points == [] then [p]
    else if p.ts < points[0].ts then [p] + points
    else [points[0]] + InsertByTs(points[1..], p)
  }

  function SortByTs(points: seq<PingResult>): seq<PingResult> {
    if points == [] then [] else InsertByTs(SortByTs(points[..|points| - 1]), points[|points| - 1])
  }

  /** One target on the wire: columns of equal length. */
  datatype Series = Series(targetId: Text, t0: int, dt: seq<int>, latencyMs: seq<Option<Double>>, ok: seq<bool>)

  function FirstTs(points: seq<PingResult>): int {
    if points == [] then 0 else points[0].ts
  }

  function Columns(targetId: Text, t0: int, points: seq<PingResult>): Series {
    Series(targetId, t0, seq(|points|, i requires 0 <= i < |points| => points[i].ts - t0),
           seq(|points|, i requires 0 <= i < |points| => points[i].latencyMs),
           seq(|points|, i requires 0 <= i < |points| => points[i].ok))
  }

  function SeriesOf(group: Group): Series {
    var points := SortByTs(group.points);
    Columns(group.targetId, FirstTs(points), points)
  }

  function WriteSeries(groups: seq<Group>): seq<Series> {
    if groups == [] then [] else WriteSeries(groups[..|groups| - 1]) + [SeriesOf(groups[|groups| - 1])]
  }

  /** A ping as the reader sees it: times are plain numbers. */
  datatype ReadPing = ReadPing(targetId: Text, ts: int, latencyMs: Option<Double>, ok: bool)

  function AsRead(p: PingResult): ReadPing { ReadPing(p.targetId, p.ts, p.latencyMs, p.ok) }

  function AllAsRead(points: seq<PingResult>): seq<ReadPing> {
    seq(|points|, i requires 0 <= i < |points| => AsRead(points[i]))
  }

  /** A missing latency reads as none and a missing flag as false. */
  function PointAt(s: Series, i: nat): ReadPing
    requires i < |s.dt|
  {
    ReadPing(s.targetId, s.t0 + s.dt[i], if i < |s.latencyMs| then s.latencyMs[i] else None,
             i < |s.ok| && s.ok[i])
  }

  function ReadOne(s: Series): seq<ReadPing> {
    seq(|s.dt|, i requires 0 <= i < |s.dt| => PointAt(s, i))
  }

  function ReadAll(all: seq<Series>): seq<ReadPing> {
    if all == [] then [] else ReadAll(all[..|all| - 1]) + ReadOne(all[|all| - 1])
  }

  method NormalizePingPayload(all: seq<Series>) returns (pings: seq<ReadPing>)
    ensures pings == ReadAll(all)
  {
    pings := [];
    for k := 0 to |all|
      invariant pings == ReadAll(all[..k])
    {
      ghost var before := pings;
      for i := 0 to |all[k].dt|
        invariant pings == before + ReadOne(all[k])[..i]
      {
        pings := pings + [PointAt(all[k], i)];
      }
      assert all[..k + 1][..k] == all[..k];
    }
    assert all[..|all|] == all;
  }

  // ----- What a stable sort is -----

  predicate KeyLess(aId: Text, aTs: int, bId: Text, bTs: int) {
    TextLess(aId, bId) || (aId == bId && aTs < bTs)
  }

  predicate Ordered(pings: seq<PingResult>) {
    forall i, j :: 0 <= i < j < |pings| ==> !KeyLess(pings[j].targetId, pings[j].ts, pings[i].targetId, pings[i].ts)
  }

  /** The pings of one target and time, in order. */
  function WithKey(pings: seq<PingResult>, id: Text, ts: int): seq<PingResult> {
    if pings == [] then []
    else (if pings[0].targetId == id && pings[0].ts == ts then [pings[0]] else []) + WithKey(pings[1..], id, ts)
  }

  /** Ordered by target and time, pings of equal key in their original order, none lost or added. */
  ghost predicate IsStableSort(input: seq<PingResult>, output: seq<PingResult>) {
    Ordered(output) && forall id, ts :: WithKey(output, id, ts) == WithKey(input, id, ts)
  }

  lemma {:induction false} WithKeyConcat(a: seq<PingResult>, b: seq<PingResult>, id: Text, ts: int)
    ensures WithKey(a + b, id, ts) == WithKey(a, id, ts) + WithKey(b, id, ts)
  {
    if a == [] {
      assert a + b == b;
    } else {
      assert (a + b)[1..] == a[1..] + b;
      WithKeyConcat(a[1..], b, id, ts);
    }
  }

  lemma {:induction false} WithKeyMember(pings: seq<PingResult>, id: Text, ts: int)
    ensures WithKey(pings, id, ts) != [] <==> exists i :: 0 <= i < |pings| && pings[i].targetId == id && pings[i].ts == ts
  {
    if pings == [] {
    } else {
      WithKeyMember(pings[1..], id, ts);
      if i :| 0 <= i < |pings[1..]| && pings[1..][i].targetId == id && pings[1..][i].ts == ts {
        assert pings[i + 1].targetId == id && pings[i + 1].ts == ts;
      }
      if i :| 0 <= i < |pings| && pings[i].targetId == id && pings[i].ts == ts {
        assert i > 0 ==> pings[1..][i - 1] == pings[i];
      }
    }
  }

  /** There is only one stable sort of an input. */
  lemma {:induction false} StableSortIsUnique(a: seq<PingResult>, b: seq<PingResult>)
    requires Ordered(a) && Ordered(b)
    requires forall id, ts :: WithKey(a, id, ts) == WithKey(b, id, ts)
    ensures a == b
  {
    if a != [] {
      FirstKeyNotLater(b, a);
      FirstKeyNotLater(a, b);
      TextLessTotal(a[0].targetId, b[0].targetId);
      assert WithKey(a, a[0].targetId, a[0].ts)[0] == a[0];
      assert WithKey(b, a[0].targetId, a[0].ts)[0] == b[0];
      forall id, ts
        ensures WithKey(a[1..], id, ts) == WithKey(b[1..], id, ts)
      {
        var head := if a[0].targetId == id && a[0].ts == ts then [a[0]] else [];
        assert WithKey(a, id, ts) == head + WithKey(a[1..], id, ts) && WithKey(b, id, ts) == head + WithKey(b[1..], id, ts);
        assert WithKey(a[1..], id, ts) == WithKey(a, id, ts)[|head|..];
      }
      StableSortIsUnique(a[1..], b[1..]);
    } else if b != [] {
      FirstKeyNotLater(a, b);
    }
  }

  /** The first key of `b` occurs in `a`, so `a` does not start later. */
  lemma FirstKeyNotLater(a: seq<PingResult>, b: seq<PingResult>)
    requires Ordered(a) && b != []
    requires forall id, ts :: WithKey(a, id, ts) == WithKey(b, id, ts)
    ensures a != [] && !KeyLess(b[0].targetId, b[0].ts, a[0].targetId, a[0].ts)
  {
    WithKeyMember(b, b[0].targetId, b[0].ts);
    WithKeyMember(a, b[0].targetId, b[0].ts);
    assert WithKey(a, b[0].targetId, b[0].ts) == WithKey(b, b[0].targetId, b[0].ts);
    var i :| 0 <= i < |a| && a[i].targetId == b[0].targetId && a[i].ts == b[0].ts;
    TextLessTotal(b[0].targetId, b[0].targetId);
  }

  // ----- Sorting one target's points -----

  predicate TsOrdered(points: seq<PingResult>) {
    forall i, j :: 0 <= i < j < |points| ==> points[i].ts <= points[j].ts
  }

  ghost predicate AllFrom(points: seq<PingResult>, id: Text) {
    forall i :: 0 <= i < |points| ==> points[i].targetId == id
  }

  lemma {:induction false} InsertSorts(points: seq<PingResult>, p: PingResult, low: int)
    requires TsOrdered(points) && low <= p.ts && (forall i :: 0 <= i < |points| ==> low <= points[i].ts)
    ensures TsOrdered(InsertByTs(points, p))
    ensures forall i :: 0 <= i < |InsertByTs(points, p)| ==> low <= InsertByTs(points, p)[i].ts
  {
    if points != [] && p.ts >= points[0].ts {
      InsertSorts(points[1..], p, points[0].ts);
    }
  }

  lemma {:induction false} InsertKeeps(points: seq<PingResult>, p: PingResult, id: Text, ts: int)
    requires TsOrdered(points)
    ensures WithKey(InsertByTs(points, p), id, ts) == WithKey(points + [p], id, ts)
    ensures AllFrom(points, p.targetId) ==> AllFrom(InsertByTs(points, p), p.targetId)
    ensures |InsertByTs(points, p)| == |points| + 1
  {
    if points != [] && p.ts >= points[0].ts {
      InsertKeeps(points[1..], p, id, ts);
      assert (points + [p])[1..] == points[1..] + [p];
      assert InsertByTs(points, p)[1..] == InsertByTs(points[1..], p);
    } else {
      assert ([p] + points)[1..] == points;
      WithKeyConcat(points, [p], id, ts);
      if points != [] && p.targetId == id && p.ts == ts {
        WithKeyMember(points, id, ts);
      }
    }
  }

  lemma {:induction false} SortSorts(points: seq<PingResult>, id: Text)
    requires AllFrom(points, id)
    ensures TsOrdered(SortByTs(points)) && AllFrom(SortByTs(points), id) && |SortByTs(points)| == |points|
    ensures forall key, ts :: WithKey(SortByTs(points), key, ts) == WithKey(points, key, ts)
  {
    if points == [] {
    } else {
      var init, last := points[..|points| - 1], points[|points| - 1];
      SortSorts(init, id);
      var low := if init == [] || last.ts <= SortByTs(init)[0].ts then last.ts else SortByTs(init)[0].ts;
      InsertSorts(SortByTs(init), last, low);
      assert points == init + [last];
      InsertKeeps(SortByTs(init), last, id, 0);
      forall key, ts
        ensures WithKey(SortByTs(points), key, ts) == WithKey(points, key, ts)
      {
        InsertKeeps(SortByTs(init), last, key, ts);
        WithKeyConcat(SortByTs(init), [last], key, ts);
        WithKeyConcat(init, [last], key, ts);
      }
    }
  }

  // ----- Grouping -----

  ghost predicate Above(groups: seq<Group>, low: Text) {
    forall i :: 0 <= i < |groups| ==> TextLess(low, groups[i].targetId)
  }

  /** Targets strictly ascending, every group holding pings of its own target. */
  ghost predicate WellGrouped(groups: seq<Group>) {
    groups == [] ||
    (AllFrom(groups[0].points, groups[0].targetId) && Above(groups[1..], groups[0].targetId) && WellGrouped(groups[1..]))
  }

  function Flat(groups: seq<Group>): seq<PingResult> {
    if groups == [] then [] else groups[0].points + Flat(groups[1..])
  }

  lemma AboveCons(g: Group, rest: seq<Group>, low: Text)
    requires TextLess(low, g.targetId) && Above(rest, g.targetId)
    ensures Above([g] + rest, low)
  {
    forall i | 0 <= i < |rest| ensures TextLess(low, rest[i].targetId) {
      TextLessTransitive(low, g.targetId, rest[i].targetId);
    }
  }

  /** The place a ping gets keeps the order of targets, and any lower bound on them. */
  lemma {:induction false} AddPingGroups(groups: seq<Group>, p: PingResult)
    requires WellGrouped(groups)
    ensures WellGrouped(AddPing(groups, p))
    ensures forall low :: Above(groups, low) && TextLess(low, p.targetId) ==> Above(AddPing(groups, p), low)
  {
    if groups == [] {
    } else {
      var after := AddPing(groups, p);
      if p.targetId == groups[0].targetId {
        assert after[1..] == groups[1..];
      } else if TextLess(p.targetId, groups[0].targetId) {
        assert after[1..] == groups;
        assert groups == [groups[0]] + groups[1..];
        AboveCons(groups[0], groups[1..], p.targetId);
      } else {
        TextLessTotal(p.targetId, groups[0].targetId);
        AddPingGroups(groups[1..], p);
        assert after[1..] == AddPing(groups[1..], p);
        assert Above(after[1..], groups[0].targetId);
        forall low | Above(groups, low) && TextLess(low, p.targetId)
          ensures Above(after, low)
        {
          assert Above(groups[1..], low);
          assert after == [groups[0]] + after[1..];
        }
      }
    }
  }

  lemma {:induction false} NoSuchTarget(groups: seq<Group>, id: Text, ts: int)
    requires WellGrouped(groups) && Above(groups, id)
    ensures WithKey(Flat(groups), id, ts) == []
  {
    if groups == [] {
    } else {
      assert Above(groups[1..], id);
      NoSuchTarget(groups[1..], id, ts);
      WithKeyConcat(groups[0].points, Flat(groups[1..]), id, ts);
      WithKeyMember(groups[0].points, id, ts);
      TextLessTotal(id, groups[0].targetId);
    }
  }

  /** Adding a ping puts it behind all earlier pings of its key, wherever its group stands. */
  lemma {:induction false} AddPingKeeps(groups: seq<Group>, p: PingResult, id: Text, ts: int)
    requires WellGrouped(groups)
    ensures WithKey(Flat(AddPing(groups, p)), id, ts) == WithKey(Flat(groups), id, ts) + WithKey([p], id, ts)
  {
    if groups == [] {
      assert Flat([Group(p.targetId, [p])]) == [p];
    } else if p.targetId == groups[0].targetId {
      KeepsInFirst(groups, p, id, ts);
    } else if TextLess(p.targetId, groups[0].targetId) {
      KeepsInFront(groups, p, id, ts);
    } else {
      AddPingKeeps(groups[1..], p, id, ts);
      assert AddPing(groups, p)[1..] == AddPing(groups[1..], p);
      WithKeyConcat(groups[0].points, Flat(AddPing(groups[1..], p)), id, ts);
      WithKeyConcat(groups[0].points, Flat(groups[1..]), id, ts);
    }
  }

  lemma KeepsInFirst(groups: seq<Group>, p: PingResult, id: Text, ts: int)
    requires WellGrouped(groups) && groups != [] && p.targetId == groups[0].targetId
    ensures WithKey(Flat(AddPing(groups, p)), id, ts) == WithKey(Flat(groups), id, ts) + WithKey([p], id, ts)
  {
    if p.targetId == id {
      NoSuchTarget(groups[1..], id, ts);
    }
    InsertBetween(groups[0].points, Flat(groups[1..]), p, id, ts);
    assert AddPing(groups, p)[1..] == groups[1..];
  }

  lemma InsertBetween(points: seq<PingResult>, rest: seq<PingResult>, p: PingResult, id: Text, ts: int)
    requires p.targetId == id ==> WithKey(rest, id, ts) == []
    ensures WithKey(points + [p] + rest, id, ts) == WithKey(points + rest, id, ts) + WithKey([p], id, ts)
  {
    WithKeyConcat(points + [p], rest, id, ts);
    WithKeyConcat(points, [p], id, ts);
    WithKeyConcat(points, rest, id, ts);
  }

  lemma KeepsInFront(groups: seq<Group>, p: PingResult, id: Text, ts: int)
    requires WellGrouped(groups) && groups != [] && TextLess(p.targetId, groups[0].targetId)
    ensures WithKey(Flat([Group(p.targetId, [p])] + groups), id, ts) == WithKey(Flat(groups), id, ts) + WithKey([p], id, ts)
  {
    assert ([Group(p.targetId, [p])] + groups)[1..] == groups;
    WithKeyConcat([p], Flat(groups), id, ts);
    if p.targetId == id {
      assert groups == [groups[0]] + groups[1..];
      AboveCons(groups[0], groups[1..], id);
      NoSuchTarget(groups, id, ts);
    }
  }

  lemma {:induction false} GroupPingsGroups(pings: seq<PingResult>)
    ensures WellGrouped(GroupPings(pings))
    ensures forall id, ts :: WithKey(Flat(GroupPings(pings)), id, ts) == WithKey(pings, id, ts)
  {
    if pings == [] {
    } else {
      var init, last := pings[..|pings| - 1], pings[|pings| - 1];
      GroupPingsGroups(init);
      AddPingGroups(GroupPings(init), last);
      assert pings == init + [last];
      forall id, ts
        ensures WithKey(Flat(GroupPings(pings)), id, ts) == WithKey(pings, id, ts)
      {
        AddPingKeeps(GroupPings(init), last, id, ts);
        WithKeyConcat(init, [last], id, ts);
      }
    }
  }

  // ----- The round trip -----

  /** Every group's points sorted, group after group. */
  function Sorted(groups: seq<Group>): seq<PingResult> {
    if groups == [] then [] else SortByTs(groups[0].points) + Sorted(groups[1..])
  }

  lemma {:induction false} SortedAbove(groups: seq<Group>, low: Text)
    requires WellGrouped(groups) && Above(groups, low)
    ensures forall i :: 0 <= i < |Sorted(groups)| ==> TextLess(low, Sorted(groups)[i].targetId)
  {
    if groups == [] {
    } else {
      SortSorts(groups[0].points, groups[0].targetId);
      assert Above(groups[1..], low);
      SortedAbove(groups[1..], low);
    }
  }

  lemma {:induction false} SortedIsOrdered(groups: seq<Group>)
    requires WellGrouped(groups)
    ensures Ordered(Sorted(groups))
    ensures forall id, ts :: WithKey(Sorted(groups), id, ts) == WithKey(Flat(groups), id, ts)
  {
    if groups == [] {
    } else {
      var first, rest := SortByTs(groups[0].points), Sorted(groups[1..]);
      SortSorts(groups[0].points, groups[0].targetId);
      SortedIsOrdered(groups[1..]);
      forall id, ts
        ensures WithKey(Sorted(groups), id, ts) == WithKey(Flat(groups), id, ts)
      {
        WithKeyConcat(first, rest, id, ts);
        WithKeyConcat(groups[0].points, Flat(groups[1..]), id, ts);
      }
      SortedAbove(groups[1..], groups[0].targetId);
      OrderedConcat(first, rest, groups[0].targetId);
    }
  }

  lemma OrderedConcat(first: seq<PingResult>, rest: seq<PingResult>, id: Text)
    requires TsOrdered(first) && AllFrom(first, id) && Ordered(rest)
    requires forall i :: 0 <= i < |rest| ==> TextLess(id, rest[i].targetId)
    ensures Ordered(first + rest)
  {
    TextLessTotal(id, id);
    forall i | 0 <= i < |rest| ensures !TextLess(rest[i].targetId, id) && rest[i].targetId != id {
      TextLessTotal(id, rest[i].targetId);
    }
  }

  lemma ReadColumns(targetId: Text, t0: int, points: seq<PingResult>)
    requires AllFrom(points, targetId)
    ensures ReadOne(Columns(targetId, t0, points)) == AllAsRead(points)
  {
  }

  lemma {:induction false} WriteSeriesCons(groups: seq<Group>)
    requires groups != []
    ensures WriteSeries(groups) == [SeriesOf(groups[0])] + WriteSeries(groups[1..])
  {
    if |groups| > 1 {
      WriteSeriesCons(groups[..|groups| - 1]);
      assert groups[..|groups| - 1][1..] == groups[1..][..|groups| - 2];
    } else {
      assert groups[..0] == [] && groups[1..] == [];
    }
  }

  lemma {:induction false} ReadAllCons(s: Series, all: seq<Series>)
    ensures ReadAll([s] + all) == ReadOne(s) + ReadAll(all)
  {
    if all == [] {
      assert [s] + all == [s] && [s][..0] == [];
    } else {
      assert ([s] + all)[..|all|] == [s] + all[..|all| - 1];
      ReadAllCons(s, all[..|all| - 1]);
    }
  }

  lemma AllAsReadConcat(a: seq<PingResult>, b: seq<PingResult>)
    ensures AllAsRead(a + b) == AllAsRead(a) + AllAsRead(b)
  {
  }

  lemma {:induction false} ReadWritten(groups: seq<Group>)
    requires WellGrouped(groups)
    ensures ReadAll(WriteSeries(groups)) == AllAsRead(Sorted(groups))
  {
    if groups == [] {
    } else {
      var points := SortByTs(groups[0].points);
      SortSorts(groups[0].points, groups[0].targetId);
      WriteSeriesCons(groups);
      ReadAllCons(SeriesOf(groups[0]), WriteSeries(groups[1..]));
      ReadColumns(groups[0].targetId, FirstTs(points), points);
      ReadWritten(groups[1..]);
      AllAsReadConcat(points, Sorted(groups[1..]));
    }
  }

  /** Writing pings as series and reading them back gives exactly their stable sort. */
  lemma SeriesRoundTrip(pings: seq<PingResult>)
    ensures var output := Sorted(GroupPings(pings));
            IsStableSort(pings, output) && ReadAll(WriteSeries(GroupPings(pings))) == AllAsRead(output)
  {
    GroupPingsGroups(pings);
    SortedIsOrdered(GroupPings(pings));
    ReadWritten(GroupPings(pings));
  }

  lemma {:induction false} OwnPoints(groups: seq<Group>, g: nat)
    requires WellGrouped(groups) && g < |groups|
    ensures AllFrom(groups[g].points, groups[g].targetId)
    decreases g
  {
    if g == 0 {
    } else {
      OwnPoints(groups[1..], g - 1);
    }
  }

  /** Times within a series start at its first point and never go back: no delta is negative. */
  lemma DeltasNonNegative(pings: seq<PingResult>, g: nat, i: nat)
    requires g < |GroupPings(pings)| && i < |SeriesOf(GroupPings(pings)[g]).dt|
    ensures SeriesOf(GroupPings(pings)[g]).dt[i] >= 0
  {
    GroupPingsGroups(pings);
    OwnPoints(GroupPings(pings), g);
    SortSorts(GroupPings(pings)[g].points, GroupPings(pings)[g].targetId);
  }

  method GroupAll(pings: seq<PingResult>) returns (groups: seq<Group>)
    ensures groups == GroupPings(pings)
  {
    groups := [];
    for i := 0 to |pings|
      invariant groups == GroupPings(pings[..i])
    {
      groups := AddPing(groups, pings[i]);
      assert pings[..i + 1][..i] == pings[..i];
    }
    assert pings[..|pings|] == pings;
  }

  method PingSeriesJson(pings: seq<PingResult>) returns (all: seq<Series>)
    ensures all == WriteSeries(GroupPings(pings))
  {
    var groups := GroupAll(pings);
    all := [];
    for k := 0 to |groups|
      invariant all == WriteSeries(groups[..k])
    {
      var points := SortByTs(groups[k].points);
      var t0 := FirstTs(points);
      all := all + [Columns(groups[k].targetId, t0, points)];
      assert groups[..k + 1][..k] == groups[..k];
    }
    assert groups[..|groups|] == groups;
  }
}
