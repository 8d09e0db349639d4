/** Pings across the wire: what the report's reader lists is the stable sort of what was sent. */
module PingArrival {
  import opened PingSeries
  import opened Telemetry
  import opened TelemetryDecode
  import opened TelemetryProto
  import opened Wrappers

  /** The decoder's columns of a series. */
  function SeriesColumns(s: SentSeries): Series {
    Series(s.targetId, s.t0, seq(|s.points|, i requires 0 <= i < |s.points| => s.points[i].dt),
           seq(|s.points|, i requires 0 <= i < |s.points| => s.points[i].latencyMs),
           seq(|s.points|, i requires 0 <= i < |s.points| => s.points[i].ok))
  }

  function AllColumns(all: seq<SentSeries>): seq<Series> {
    seq(|all|, i requires 0 <= i < |all| => SeriesColumns(all[i]))
  }

  /** A ping as it is listed: a negative time is 0. */
  function Listed(p: PingResult): ReadPing { ReadPing(p.targetId, ReceivedTime(p.ts), p.latencyMs, p.ok) }

  function AllListed(pings: seq<PingResult>): seq<ReadPing> {
    seq(|pings|, i requires 0 <= i < |pings| => Listed(pings[i]))
  }

  /** In a sorted group every delta is exact, whatever the sign of its first time. */
  lemma GroupArrives(group: Group)
    requires AllFrom(group.points, group.targetId)
    ensures ReadOne(SeriesColumns(SendSeries(group))) == AllListed(SortByTs(group.points))
  {
    var points := SortByTs(group.points);
    SortSorts(group.points, group.targetId);
    var columns := SeriesColumns(SendSeries(group));
    forall i | 0 <= i < |points|
      ensures PointAt(columns, i) == Listed(points[i])
    {
      assert points[0].ts <= points[i].ts;
    }
  }

  lemma ListedConcat(a: seq<PingResult>, b: seq<PingResult>)
    ensures AllListed(a + b) == AllListed(a) + AllListed(b)
  {
  }

  lemma {:induction false} GroupsArrive(groups: seq<Group>)
    requires WellGrouped(groups)
    ensures ReadAll(AllColumns(SendAll(groups))) == AllListed(Sorted(groups))
  {
    if groups == [] {
    } else {
      var first, rest := SeriesColumns(SendSeries(groups[0])), AllColumns(SendAll(groups[1..]));
      hide SortByTs, SendSeries, SeriesColumns, ReadOne;
      assert AllColumns(SendAll(groups)) == [first] + rest;
      ReadAllCons(first, rest);
      GroupArrives(groups[0]);
      GroupsArrive(groups[1..]);
      ListedConcat(SortByTs(groups[0].points), Sorted(groups[1..]));
    }
  }

  /** Whichever reader takes the report, listing its pings gives the stable sort of the pings reported. */
  lemma {:induction false} PingsArrive(r: Reader, x: Report)
    requires DecodeReport(r, ReportBytes(x)).Ok?
    ensures var sorted := Sorted(GroupPings(x.metrics.pings));
            && IsStableSort(x.metrics.pings, sorted)
            && ReadAll(AllColumns(DecodeReport(r, ReportBytes(x)).value.metrics.series)) == AllListed(sorted)
  {
    ReportRoundTrip(r, x);
    SeriesRoundTrip(x.metrics.pings);
    GroupPingsGroups(x.metrics.pings);
    GroupsArrive(GroupPings(x.metrics.pings));
  }
}
