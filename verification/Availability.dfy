/**
 The per-day availability ledger of an agent. Times are whole seconds, 0 meaning "none"; a
 day is its number since the epoch in local time, which orders like the date text does.
 */
module Availability {
  import opened Ledger

  const DAY := 86400

  /** Settings after clamping. */
  datatype Env = Env(offsetSec: int, retentionDays: nat, offlineAfterSec: nat)

  predicate ValidEnv(env: Env) {
    && -43200 <= env.offsetSec <= 50400
    && 30 <= env.retentionDays <= 180
    && 120 <= env.offlineAfterSec <= 3600
  }

  datatype Row = Row(total: int, ok: int)

  type Rows = map<int, Row>

  function DayOf(t: int, env: Env): int { (t + env.offsetSec) / DAY }

  function DayStart(d: int, env: Env): int { d * DAY - env.offsetSec }

  function MaxInt(a: int, b: int): int { if a >= b then a else b }

  function MinInt(a: int, b: int): int { if a <= b then a else b }

  /** How many seconds of `from <= t < to` fall on day `d`. */
  function Overlap(from: int, to: int, d: int, env: Env): int {
    MaxInt(0, MinInt(to, DayStart(d + 1, env)) - MaxInt(from, DayStart(d, env)))
  }

  function TotalOf(rows: Rows, d: int): int { if d in rows then rows[d].total else 0 }

  function OkOf(rows: Rows, d: int): int { if d in rows then rows[d].ok else 0 }

  lemma DayBounds(t: int, d: int, env: Env)
    ensures DayOf(t, env) == d <==> DayStart(d, env) <= t < DayStart(d + 1, env)
    ensures DayOf(t, env) <= d <==> t < DayStart(d + 1, env)
    ensures d <= DayOf(t, env) <==> DayStart(d, env) <= t
  {
  }

  lemma OverlapSplits(a: int, b: int, c: int, d: int, env: Env)
    requires a <= b <= c
    ensures Overlap(a, b, d, env) + Overlap(b, c, d, env) == Overlap(a, c, d, env)
  {
  }

  lemma OverlapDays(from: int, to: int, d: int, env: Env)
    requires from < to
    ensures Overlap(from, to, d, env) > 0 <==> DayOf(from, env) <= d <= DayOf(to - 1, env)
  {
    DayBounds(from, d, env);
    DayBounds(to - 1, d, env);
  }

  /** A day is 86400 seconds from its midnight by the local clock. */
  lemma DayIsLocal(t: int, d: int, env: Env)
    ensures DayOf(t, env) == d <==> 86400 * d <= t + env.offsetSec < 86400 * d + 86400
  {
  }

  /** The seconds of an interval on a day are its instants of that day. */
  lemma OverlapCountsInstants(from: int, to: int, d: int, env: Env)
    ensures Overlap(from, to, d, env) == |set t | t in Range(from, to) && DayOf(t, env) == d|
  {
    var low, high := MaxInt(from, DayStart(d, env)), MinInt(to, DayStart(d + 1, env));
    forall t {
      DayBounds(t, d, env);
    }
    assert (set t | t in Range(from, to) && DayOf(t, env) == d) == Range(low, high);
  }

  // ----- Splitting an interval over days -----

  /** `after` is `before` with the interval added to the days it touches. */
  ghost predicate AddsInterval(before: Rows, after: Rows, from: int, to: int, online: bool, env: Env) {
    forall d ::
      && (d in after <==> d in before || Overlap(from, to, d, env) > 0)
      && TotalOf(after, d) == TotalOf(before, d) + Overlap(from, to, d, env)
      && OkOf(after, d) == OkOf(before, d) + (if online then Overlap(from, to, d, env) else 0)
  }

  method AddInterval(rows: Rows, startAt: int, endAt: int, online: bool, env: Env) returns (result: Rows)
    ensures AddsInterval(rows, result, startAt, endAt, online, env)
  {
    result := rows;
    var cursor := startAt;
    while cursor < endAt
      invariant startAt <= cursor && (cursor <= endAt || cursor == startAt)
      invariant AddsInterval(rows, result, startAt, cursor, online, env)
      decreases endAt - cursor
    {
      var nextDayAt := (DayOf(cursor, env) + 1) * DAY - env.offsetSec;
      var segmentEnd := MinInt(endAt, nextDayAt);
      DayBounds(cursor, DayOf(cursor, env), env);
      StepAdds(rows, result, startAt, cursor, segmentEnd, online, env);
      result := Bump(result, DayOf(cursor, env), segmentEnd - cursor, online);
      cursor := segmentEnd;
    }
  }

  function Bump(rows: Rows, d: int, seconds: int, online: bool): Rows {
    var row := if d in rows then rows[d] else Row(0, 0);
    rows[d := Row(row.total + seconds, if online then row.ok + seconds else row.ok)]
  }

  lemma StepAdds(rows: Rows, before: Rows, startAt: int, cursor: int, segmentEnd: int, online: bool, env: Env)
    requires startAt <= cursor < segmentEnd <= DayStart(DayOf(cursor, env) + 1, env)
    requires AddsInterval(rows, before, startAt, cursor, online, env)
    ensures AddsInterval(rows, Bump(before, DayOf(cursor, env), segmentEnd - cursor, online), startAt, segmentEnd, online, env)
  {
    forall d
      ensures Overlap(startAt, cursor, d, env) + Overlap(cursor, segmentEnd, d, env) == Overlap(startAt, segmentEnd, d, env)
      ensures Overlap(cursor, segmentEnd, d, env) == if d == DayOf(cursor, env) then segmentEnd - cursor else 0
    {
      OverlapSplits(startAt, cursor, segmentEnd, d, env);
      OnlyThatDay(cursor, segmentEnd, d, env);
    }
  }

  lemma OnlyThatDay(cursor: int, segmentEnd: int, d: int, env: Env)
    requires cursor < segmentEnd <= DayStart(DayOf(cursor, env) + 1, env)
    ensures Overlap(cursor, segmentEnd, d, env) == if d == DayOf(cursor, env) then segmentEnd - cursor else 0
  {
    DayBounds(cursor, DayOf(cursor, env), env);
    if d < DayOf(cursor, env) {
      assert DayStart(d + 1, env) <= DayStart(DayOf(cursor, env), env);
    } else if d > DayOf(cursor, env) {
      assert DayStart(d, env) >= DayStart(DayOf(cursor, env) + 1, env);
    }
  }

  // ----- The rows of one pair of reports -----

  function SpanStart(previousAt: int, endAt: int, env: Env): int {
    MaxInt(previousAt, endAt - env.retentionDays * DAY)
  }

  function OnlineUntil(previousAt: int, endAt: int, env: Env): int {
    MaxInt(SpanStart(previousAt, endAt, env), MinInt(endAt, previousAt + env.offlineAfterSec))
  }

  /** The days touched, each with its seconds and its online seconds. */
  function SpanRows(from: int, onlineUntil: int, to: int, env: Env): Rows {
    map d | DayOf(from, env) <= d <= DayOf(to - 1, env) ::
      Row(Overlap(from, to, d, env), Overlap(from, onlineUntil, d, env))
  }

  function Segments(previousAt: int, endAt: int, env: Env): Rows {
    if previousAt == 0 || endAt == 0 || endAt <= previousAt then map[]
    else SpanRows(SpanStart(previousAt, endAt, env), OnlineUntil(previousAt, endAt, env), endAt, env)
  }

  lemma SegmentsAt(previousAt: int, endAt: int, d: int, env: Env)
    requires ValidEnv(env) && previousAt != 0 && endAt != 0 && previousAt < endAt
    ensures var from := SpanStart(previousAt, endAt, env);
            && from < endAt && from <= OnlineUntil(previousAt, endAt, env) <= endAt
            && TotalOf(Segments(previousAt, endAt, env), d) == Overlap(from, endAt, d, env)
            && OkOf(Segments(previousAt, endAt, env), d) == Overlap(from, OnlineUntil(previousAt, endAt, env), d, env)
            && (d in Segments(previousAt, endAt, env) <==> Overlap(from, endAt, d, env) > 0)
  {
    var from := SpanStart(previousAt, endAt, env);
    OverlapDays(from, endAt, d, env);
    OverlapSplits(from, OnlineUntil(previousAt, endAt, env), endAt, d, env);
  }

  method AgentAvailabilitySegments(previousAt: int, endAt: int, env: Env) returns (rows: Rows)
    requires ValidEnv(env)
    ensures rows == Segments(previousAt, endAt, env)
  {
    rows := map[];
    if previousAt == 0 || endAt == 0 || endAt <= previousAt { return; }
    var startAt := MaxInt(previousAt, endAt - env.retentionDays * DAY);
    var onlineUntil := MinInt(endAt, previousAt + env.offlineAfterSec);
    rows := AddInterval(rows, startAt, MaxInt(startAt, onlineUntil), true, env);
    ghost var online := rows;
    rows := AddInterval(rows, MaxInt(startAt, onlineUntil), endAt, false, env);
    forall d
      ensures SameAt(rows, Segments(previousAt, endAt, env), d)
    {
      SegmentsAt(previousAt, endAt, d, env);
      OverlapSplits(startAt, MaxInt(startAt, onlineUntil), endAt, d, env);
    }
    SameRows(rows, Segments(previousAt, endAt, env));
  }

  /** However long the gap: what is within the retention counts, and is online up to the threshold. */
  lemma SegmentsExactly(previousAt: int, endAt: int, d: int, env: Env)
    requires ValidEnv(env)
    ensures previousAt == 0 || endAt == 0 || endAt <= previousAt ==> Segments(previousAt, endAt, env) == map[]
    ensures previousAt != 0 && endAt != 0 && endAt > previousAt ==>
              var from := MaxInt(previousAt, endAt - 86400 * env.retentionDays);
              && TotalOf(Segments(previousAt, endAt, env), d) == Overlap(from, endAt, d, env)
              && OkOf(Segments(previousAt, endAt, env), d)
                 == Overlap(from, MinInt(endAt, previousAt + env.offlineAfterSec), d, env)
  {
    hide Segments;
    if previousAt != 0 && endAt != 0 && endAt > previousAt {
      SegmentsAt(previousAt, endAt, d, env);
    } else {
      assert Segments(previousAt, endAt, env) == map[] by { NoSegments(previousAt, endAt, env); }
    }
  }

  lemma NoSegments(previousAt: int, endAt: int, env: Env)
    requires previousAt == 0 || endAt == 0 || endAt <= previousAt
    ensures Segments(previousAt, endAt, env) == map[]
  {
  }

  predicate SameAt(a: Rows, b: Rows, d: int) {
    (d in a <==> d in b) && (d in a ==> a[d] == b[d])
  }

  lemma SameRows(a: Rows, b: Rows)
    requires forall d :: SameAt(a, b, d)
    ensures a == b
  {
    forall d | d in a.Keys ensures d in b.Keys { assert SameAt(a, b, d); }
    forall d | d in b.Keys ensures d in a.Keys { assert SameAt(a, b, d); }
    assert a.Keys <= b.Keys && b.Keys <= a.Keys;
    forall d | d in a ensures a[d] == b[d] { assert SameAt(a, b, d); }
  }

  // ----- The stored ledger -----

  function Accumulate(stored: Rows, added: Rows): Rows {
    map d | d in stored.Keys + added.Keys :: Row(TotalOf(stored, d) + TotalOf(added, d), OkOf(stored, d) + OkOf(added, d))
  }

  function Purge(stored: Rows, cutoff: int): Rows {
    map d | d in stored && d >= cutoff :: stored[d]
  }

  function RecordPair(stored: Rows, previousAt: int, currentAt: int, env: Env): Rows {
    var rows := Segments(previousAt, currentAt, env);
    if rows == map[] then stored
    else
      var grown := Accumulate(stored, rows);
      if DayOf(previousAt, env) == DayOf(currentAt, env) then grown
      else Purge(grown, DayOf(currentAt - env.retentionDays * DAY, env))
  }

  /** The table of all agents. An update of one agent's rows is one batch. */
  class AvailabilityTable {
    var rows: map<string, Rows>

    function RowsOf(agentId: string): Rows
      reads this
    {
      if agentId in rows then rows[agentId] else map[]
    }

    /** Days already stored are added to; others are inserted. */
    method Upsert(agentId: string, segments: Rows)
      modifies this
      ensures RowsOf(agentId) == Accumulate(old(RowsOf(agentId)), segments)
      ensures forall other :: other != agentId ==> RowsOf(other) == old(RowsOf(other))
    {
      rows := rows[agentId := Accumulate(RowsOf(agentId), segments)];
    }

    method DeleteBefore(agentId: string, cutoff: int)
      modifies this
      ensures RowsOf(agentId) == Purge(old(RowsOf(agentId)), cutoff)
      ensures forall other :: other != agentId ==> RowsOf(other) == old(RowsOf(other))
    {
      rows := rows[agentId := Purge(RowsOf(agentId), cutoff)];
    }

    method Record(agentId: string, previousAt: int, currentAt: int, env: Env)
      requires ValidEnv(env)
      modifies this
      ensures RowsOf(agentId) == if agentId == "" then old(RowsOf(agentId))
                                 else RecordPair(old(RowsOf(agentId)), previousAt, currentAt, env)
      ensures forall other :: other != agentId ==> RowsOf(other) == old(RowsOf(other))
    {
      var segments := AgentAvailabilitySegments(previousAt, currentAt, env);
      if agentId == "" || segments == map[] { return; }
      Upsert(agentId, segments);
      if DayOf(previousAt, env) != DayOf(currentAt, env) {
        DeleteBefore(agentId, DayOf(currentAt - env.retentionDays * DAY, env));
      }
    }
  }

  /** Reports in increasing order, no gap longer than the retention. */
  ghost predicate Regular(reports: seq<int>, env: Env) {
    && (forall i :: 0 <= i < |reports| ==> reports[i] > 0)
    && forall i :: 0 <= i < |reports| - 1 ==>
         reports[i] < reports[i + 1] <= reports[i] + env.retentionDays * DAY
  }

  function RecordAll(reports: seq<int>, env: Env): Rows {
    if |reports| < 2 then map[]
    else
      RecordPair(RecordAll(reports[..|reports| - 1], env), reports[|reports| - 2], reports[|reports| - 1], env)
  }

  /** Days before this one have been purged. */
  function Cut(reports: seq<int>, env: Env): int
    requires reports != []
  {
    var last := reports[|reports| - 1];
    if |reports| < 2 then DayOf(last - env.retentionDays * DAY, env)
    else if DayOf(reports[|reports| - 2], env) == DayOf(last, env) then Cut(reports[..|reports| - 1], env)
    else DayOf(last - env.retentionDays * DAY, env)
  }

  /** The second `t` lies between two reports, less than the threshold after the first of them. */
  ghost predicate OnlineAt(t: int, reports: seq<int>, env: Env) {
    exists i :: 0 <= i < |reports| - 1 && reports[i] <= t < reports[i + 1] && t < reports[i] + env.offlineAfterSec
  }

  /** The online seconds of a day, as a set of instants. */
  function OnlineSeconds(reports: seq<int>, d: int, env: Env): set<int> {
    if |reports| < 2 then {}
    else
      var previousAt, endAt := reports[|reports| - 2], reports[|reports| - 1];
      OnlineSeconds(reports[..|reports| - 1], d, env)
      + LastOnline(previousAt, endAt, d, env)
  }

  /** The part of a day online after the last but one report. */
  function LastOnline(previousAt: int, endAt: int, d: int, env: Env): set<int> {
    Range(MaxInt(previousAt, DayStart(d, env)),
          MinInt(MinInt(endAt, previousAt + env.offlineAfterSec), DayStart(d + 1, env)))
  }

  lemma OnlineAtSplits(reports: seq<int>, t: int, env: Env)
    requires |reports| >= 2
    ensures OnlineAt(t, reports, env) <==>
            OnlineAt(t, reports[..|reports| - 1], env) ||
            (reports[|reports| - 2] <= t < reports[|reports| - 1] && t < reports[|reports| - 2] + env.offlineAfterSec)
  {
    var n := |reports|;
    var init := reports[..n - 1];
    if OnlineAt(t, init, env) {
      var i :| 0 <= i < |init| - 1 && init[i] <= t < init[i + 1] && t < init[i] + env.offlineAfterSec;
      assert reports[i] <= t < reports[i + 1] && t < reports[i] + env.offlineAfterSec;
    }
    if OnlineAt(t, reports, env) {
      var i :| 0 <= i < n - 1 && reports[i] <= t < reports[i + 1] && t < reports[i] + env.offlineAfterSec;
      if i < n - 2 {
        assert init[i] <= t < init[i + 1] && t < init[i] + env.offlineAfterSec;
      }
    }
    if reports[n - 2] <= t < reports[n - 1] && t < reports[n - 2] + env.offlineAfterSec {
      assert reports[n - 2 + 1] == reports[n - 1];
    }
  }

  lemma {:induction false} OnlineSecondsAre(reports: seq<int>, d: int, t: int, env: Env)
    requires Regular(reports, env)
    ensures t in OnlineSeconds(reports, d, env) <==> DayOf(t, env) == d && OnlineAt(t, reports, env)
    ensures t in OnlineSeconds(reports, d, env) ==> reports != [] && t < reports[|reports| - 1]
  {
    if |reports| < 2 {
    } else {
      OnlineSecondsAre(reports[..|reports| - 1], d, t, env);
      OnlineAtSplits(reports, t, env);
      DayBounds(t, d, env);
      assert reports[|reports| - 2] < reports[|reports| - 2 + 1];
    }
  }

  /** What the ledger should hold of day `d`. */
  ghost predicate ExactAt(stored: Rows, reports: seq<int>, d: int, env: Env)
    requires reports != []
  {
    Holds(stored, d, Cut(reports, env), Overlap(reports[0], reports[|reports| - 1], d, env),
          |OnlineSeconds(reports, d, env)|)
  }

  predicate Holds(stored: Rows, d: int, cut: int, total: int, ok: int) {
    if d >= cut then TotalOf(stored, d) == total && OkOf(stored, d) == ok && (d in stored <==> total > 0)
    else d !in stored
  }

  /**
   What the ledger holds after any regular sequence of reports: exactly the days not purged, each
   with the seconds of the reported span that fall on it, and its online seconds.
   */
  lemma {:induction false} LedgerIsExact(reports: seq<int>, d: int, env: Env)
    requires ValidEnv(env) && Regular(reports, env) && reports != []
    ensures ExactAt(RecordAll(reports, env), reports, d, env)
  {
    if |reports| < 2 {
    } else {
      LedgerIsExact(reports[..|reports| - 1], d, env);
      CutBehind(reports, env);
      CutBehind(reports[..|reports| - 1], env);
      RecordPairAt(RecordAll(reports[..|reports| - 1], env), reports, d, env);
    }
  }

  lemma {:induction false} CutBehind(reports: seq<int>, env: Env)
    requires Regular(reports, env) && reports != []
    ensures Cut(reports, env) <= DayOf(reports[|reports| - 1] - env.retentionDays * DAY, env)
    ensures |reports| >= 2 ==> Cut(reports[..|reports| - 1], env) <= Cut(reports, env)
    ensures reports[0] <= reports[|reports| - 1]
  {
    if |reports| < 2 {
    } else {
      var n := |reports|;
      var init := reports[..n - 1];
      assert init[|init| - 1] == reports[n - 2] && reports[n - 2 + 1] == reports[n - 1];
      CutBehind(init, env);
      DayMonotone(reports[n - 2] - env.retentionDays * DAY, reports[n - 1] - env.retentionDays * DAY, env);
    }
  }

  lemma DayMonotone(a: int, b: int, env: Env)
    requires a <= b
    ensures DayOf(a, env) <= DayOf(b, env)
  {
  }

  lemma RecordPairAt(before: Rows, reports: seq<int>, d: int, env: Env)
    requires ValidEnv(env) && Regular(reports, env) && |reports| >= 2
    requires ExactAt(before, reports[..|reports| - 1], d, env)
    requires Cut(reports[..|reports| - 1], env) <= DayOf(reports[|reports| - 1] - env.retentionDays * DAY, env)
    requires reports[0] <= reports[|reports| - 2]
    ensures ExactAt(RecordPair(before, reports[|reports| - 2], reports[|reports| - 1], env), reports, d, env)
  {
    var n := |reports|;
    var previousAt, endAt := reports[n - 2], reports[n - 1];
    assert previousAt > 0 && previousAt < reports[n - 2 + 1] <= previousAt + env.retentionDays * DAY;
    NewOnlineSeconds(reports, d, env);
    PairHolds(before, reports[0], previousAt, endAt, d, Cut(reports[..n - 1], env),
              |OnlineSeconds(reports[..n - 1], d, env)|, env);
  }

  lemma PairHolds(before: Rows, first: int, previousAt: int, endAt: int, d: int, cut: int, ok: int, env: Env)
    requires ValidEnv(env) && first <= previousAt && 0 < previousAt < endAt <= previousAt + env.retentionDays * DAY
    requires Holds(before, d, cut, Overlap(first, previousAt, d, env), ok)
    requires cut <= DayOf(endAt - env.retentionDays * DAY, env)
    ensures var newCut := if DayOf(previousAt, env) == DayOf(endAt, env) then cut
                          else DayOf(endAt - env.retentionDays * DAY, env);
            Holds(RecordPair(before, previousAt, endAt, env), d, newCut, Overlap(first, endAt, d, env),
                  ok + Overlap(previousAt, MinInt(endAt, previousAt + env.offlineAfterSec), d, env))
  {
    PairRows(previousAt, endAt, d, env);
    RecordPairIs(before, previousAt, endAt, d, env);
    OverlapSplits(first, previousAt, endAt, d, env);
    if Overlap(previousAt, endAt, d, env) > 0 { CutDropsNothingNew(previousAt, endAt, d, env); }
  }

  lemma RecordPairIs(before: Rows, previousAt: int, endAt: int, d: int, env: Env)
    requires Segments(previousAt, endAt, env) != map[]
    ensures var after, rows := RecordPair(before, previousAt, endAt, env), Segments(previousAt, endAt, env);
            if DayOf(previousAt, env) != DayOf(endAt, env) && d < DayOf(endAt - env.retentionDays * DAY, env)
            then d !in after
            else (TotalOf(after, d) == TotalOf(before, d) + TotalOf(rows, d)
                  && OkOf(after, d) == OkOf(before, d) + OkOf(rows, d)
                  && (d in after <==> d in before || d in rows))
  {
  }

  lemma PairRows(previousAt: int, endAt: int, d: int, env: Env)
    requires ValidEnv(env) && 0 < previousAt < endAt <= previousAt + env.retentionDays * DAY
    ensures var rows := Segments(previousAt, endAt, env);
            && rows != map[]
            && TotalOf(rows, d) == Overlap(previousAt, endAt, d, env)
            && OkOf(rows, d) == Overlap(previousAt, MinInt(endAt, previousAt + env.offlineAfterSec), d, env)
            && (d in rows <==> Overlap(previousAt, endAt, d, env) > 0)
  {
    var today := DayOf(previousAt, env);
    SegmentsAt(previousAt, endAt, d, env);
    SegmentsAt(previousAt, endAt, today, env);
    OverlapDays(previousAt, endAt, today, env);
    DayMonotone(previousAt, endAt - 1, env);
    assert today in Segments(previousAt, endAt, env);
  }

  lemma CutDropsNothingNew(previousAt: int, endAt: int, d: int, env: Env)
    requires previousAt < endAt <= previousAt + env.retentionDays * DAY
    requires Overlap(previousAt, endAt, d, env) > 0
    ensures d >= DayOf(endAt - env.retentionDays * DAY, env)
  {
    OverlapDays(previousAt, endAt, d, env);
    DayMonotone(endAt - env.retentionDays * DAY, previousAt, env);
  }

  lemma NewOnlineSeconds(reports: seq<int>, d: int, env: Env)
    requires ValidEnv(env) && Regular(reports, env) && |reports| >= 2
    ensures |OnlineSeconds(reports, d, env)|
         == |OnlineSeconds(reports[..|reports| - 1], d, env)|
            + Overlap(reports[|reports| - 2],
                      MinInt(reports[|reports| - 1], reports[|reports| - 2] + env.offlineAfterSec), d, env)
  {
    var init := reports[..|reports| - 1];
    var added := LastOnline(reports[|reports| - 2], reports[|reports| - 1], d, env);
    forall t | t in OnlineSeconds(init, d, env)
      ensures t !in added
    {
      OnlineSecondsAre(init, d, t, env);
    }
    assert forall t | t in OnlineSeconds(init, d, env) * added :: false;
    UnionSize(OnlineSeconds(init, d, env), added);
  }

  lemma UnionSize(a: set<int>, b: set<int>)
    requires a !! b
    ensures |a + b| == |a| + |b|
  {
  }

  /** A day's online seconds never exceed its total, and neither is negative. */
  lemma {:induction false} OnlineWithinTotal(reports: seq<int>, d: int, env: Env)
    requires ValidEnv(env) && Regular(reports, env) && reports != []
    ensures 0 <= OkOf(RecordAll(reports, env), d) <= TotalOf(RecordAll(reports, env), d) <= DAY
  {
    hide Cut, OnlineSeconds, Range, RecordAll;
    LedgerIsExact(reports, d, env);
    CutBehind(reports, env);
    var span := Range(MaxInt(reports[0], DayStart(d, env)), MinInt(reports[|reports| - 1], DayStart(d + 1, env)));
    forall t | t in OnlineSeconds(reports, d, env)
      ensures t in span
    {
      OnlineSecondsAre(reports, d, t, env);
      DayBounds(t, d, env);
      var i :| 0 <= i < |reports| - 1 && reports[i] <= t < reports[i + 1] && t < reports[i] + env.offlineAfterSec;
      ReportsAscend(reports, 0, i, env);
    }
    SubsetSize(OnlineSeconds(reports, d, env), span);
  }

  lemma {:induction false} ReportsAscend(reports: seq<int>, i: nat, j: nat, env: Env)
    requires Regular(reports, env) && i <= j < |reports|
    ensures reports[i] <= reports[j]
    decreases j - i
  {
    if i == j {
    } else {
      ReportsAscend(reports, i, j - 1, env);
      assert reports[j - 1] < reports[j - 1 + 1];
    }
  }

  lemma SubsetSize(part: set<int>, whole: set<int>)
    requires part <= whole
    ensures |part| <= |whole|
  {
    DifferenceSize(whole, part);
  }

  /** The totals of the days `low <= d < high`. */
  function SumTotals(rows: Rows, low: int, high: int): int
    decreases high - low
  {
    if high <= low then 0 else SumTotals(rows, low, high - 1) + TotalOf(rows, high - 1)
  }

  /** The days not purged together hold the whole reported span, from the cut on. */
  lemma TotalsSumToSpan(reports: seq<int>, low: int, high: int, env: Env)
    requires ValidEnv(env) && Regular(reports, env) && reports != []
    requires low == MaxInt(Cut(reports, env), DayOf(reports[0], env))
    requires high > DayOf(reports[|reports| - 1], env)
    ensures SumTotals(RecordAll(reports, env), low, high)
         == reports[|reports| - 1] - MaxInt(reports[0], DayStart(Cut(reports, env), env))
  {
    CutBehind(reports, env);
    forall d | low <= d < high
      ensures TotalOf(RecordAll(reports, env), d) == Overlap(reports[0], reports[|reports| - 1], d, env)
    {
      LedgerIsExact(reports, d, env);
    }
    var first, last := reports[0], reports[|reports| - 1];
    DayMonotone(first, last, env);
    DayMonotone(last - env.retentionDays * DAY, last, env);
    SumOverlaps(RecordAll(reports, env), first, last, low, high, env);
    DayBounds(last, high - 1, env);
    DayBounds(first, low, env);
    DayBounds(first, Cut(reports, env), env);
    DayBounds(first, DayOf(first, env), env);
    DayBounds(last - env.retentionDays * DAY, Cut(reports, env), env);
  }

  lemma {:induction false} SumOverlaps(rows: Rows, first: int, last: int, low: int, high: int, env: Env)
    requires low <= high && first <= last
    requires forall d :: low <= d < high ==> TotalOf(rows, d) == Overlap(first, last, d, env)
    ensures SumTotals(rows, low, high)
         == MaxInt(0, MinInt(last, DayStart(high, env)) - MaxInt(first, DayStart(low, env)))
    decreases high - low
  {
    if low == high {
    } else {
      SumOverlaps(rows, first, last, low, high - 1, env);
    }
  }
}
