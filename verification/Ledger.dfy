/**
 A bounded queue that is fed at the back, drained by count when a batch is accepted, and
 evicted from the front when it is full, together with the record of everything that ever
 happened to it. The three queues of the telemetry loop (samples, pings and proxy checks)
 are instances; so is the writer thread's copy of the samples.
 */
module Ledger {

  /** A half-open range of positions in a queue's history. */
  datatype Span = Span(from: nat, to: nat)

  /**
   `items` is the queue itself. `history` is every element ever appended, `head` the number of
   elements that left the front, `evicted` how many of those left for lack of room, and
   `accepted` the batches the server took, as positions in the history.
   */
  datatype Ledger<T> = Ledger(
    items: seq<T>,
    history: seq<T>,
    head: nat,
    evicted: nat,
    accepted: seq<Span>)

  function Start<T>(items: seq<T>): Ledger<T> {
    Ledger(items, items, 0, 0, [])
  }

  /** The spans are in order, do not overlap, and end by `limit`. */
  predicate Chain(spans: seq<Span>, limit: int) {
    spans == [] ||
    (var last := spans[|spans| - 1];
     last.from <= last.to <= limit && Chain(spans[..|spans| - 1], last.from))
  }

  function Covered(spans: seq<Span>): int {
    if spans == [] then 0
    else Covered(spans[..|spans| - 1]) + spans[|spans| - 1].to - spans[|spans| - 1].from
  }

  /** The queue is the history from `head` on, and every departure is accounted for. */
  predicate Valid<T(==)>(q: Ledger<T>) {
    && q.head <= |q.history|
    && q.items == q.history[q.head..]
    && Chain(q.accepted, q.head)
    && Covered(q.accepted) + q.evicted == q.head
  }

  function AppendAll<T>(q: Ledger<T>, xs: seq<T>): Ledger<T> {
    q.(items := q.items + xs, history := q.history + xs)
  }

  function EvictTo<T>(q: Ledger<T>, capacity: nat): Ledger<T> {
    if |q.items| <= capacity then q
    else
      var n := |q.items| - capacity;
      q.(items := q.items[n..], head := q.head + n, evicted := q.evicted + n)
  }

  function Min(a: nat, b: nat): nat {
    if a <= b then a else b
  }

  function Max(a: nat, b: nat): nat {
    if a >= b then a else b
  }

  function DropPrefix<T>(items: seq<T>, count: nat): (rest: seq<T>)
    ensures |rest| <= |items|
  {
    items[Min(count, |items|)..]
  }

  /** The reply to the batch taken when the head stood at `from`: drop by count. */
  function Acknowledge<T>(q: Ledger<T>, from: nat, count: nat): Ledger<T> {
    q.(items := DropPrefix(q.items, count), head := q.head + Min(count, |q.items|),
    accepted := q.accepted + [Span(from, from + count)])
  }

  /** A batch of `count` taken when the head stood at `from` can still be acknowledged. */
  predicate Open<T>(q: Ledger<T>, from: nat, count: nat) {
    from <= q.head && count <= |q.items| && Chain(q.accepted, from)
  }

  lemma {:induction false} ChainWeaken(spans: seq<Span>, low: int, high: int)
    requires Chain(spans, low) && low <= high
    ensures Chain(spans, high)
  {
  }

  lemma StartValid<T>(items: seq<T>)
    ensures Valid(Start(items))
  {
  }

  lemma AppendAllValid<T>(q: Ledger<T>, xs: seq<T>)
    requires Valid(q)
    ensures Valid(AppendAll(q, xs))
  {
    assert (q.history + xs)[q.head..] == q.history[q.head..] + xs;
  }

  lemma EvictToValid<T>(q: Ledger<T>, capacity: nat)
    requires Valid(q)
    ensures Valid(EvictTo(q, capacity))
    ensures |EvictTo(q, capacity).items| <= capacity
  {
    if |q.items| > capacity {
      ChainWeaken(q.accepted, q.head, EvictTo(q, capacity).head);
    }
  }

  /** Growing the queue and trimming it to a bound no lower than before keeps a batch open. */
  lemma GrowKeepsOpen<T>(q: Ledger<T>, xs: seq<T>, capacity: nat, from: nat, count: nat)
    requires Valid(q) && Open(q, from, count) && |q.items| <= capacity
    ensures Open(EvictTo(AppendAll(q, xs), capacity), from, count)
  {
  }

  lemma OpenHere<T>(q: Ledger<T>, count: nat)
    requires Valid(q) && count <= |q.items|
    ensures Open(q, q.head, count)
  {
  }

  lemma ChainSnoc(spans: seq<Span>, s: Span, limit: nat)
    requires Chain(spans, s.from) && s.from <= s.to <= limit
    ensures Chain(spans + [s], limit)
    ensures Covered(spans + [s]) == Covered(spans) + s.to - s.from
  {
    var all := spans + [s];
    assert all[|all| - 1] == s && all[..|all| - 1] == spans;
  }

  lemma AcknowledgeValid<T>(q: Ledger<T>, from: nat, count: nat)
    requires Valid(q) && Open(q, from, count)
    ensures Valid(Acknowledge(q, from, count))
    ensures Acknowledge(q, from, count).head == q.head + count
  {
    ChainSnoc(q.accepted, Span(from, from + count), q.head + count);
    assert q.history[q.head..][count..] == q.history[q.head + count..];
  }

  // ----- What was lost -----

  /** The history positions `from <= p < to`. */
  function Range(from: int, to: int): (r: set<int>)
    ensures forall p :: p in r <==> from <= p < to
    ensures |r| == (if from < to then to - from else 0)
    decreases if from < to then to - from else 0
  {
    if to <= from then {} else Range(from, to - 1) + {to - 1}
  }

  function Positions(spans: seq<Span>): set<int> {
    if spans == [] then {}
    else Positions(spans[..|spans| - 1]) + Range(spans[|spans| - 1].from, spans[|spans| - 1].to)
  }

  /** What left the queue without being in any accepted batch. */
  function Lost<T>(q: Ledger<T>): set<int> {
    Range(0, q.head) - Positions(q.accepted)
  }

  lemma {:induction false} PositionsSize(spans: seq<Span>, limit: nat)
    requires Chain(spans, limit)
    ensures forall p :: p in Positions(spans) ==> 0 <= p < limit
    ensures |Positions(spans)| == Covered(spans)
  {
    if spans == [] {
    } else {
      var last := spans[|spans| - 1];
      PositionsSize(spans[..|spans| - 1], last.from);
      assert Positions(spans[..|spans| - 1]) !! Range(last.from, last.to);
    }
  }

  lemma DifferenceSize(whole: set<int>, part: set<int>)
    requires part <= whole
    ensures |whole - part| == |whole| - |part|
  {
    assert whole == part + (whole - part);
  }

  /** The number of elements dropped without having been accepted is exactly the number evicted. */
  lemma LostIsEvicted<T>(q: Ledger<T>)
    requires Valid(q)
    ensures |Lost(q)| == q.evicted
  {
    LostSize(q.accepted, q.head);
  }

  lemma LostSize(spans: seq<Span>, head: nat)
    requires Chain(spans, head)
    ensures |Range(0, head) - Positions(spans)| == head - Covered(spans)
  {
    PositionsSize(spans, head);
    DifferenceSize(Range(0, head), Positions(spans));
  }

  /** The accepted batches, one after another. */
  function Delivered<T>(history: seq<T>, spans: seq<Span>): seq<T>
    requires Chain(spans, |history|)
  {
    if spans == [] then []
    else
      var last := spans[|spans| - 1];
      ChainWeaken(spans[..|spans| - 1], last.from, |history|);
      Delivered(history, spans[..|spans| - 1]) + history[last.from..last.to]
  }

  lemma {:induction false} CoveredBound(spans: seq<Span>, limit: nat)
    requires Chain(spans, limit)
    ensures 0 <= Covered(spans) <= limit
  {
    if spans == [] {
    } else {
      CoveredBound(spans[..|spans| - 1], spans[|spans| - 1].from);
    }
  }

  lemma {:induction false} FullCoverTiles<T>(history: seq<T>, spans: seq<Span>, limit: nat)
    requires Chain(spans, limit) && limit <= |history| && Covered(spans) == limit
    ensures Chain(spans, |history|)
    ensures Delivered(history, spans) == history[..limit]
  {
    ChainWeaken(spans, limit, |history|);
    if spans == [] {
    } else {
      var last := spans[|spans| - 1];
      CoveredBound(spans[..|spans| - 1], last.from);
      FullCoverTiles(history, spans[..|spans| - 1], last.from);
    }
  }

  /** With no eviction the accepted batches tile the history up to `head`: no gap, no repeat. */
  lemma TilesWithoutEviction<T>(q: Ledger<T>)
    requires Valid(q) && q.evicted == 0
    ensures Chain(q.accepted, |q.history|)
    ensures Delivered(q.history, q.accepted) + q.items == q.history
  {
    FullCoverTiles(q.history, q.accepted, q.head);
  }

  /**
   Dropping by count can remove elements that no batch ever carried: exactly when something
   was evicted between taking the batch and its reply. What the step loses is then the stretch
   right behind the batch, or right behind what was evicted, if that reached further.
   */
  lemma {:induction false} AcknowledgeLosesIffEvictedMeanwhile<T>(q: Ledger<T>, from: nat, count: nat)
    requires Valid(q) && Open(q, from, count)
    ensures var after := Acknowledge(q, from, count);
            (Range(q.head, after.head) <= Positions(after.accepted)) <==> (q.head == from || count == 0)
    ensures var after := Acknowledge(q, from, count);
            Range(q.head, after.head) - Positions(after.accepted) == Range(Max(q.head, from + count), after.head)
  {
    StepLoss(q.accepted, from, count, q.head);
  }

  lemma StepLoss(spans: seq<Span>, from: nat, count: nat, head: nat)
    requires Chain(spans, from) && from <= head
    ensures var after := spans + [Span(from, from + count)];
            (Range(head, head + count) <= Positions(after)) <==> (head == from || count == 0)
    ensures var after := spans + [Span(from, from + count)];
            Range(head, head + count) - Positions(after) == Range(Max(head, from + count), head + count)
  {
    hide Range;
    var after := spans + [Span(from, from + count)];
    PositionsSnoc(spans, Span(from, from + count));
    PositionsSize(spans, from);
    RemovedBehindBatch(Positions(spans), from, count, head);
  }

  lemma RemovedBehindBatch(earlier: set<int>, from: nat, count: nat, head: nat)
    requires from <= head && forall p :: p in earlier ==> p < from
    ensures (Range(head, head + count) <= earlier + Range(from, from + count)) <==> (head == from || count == 0)
    ensures Range(head, head + count) - (earlier + Range(from, from + count)) == Range(Max(head, from + count), head + count)
  {
    if head != from && count > 0 {
      assert head + count - 1 in Range(head, head + count);
      assert head + count - 1 !in earlier + Range(from, from + count);
    }
  }

  lemma PositionsSnoc(spans: seq<Span>, s: Span)
    ensures Positions(spans + [s]) == Positions(spans) + Range(s.from, s.to)
  {
    var all := spans + [s];
    assert all[|all| - 1] == s && all[..|all| - 1] == spans;
  }
}
