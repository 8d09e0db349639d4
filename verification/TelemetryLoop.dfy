/**
 The agent's sampling loop: bounded queues of samples, pings and proxy checks, one live
 upload at a time, stalled uploads abandoned, late replies ignored, and batches dropped by
 count once the server took them. Upload threads answer in any order, at any time, or never.
 */
module TelemetryLoop {
  import opened Ledger
  import opened QueueCommands
  import opened Telemetry
  import opened Wrappers

  const REPORT_MAX_SAMPLES := 900
  const REPORT_MAX_PINGS := 5000
  const REPORT_MAX_PROXY_CHECKS := 100
  const MAX_PROXY_QUEUE_CAPACITY := 1000
  const MIN_PING_QUEUE_CAPACITY := 200
  const MAX_PING_QUEUE_CAPACITY := 10000
  const UPLOAD_STALL_SEC := 180
  const UPLOAD_RETRY_BASE_SEC := 60
  const UPLOAD_RETRY_MAX_SEC := 900

  /** How much of each queue a batch carries. */
  datatype Batch = Batch(sampleCount: nat, pingCount: nat, proxyCount: nat)

  datatype UploadResult = UploadResult(ok: bool, reportIntervalSec: Option<nat>, batch: Batch, generation: nat)

  datatype PingBatch = PingBatch(results: seq<PingResult>, proxyResults: seq<ProxyCheckResult>, intervalSec: nat)

  /** Where each queue's head stood when a batch was taken. */
  datatype Heads = Heads(samples: nat, pings: nat, proxies: nat)

  /**
   The loop's variables, the upload threads still running (`flying`), their answers not yet
   read (`replies`), and what was sent to the queue writer. `started` records the heads at
   the start of every generation; the code keeps no such record.
   */
  datatype State = State(
    samples: Ledger<SamplePoint>, pings: Ledger<PingResult>, proxies: Ledger<ProxyCheckResult>,
    pingCapacity: nat,
    uploading: bool, generation: nat,
    firstReport: bool, lastUploadFailed: bool, uploadFailures: nat, reportIntervalSec: nat,
    flying: map<nat, Batch>, replies: seq<UploadResult>,
    commands: seq<QueueCommand>,
    started: seq<Heads>)

  /** Clock readings are inputs: `elapsed` is the seconds since the upload or report started. */
  datatype Event =
    | TakeSample(sample: SamplePoint)
    | ThreadAnswers(generation: nat, ok: bool, interval: Option<nat>)
    | ReceiveReply
    | TakeProbes(batches: seq<PingBatch>)
    | CheckStall(elapsed: nat)
    | MaybeReport(elapsed: nat)
    | UpdateInstalled

  function Init(loaded: seq<SamplePoint>, capacity: nat, reportIntervalSec: nat): State {
    State(Start(Newest(loaded, capacity)), Start([]), Start([]), MIN_PING_QUEUE_CAPACITY,
          false, 0, true, false, 0, reportIntervalSec, map[], [], [], [])
  }

  /** At start the loop keeps only the newest `capacity` samples of what it loaded. */
  function Newest(loaded: seq<SamplePoint>, capacity: nat): seq<SamplePoint> {
    if |loaded| > capacity then loaded[|loaded| - capacity..] else loaded
  }

  function RetrySec(failures: nat): nat {
    var exponent := Min(if failures == 0 then 0 else failures - 1, 4);
    Min(UPLOAD_RETRY_BASE_SEC * [1, 2, 4, 8, 16][exponent], UPLOAD_RETRY_MAX_SEC)
  }

  predicate UploadReportDue(s: State, elapsed: nat) {
    if s.lastUploadFailed then |s.samples.items| > 0 && elapsed >= RetrySec(s.uploadFailures)
    else s.firstReport || |s.samples.items| > REPORT_MAX_SAMPLES || elapsed >= s.reportIntervalSec
  }

  function NextBatch(s: State): Batch {
    Batch(Min(|s.samples.items|, REPORT_MAX_SAMPLES),
          Min(|s.pings.items|, REPORT_MAX_PINGS),
          Min(|s.proxies.items|, REPORT_MAX_PROXY_CHECKS))
  }

  function CurrentHeads(s: State): Heads {
    if 0 < s.generation <= |s.started| then s.started[s.generation - 1] else Heads(0, 0, 0)
  }

  /** The report interval divided by the ping interval, rounded up. */
  function CeilDiv(a: nat, b: nat): nat {
    if b == 0 then 0 else (a + b - 1) / b
  }

  function Grow(capacity: nat, reportIntervalSec: nat, batch: PingBatch): nat {
    var expected := (CeilDiv(reportIntervalSec, batch.intervalSec) + 2) * |batch.results|;
    Min(if capacity >= expected then capacity else expected, MAX_PING_QUEUE_CAPACITY)
  }

  function GrownCapacity(capacity: nat, reportIntervalSec: nat, batches: seq<PingBatch>): nat {
    if batches == [] then capacity
    else
      Grow(GrownCapacity(capacity, reportIntervalSec, batches[..|batches| - 1]), reportIntervalSec,
           batches[|batches| - 1])
  }

  function AllPings(batches: seq<PingBatch>): seq<PingResult> {
    if batches == [] then [] else AllPings(batches[..|batches| - 1]) + batches[|batches| - 1].results
  }

  function AllProxyChecks(batches: seq<PingBatch>): seq<ProxyCheckResult> {
    if batches == [] then []
    else AllProxyChecks(batches[..|batches| - 1]) + batches[|batches| - 1].proxyResults
  }

  function NewInterval(current: nat, requested: Option<nat>): nat {
    match requested
    case Some(interval) => if interval < 10 then 10 else if interval > 3600 then 3600 else interval
    case None => current
  }

  /** What a successful reply of the current generation does. */
  function Accepted(s: State, reply: UploadResult): State {
    var heads, batch := CurrentHeads(s), reply.batch;
    s.(uploading := false, lastUploadFailed := false, uploadFailures := 0,
    reportIntervalSec := NewInterval(s.reportIntervalSec, reply.reportIntervalSec),
    samples := Acknowledge(s.samples, heads.samples, batch.sampleCount),
    pings := Acknowledge(s.pings, heads.pings, batch.pingCount),
    proxies := Acknowledge(s.proxies, heads.proxies, batch.proxyCount),
    commands := s.commands + [AcknowledgeCount(batch.sampleCount)])
  }

  function ReceiveStep(s: State): State
    requires s.replies != []
  {
    var reply, rest := s.replies[0], s.(replies := s.replies[1..]);
    if reply.generation != s.generation then rest
    else if reply.ok then Accepted(rest, reply)
    else rest.(uploading := false, lastUploadFailed := true, uploadFailures := s.uploadFailures + 1)
  }

  function ProbesStep(s: State, batches: seq<PingBatch>): State {
    var pingCapacity := GrownCapacity(s.pingCapacity, s.reportIntervalSec, batches);
    s.(pingCapacity := pingCapacity,
    pings := EvictTo(AppendAll(s.pings, AllPings(batches)), pingCapacity),
    proxies := EvictTo(AppendAll(s.proxies, AllProxyChecks(batches)), MAX_PROXY_QUEUE_CAPACITY))
  }

  function ReportStep(s: State, elapsed: nat): State {
    if s.uploading || !UploadReportDue(s, elapsed) then s
    else
      s.(uploading := true, generation := s.generation + 1, firstReport := false,
      flying := s.flying[s.generation + 1 := NextBatch(s)],
      started := s.started + [Heads(s.samples.head, s.pings.head, s.proxies.head)])
  }

  function Step(s: State, e: Event, capacity: nat): State {
    match e
    case TakeSample(sample) =>
      s.(samples := EvictTo(AppendAll(s.samples, [sample]), capacity), commands := s.commands + [Append(sample)])
    case ThreadAnswers(generation, ok, interval) =>
      if generation !in s.flying then s
      else s.(flying := s.flying - {generation},
           replies := s.replies + [UploadResult(ok, interval, s.flying[generation], generation)])
    case ReceiveReply => if s.replies == [] then s else ReceiveStep(s)
    case TakeProbes(batches) => ProbesStep(s, batches)
    case CheckStall(elapsed) =>
      if s.uploading && elapsed >= UPLOAD_STALL_SEC then s.(uploading := false) else s
    case MaybeReport(elapsed) => ReportStep(s, elapsed)
    case UpdateInstalled => s.(commands := s.commands + [Flush])
  }

  /** The events of a run, in any order whatever. */
  function Run(s: State, events: seq<Event>, capacity: nat): State {
    if events == [] then s
    else Step(Run(s, events[..|events| - 1], capacity), events[|events| - 1], capacity)
  }

  // ----- What every run keeps -----

  predicate BatchOpen(s: State, batch: Batch) {
    var heads := CurrentHeads(s);
    && Open(s.samples, heads.samples, batch.sampleCount)
    && Open(s.pings, heads.pings, batch.pingCount)
    && Open(s.proxies, heads.proxies, batch.proxyCount)
  }

  predicate Bounded(s: State, capacity: nat) {
    && Valid(s.samples) && |s.samples.items| <= capacity
    && Valid(s.pings) && |s.pings.items| <= s.pingCapacity <= MAX_PING_QUEUE_CAPACITY
    && Valid(s.proxies) && |s.proxies.items| <= MAX_PROXY_QUEUE_CAPACITY
  }

  /** Every generation answers at most once, and only the newest can still move the queues. */
  ghost predicate OneAnswerEach(s: State) {
    && |s.started| == s.generation
    && (forall g <- s.flying :: 1 <= g <= s.generation)
    && (forall i :: 0 <= i < |s.replies| ==> 1 <= s.replies[i].generation <= s.generation)
    && (forall i :: 0 <= i < |s.replies| ==> s.replies[i].generation !in s.flying)
    && (forall i, j :: 0 <= i < j < |s.replies| ==> s.replies[i].generation != s.replies[j].generation)
  }

  ghost predicate CurrentOpen(s: State) {
    && (s.generation in s.flying ==> BatchOpen(s, s.flying[s.generation]))
    && (forall i :: 0 <= i < |s.replies| && s.replies[i].generation == s.generation ==> BatchOpen(s, s.replies[i].batch))
  }

  ghost predicate Inv(s: State, capacity: nat) {
    Bounded(s, capacity) && OneAnswerEach(s) && CurrentOpen(s)
  }

  lemma {:induction false} GrownCapacityBounds(capacity: nat, reportIntervalSec: nat, batches: seq<PingBatch>)
    requires capacity <= 10_000
    ensures capacity <= GrownCapacity(capacity, reportIntervalSec, batches) <= 10_000
  {
    if batches == [] {
    } else {
      GrownCapacityBounds(capacity, reportIntervalSec, batches[..|batches| - 1]);
    }
  }

  lemma SampleKeepsInv(s: State, sample: SamplePoint, capacity: nat)
    requires Inv(s, capacity)
    ensures Inv(Step(s, TakeSample(sample), capacity), capacity)
  {
    AppendAllValid(s.samples, [sample]);
    EvictToValid(AppendAll(s.samples, [sample]), capacity);
    var heads := CurrentHeads(s);
    forall n | Open(s.samples, heads.samples, n)
      ensures Open(EvictTo(AppendAll(s.samples, [sample]), capacity), heads.samples, n)
    {
      GrowKeepsOpen(s.samples, [sample], capacity, heads.samples, n);
    }
  }

  lemma ReceiveKeepsInv(s: State, capacity: nat)
    requires Inv(s, capacity) && s.replies != []
    ensures Inv(ReceiveStep(s), capacity)
  {
    hide Chain, Covered;
    var reply, heads := s.replies[0], CurrentHeads(s);
    if reply.generation == s.generation && reply.ok {
      AcknowledgeValid(s.samples, heads.samples, reply.batch.sampleCount);
      AcknowledgeValid(s.pings, heads.pings, reply.batch.pingCount);
      AcknowledgeValid(s.proxies, heads.proxies, reply.batch.proxyCount);
    }
  }

  lemma ProbesKeepInv(s: State, batches: seq<PingBatch>, capacity: nat)
    requires Inv(s, capacity)
    ensures Inv(ProbesStep(s, batches), capacity)
  {
    var pings, proxies := AllPings(batches), AllProxyChecks(batches);
    GrownCapacityBounds(s.pingCapacity, s.reportIntervalSec, batches);
    var pingCapacity := GrownCapacity(s.pingCapacity, s.reportIntervalSec, batches);
    AppendAllValid(s.pings, pings);
    EvictToValid(AppendAll(s.pings, pings), pingCapacity);
    AppendAllValid(s.proxies, proxies);
    EvictToValid(AppendAll(s.proxies, proxies), MAX_PROXY_QUEUE_CAPACITY);
    var heads := CurrentHeads(s);
    forall n | Open(s.pings, heads.pings, n)
      ensures Open(EvictTo(AppendAll(s.pings, pings), pingCapacity), heads.pings, n)
    {
      GrowKeepsOpen(s.pings, pings, pingCapacity, heads.pings, n);
    }
    forall n | Open(s.proxies, heads.proxies, n)
      ensures Open(EvictTo(AppendAll(s.proxies, proxies), MAX_PROXY_QUEUE_CAPACITY), heads.proxies, n)
    {
      GrowKeepsOpen(s.proxies, proxies, MAX_PROXY_QUEUE_CAPACITY, heads.proxies, n);
    }
  }

  lemma ReportKeepsInv(s: State, elapsed: nat, capacity: nat)
    requires Inv(s, capacity)
    ensures Inv(ReportStep(s, elapsed), capacity)
  {
    var batch := NextBatch(s);
    OpenHere(s.samples, batch.sampleCount);
    OpenHere(s.pings, batch.pingCount);
    OpenHere(s.proxies, batch.proxyCount);
  }

  lemma AnswerKeepsInv(s: State, generation: nat, ok: bool, interval: Option<nat>, capacity: nat)
    requires Inv(s, capacity)
    ensures Inv(Step(s, ThreadAnswers(generation, ok, interval), capacity), capacity)
  {
  }

  lemma QuietKeepsInv(s: State, e: Event, capacity: nat)
    requires Inv(s, capacity) && (e.CheckStall? || e.UpdateInstalled?)
    ensures Inv(Step(s, e, capacity), capacity)
  {
  }

  lemma {:induction false} StepKeepsInv(s: State, e: Event, capacity: nat)
    requires Inv(s, capacity)
    ensures Inv(Step(s, e, capacity), capacity)
  {
    hide Inv, ProbesStep, ReceiveStep, ReportStep;
    match e
    case TakeSample(sample) => SampleKeepsInv(s, sample, capacity);
    case ThreadAnswers(generation, ok, interval) => AnswerKeepsInv(s, generation, ok, interval, capacity);
    case ReceiveReply => if s.replies != [] { ReceiveKeepsInv(s, capacity); }
    case TakeProbes(batches) => ProbesKeepInv(s, batches, capacity);
    case CheckStall(elapsed) => QuietKeepsInv(s, e, capacity);
    case MaybeReport(elapsed) => ReportKeepsInv(s, elapsed, capacity);
    case UpdateInstalled => QuietKeepsInv(s, e, capacity);
  }

  lemma {:induction false} RunKeepsInv(
      loaded: seq<SamplePoint>, events: seq<Event>, capacity: nat, reportIntervalSec: nat)
    ensures Inv(Run(Init(loaded, capacity, reportIntervalSec), events, capacity), capacity)
  {
    var start := Init(loaded, capacity, reportIntervalSec);
    if events == [] {
      StartValid(start.samples.items);
      StartValid<PingResult>([]);
      StartValid<ProxyCheckResult>([]);
    } else {
      RunKeepsInv(loaded, events[..|events| - 1], capacity, reportIntervalSec);
      StepKeepsInv(Run(start, events[..|events| - 1], capacity), events[|events| - 1], capacity);
    }
  }

  /**
   Loss accounting, over every run: each queue holds its history from `head` on, the batches
   the server took are disjoint and in order, and what left without being in one of them is
   exactly as many elements as were evicted.
   */
  lemma {:induction false} LossAccounting(loaded: seq<SamplePoint>, events: seq<Event>, capacity: nat, reportIntervalSec: nat)
    ensures var s := Run(Init(loaded, capacity, reportIntervalSec), events, capacity);
            Accounted(s.samples) && Accounted(s.pings) && Accounted(s.proxies)
  {
    RunKeepsInv(loaded, events, capacity, reportIntervalSec);
    var s := Run(Init(loaded, capacity, reportIntervalSec), events, capacity);
    LedgerAccounted(s.samples);
    LedgerAccounted(s.pings);
    LedgerAccounted(s.proxies);
  }

  ghost predicate Accounted<T>(q: Ledger<T>) {
    && q.head <= |q.history| && q.items == q.history[q.head..]
    && Chain(q.accepted, q.head)
    && |Lost(q)| == q.evicted
    && (q.evicted == 0 ==>
          Chain(q.accepted, |q.history|) && Delivered(q.history, q.accepted) + q.items == q.history)
  }

  lemma LedgerAccounted<T>(q: Ledger<T>)
    requires Valid(q)
    ensures Accounted(q)
  {
    LostIsEvicted(q);
    if q.evicted == 0 { TilesWithoutEviction(q); }
  }

  // ----- Late replies -----

  function CurrentReplies(replies: seq<UploadResult>, generation: nat): seq<UploadResult> {
    if replies == [] then []
    else
      CurrentReplies(replies[..|replies| - 1], generation)
      + if replies[|replies| - 1].generation == generation then [replies[|replies| - 1]] else []
  }

  /** The state of a loop that never hears of an abandoned upload again. */
  function Quiet(s: State): State {
    s.(replies := CurrentReplies(s.replies, s.generation),
    flying := if s.generation in s.flying then map[s.generation := s.flying[s.generation]] else map[])
  }

  function QuietRun(s: State, events: seq<Event>, capacity: nat): State {
    if events == [] then Quiet(s)
    else Quiet(Step(QuietRun(s, events[..|events| - 1], capacity), events[|events| - 1], capacity))
  }

  /** An abandoned upload answers, or its answer is read. */
  predicate Late(s: State, e: Event) {
    || (e.ThreadAnswers? && e.generation != s.generation)
    || (e.ReceiveReply? && s.replies != [] && s.replies[0].generation != s.generation)
  }

  function WithoutLate(s: State, events: seq<Event>, capacity: nat): seq<Event> {
    if events == [] then []
    else
      var init, e := events[..|events| - 1], events[|events| - 1];
      WithoutLate(s, init, capacity) + if Late(Run(s, init, capacity), e) then [] else [e]
  }

  lemma CurrentSnoc(replies: seq<UploadResult>, reply: UploadResult, generation: nat)
    ensures CurrentReplies(replies + [reply], generation)
         == CurrentReplies(replies, generation) + if reply.generation == generation then [reply] else []
  {
    assert (replies + [reply])[..|replies|] == replies;
  }

  lemma {:induction false} CurrentCons(replies: seq<UploadResult>, generation: nat)
    requires replies != []
    ensures CurrentReplies(replies, generation)
         == (if replies[0].generation == generation then [replies[0]] else []) + CurrentReplies(replies[1..], generation)
  {
    hide CurrentReplies;
    var init, last := replies[..|replies| - 1], replies[|replies| - 1];
    assert replies == init + [last];
    CurrentSnoc(init, last, generation);
    if init == [] {
      assert CurrentReplies([], generation) == [] by { NoneCurrent([], generation); }
    } else {
      CurrentCons(init, generation);
      assert replies[1..] == init[1..] + [last];
      CurrentSnoc(init[1..], last, generation);
    }
  }

  lemma {:induction false} NoneCurrent(replies: seq<UploadResult>, generation: nat)
    requires forall i :: 0 <= i < |replies| ==> replies[i].generation != generation
    ensures CurrentReplies(replies, generation) == []
  {
    if replies == [] {
    } else {
      NoneCurrent(replies[..|replies| - 1], generation);
    }
  }

  lemma {:induction false} AllCurrent(replies: seq<UploadResult>, generation: nat)
    ensures forall r <- CurrentReplies(replies, generation) :: r.generation == generation
    ensures CurrentReplies(CurrentReplies(replies, generation), generation) == CurrentReplies(replies, generation)
  {
    if replies == [] {
    } else {
      var init, last := replies[..|replies| - 1], replies[|replies| - 1];
      AllCurrent(init, generation);
      CurrentSnoc(CurrentReplies(init, generation), last, generation);
      assert CurrentReplies(init, generation) + [] == CurrentReplies(init, generation);
    }
  }

  lemma QuietAnswer(s: State, e: Event, capacity: nat)
    requires e.ThreadAnswers?
    ensures Quiet(Step(s, e, capacity)) == if Late(s, e) then Quiet(s) else Quiet(Step(Quiet(s), e, capacity))
  {
    hide Accepted, CurrentReplies, EvictTo, ProbesStep, ReceiveStep, ReportStep;
    AllCurrent(s.replies, s.generation);
    if e.generation in s.flying {
      var reply := UploadResult(e.ok, e.interval, s.flying[e.generation], e.generation);
      CurrentSnoc(s.replies, reply, s.generation);
      CurrentSnoc(CurrentReplies(s.replies, s.generation), reply, s.generation);
      assert e.generation != s.generation ==> CurrentReplies(s.replies, s.generation) + [] == CurrentReplies(s.replies, s.generation);
      assert e.generation == s.generation ==> Quiet(s).flying - {e.generation} == map[];
    }
  }

  lemma QuietAccepted(s: State, reply: UploadResult)
    ensures Quiet(Accepted(s, reply)) == Accepted(Quiet(s), reply)
  {
    hide Acknowledge, CurrentReplies, NewInterval;
  }

  lemma QuietTwice(s: State)
    ensures Quiet(Quiet(s)) == Quiet(s)
  {
    AllCurrent(s.replies, s.generation);
  }

  lemma QuietReceive(s: State, capacity: nat)
    ensures Quiet(Step(s, ReceiveReply, capacity))
         == if Late(s, ReceiveReply) then Quiet(s) else Quiet(Step(Quiet(s), ReceiveReply, capacity))
  {
    hide Accepted, CurrentReplies, EvictTo, ProbesStep, ReportStep;
    QuietTwice(s);
    if s.replies != [] {
      var rest := s.(replies := s.replies[1..]);
      CurrentCons(s.replies, s.generation);
      QuietTwice(rest);
      if s.replies[0].generation == s.generation {
        var current := CurrentReplies(s.replies, s.generation);
        assert current[0] == s.replies[0] && current[1..] == CurrentReplies(s.replies[1..], s.generation);
        assert Quiet(s).(replies := current[1..]) == Quiet(rest);
        QuietAccepted(rest, s.replies[0]);
        QuietAccepted(Quiet(rest), s.replies[0]);
      } else {
        assert [] + CurrentReplies(s.replies[1..], s.generation) == CurrentReplies(s.replies[1..], s.generation);
      }
    } else {
      assert CurrentReplies([], s.generation) == [] by { NoneCurrent([], s.generation); }
    }
  }

  lemma QuietDue(s: State, elapsed: nat)
    ensures UploadReportDue(Quiet(s), elapsed) == UploadReportDue(s, elapsed) && NextBatch(Quiet(s)) == NextBatch(s)
  {
    hide CurrentReplies, RetrySec;
  }

  lemma QuietReport(s: State, elapsed: nat, capacity: nat)
    requires OneAnswerEach(s)
    ensures Quiet(Step(s, MaybeReport(elapsed), capacity)) == Quiet(Step(Quiet(s), MaybeReport(elapsed), capacity))
  {
    hide Accepted, CurrentReplies, EvictTo, NextBatch, ProbesStep, ReceiveStep, UploadReportDue;
    QuietTwice(s);
    QuietDue(s, elapsed);
    if !s.uploading && UploadReportDue(s, elapsed) {
      AllCurrent(s.replies, s.generation);
      NoneCurrent(s.replies, s.generation + 1);
      NoneCurrent(CurrentReplies(s.replies, s.generation), s.generation + 1);
    }
  }

  lemma QuietStep(s: State, e: Event, capacity: nat)
    requires OneAnswerEach(s)
    ensures Quiet(Step(s, e, capacity)) == if Late(s, e) then Quiet(s) else Quiet(Step(Quiet(s), e, capacity))
  {
    hide Accepted, CurrentReplies, ReceiveStep, ReportStep;
    AllCurrent(s.replies, s.generation);
    match e
    case ThreadAnswers(_, _, _) => QuietAnswer(s, e, capacity);
    case ReceiveReply => QuietReceive(s, capacity);
    case MaybeReport(elapsed) => QuietReport(s, elapsed, capacity);
    case TakeSample(_) =>
    case TakeProbes(_) =>
    case CheckStall(_) =>
    case UpdateInstalled =>
  }

  /**
   Taking the answers of abandoned uploads out of a run, when they answer late and when an answer
   is read late, changes neither the queues and what was accepted of them, nor what was sent to
   the writer, nor the state of the current upload.
   */
  lemma {:induction false} LateReplyIgnored(
      loaded: seq<SamplePoint>, events: seq<Event>, capacity: nat, reportIntervalSec: nat)
    ensures var start := Init(loaded, capacity, reportIntervalSec);
            Quiet(Run(start, events, capacity)) == QuietRun(start, WithoutLate(start, events, capacity), capacity)
  {
    if events == [] {
    } else {
      hide Inv, Quiet, Step;
      var start := Init(loaded, capacity, reportIntervalSec);
      var init, e := events[..|events| - 1], events[|events| - 1];
      var kept := WithoutLate(start, init, capacity);
      LateReplyIgnored(loaded, init, capacity, reportIntervalSec);
      RunAnswersOnce(loaded, init, capacity, reportIntervalSec);
      QuietStep(Run(start, init, capacity), e, capacity);
      assert kept + [] == kept && (kept + [e])[..|kept|] == kept;
    }
  }

  lemma RunAnswersOnce(loaded: seq<SamplePoint>, events: seq<Event>, capacity: nat, reportIntervalSec: nat)
    ensures OneAnswerEach(Run(Init(loaded, capacity, reportIntervalSec), events, capacity))
  {
    RunKeepsInv(loaded, events, capacity, reportIntervalSec);
  }

  // ----- What acknowledgements lose -----

  datatype Queue = Samples | Pings | Proxies

  function HeadOf(s: State, q: Queue): nat {
    match q case Samples => s.samples.head case Pings => s.pings.head case Proxies => s.proxies.head
  }

  function EvictedOf(s: State, q: Queue): nat {
    match q case Samples => s.samples.evicted case Pings => s.pings.evicted case Proxies => s.proxies.evicted
  }

  function AcceptedOf(s: State, q: Queue): seq<Span> {
    match q case Samples => s.samples.accepted case Pings => s.pings.accepted case Proxies => s.proxies.accepted
  }

  /** The positions an event pushes out of a queue for lack of room: wherever the head goes without a reply. */
  function EvictedBy(s: State, e: Event, capacity: nat, q: Queue): set<int> {
    if e.ReceiveReply? then {} else Range(HeadOf(s, q), HeadOf(Step(s, e, capacity), q))
  }

  function EvictedIn(s: State, events: seq<Event>, capacity: nat, q: Queue): set<int> {
    if events == [] then {}
    else
      var init, e := events[..|events| - 1], events[|events| - 1];
      EvictedIn(s, init, capacity, q) + EvictedBy(Run(s, init, capacity), e, capacity, q)
  }

  /** The head moves by what is evicted, and otherwise only on a reply. */
  lemma StepMovesHead(s: State, e: Event, capacity: nat, q: Queue)
    ensures HeadOf(s, q) <= HeadOf(Step(s, e, capacity), q)
    ensures if e.ReceiveReply? then EvictedOf(Step(s, e, capacity), q) == EvictedOf(s, q)
            else HeadOf(Step(s, e, capacity), q) - HeadOf(s, q) == EvictedOf(Step(s, e, capacity), q) - EvictedOf(s, q)
  {
  }

  lemma {:induction false} EvictedInSize(
      loaded: seq<SamplePoint>, events: seq<Event>, capacity: nat, reportIntervalSec: nat, q: Queue)
    ensures var start := Init(loaded, capacity, reportIntervalSec);
            var s := Run(start, events, capacity);
            && EvictedIn(start, events, capacity, q) <= Range(0, HeadOf(s, q))
            && |EvictedIn(start, events, capacity, q)| == EvictedOf(s, q)
  {
    if events == [] {
    } else {
      hide Step;
      var start := Init(loaded, capacity, reportIntervalSec);
      var init, e := events[..|events| - 1], events[|events| - 1];
      EvictedInSize(loaded, init, capacity, reportIntervalSec, q);
      var before := Run(start, init, capacity);
      StepMovesHead(before, e, capacity, q);
      var earlier := EvictedIn(start, init, capacity, q);
      var added := EvictedBy(before, e, capacity, q);
      assert earlier !! added by { assert forall p | p in earlier * added :: false; }
      DisjointSize(earlier, added);
    }
  }

  lemma DisjointSize(a: set<int>, b: set<int>)
    requires a !! b
    ensures |a + b| == |a| + |b|
  {
  }

  lemma LedgerFacts(loaded: seq<SamplePoint>, events: seq<Event>, capacity: nat, reportIntervalSec: nat, q: Queue)
    ensures var s := Run(Init(loaded, capacity, reportIntervalSec), events, capacity);
            Chain(AcceptedOf(s, q), HeadOf(s, q)) && Covered(AcceptedOf(s, q)) + EvictedOf(s, q) == HeadOf(s, q)
  {
    RunKeepsInv(loaded, events, capacity, reportIntervalSec);
  }

  /**
   Acknowledgements lost nothing unsent exactly when no accepted batch carries an element that had
   been evicted; and the accepted batches leave a gap exactly when anything was evicted at all.
   */
  ghost predicate LosesByEvictionOnly(s: State, evicted: set<int>, q: Queue) {
    var gone, accepted := Range(0, HeadOf(s, q)), Positions(AcceptedOf(s, q));
    && (gone - evicted <= accepted <==> evicted !! accepted)
    && (accepted == gone <==> EvictedOf(s, q) == 0)
  }

  /** Over a whole run, of each queue. */
  lemma {:induction false} AcknowledgementsLoseIff(
      loaded: seq<SamplePoint>, events: seq<Event>, capacity: nat, reportIntervalSec: nat, q: Queue)
    ensures var start := Init(loaded, capacity, reportIntervalSec);
            LosesByEvictionOnly(Run(start, events, capacity), EvictedIn(start, events, capacity, q), q)
  {
    hide AcceptedOf, EvictedIn, EvictedOf, HeadOf, Init, Run;
    var start := Init(loaded, capacity, reportIntervalSec);
    var s := Run(start, events, capacity);
    LedgerFacts(loaded, events, capacity, reportIntervalSec, q);
    EvictedInSize(loaded, events, capacity, reportIntervalSec, q);
    PositionsSize(AcceptedOf(s, q), HeadOf(s, q));
    SplitByEviction(Range(0, HeadOf(s, q)), EvictedIn(start, events, capacity, q), Positions(AcceptedOf(s, q)));
  }

  lemma SplitByEviction(all: set<int>, evicted: set<int>, accepted: set<int>)
    requires evicted <= all && accepted <= all && |evicted| + |accepted| == |all|
    ensures all - evicted <= accepted <==> evicted !! accepted
    ensures accepted == all <==> |evicted| == 0
  {
    DifferenceSize(all, evicted);
    if all - evicted <= accepted { SameSize(all - evicted, accepted); }
    if evicted !! accepted {
      assert accepted <= all - evicted;
      SameSize(accepted, all - evicted);
    }
    if |evicted| == 0 { SameSize(accepted, all); }
  }

  lemma SameSize(part: set<int>, whole: set<int>)
    requires part <= whole && |part| == |whole|
    ensures part == whole
  {
    DifferenceSize(whole, part);
    assert whole - part == {};
  }

  /**
   It happens: a full queue, a report of its first batch, one more sample before the reply. The
   sample behind the batch is gone unsent.
   */
  lemma EvictionDuringUpload(loaded: seq<SamplePoint>, sample: SamplePoint, capacity: nat, reportIntervalSec: nat)
    requires |loaded| == capacity > 0
    ensures var s := Run(Init(loaded, capacity, reportIntervalSec),
                         [MaybeReport(0), TakeSample(sample), ThreadAnswers(1, true, None), ReceiveReply], capacity);
            var n := Min(capacity, REPORT_MAX_SAMPLES);
            && s.samples.history == loaded + [sample] && s.samples.evicted == 1
            && s.samples.accepted == [Span(0, n)] && Lost(s.samples) == {n}
  {
    hide Init, Lost, ReceiveStep, Step;
    var a, b, c, d := MaybeReport(0), TakeSample(sample), ThreadAnswers(1, true, None), ReceiveReply;
    var start := Init(loaded, capacity, reportIntervalSec);
    var n := Min(capacity, REPORT_MAX_SAMPLES);
    RunSnoc(start, [], a, capacity);
    RunSnoc(start, [a], b, capacity);
    RunSnoc(start, [a, b], c, capacity);
    RunSnoc(start, [a, b, c], d, capacity);
    assert [] + [a] == [a] && [a] + [b] == [a, b] && [a, b] + [c] == [a, b, c] && [a, b, c] + [d] == [a, b, c, d];
    FirstReport(loaded, capacity, reportIntervalSec);
    SampleMeanwhile(Run(start, [a], capacity), sample, n, capacity);
    AnswerMeanwhile(Run(start, [a, b], capacity), n, capacity);
    OneBatchBehind(Run(start, [a, b, c, d], capacity).samples, n);
  }

  /** Generation 1 carries the first `n` samples of the queue. */
  predicate OneOut(s: State, n: nat) {
    && s.generation == 1 && s.started != [] && s.started[0].samples == 0
    && s.flying.Keys == {1} && s.flying[1].sampleCount == n && s.replies == []
    && s.samples.accepted == []
  }

  lemma FirstReport(loaded: seq<SamplePoint>, capacity: nat, reportIntervalSec: nat)
    requires |loaded| == capacity
    ensures var s := Step(Init(loaded, capacity, reportIntervalSec), MaybeReport(0), capacity);
            && s.samples == Start(loaded)
            && OneOut(s, Min(capacity, REPORT_MAX_SAMPLES))
  {
  }

  lemma SampleMeanwhile(s: State, sample: SamplePoint, n: nat, capacity: nat)
    requires OneOut(s, n) && s.samples == Start(s.samples.items) && |s.samples.items| == capacity
    ensures var t := Step(s, TakeSample(sample), capacity);
            && OneOut(t, n) && |t.samples.items| == capacity && t.samples.head == t.samples.evicted == 1
            && t.samples.history == s.samples.items + [sample]
  {
  }

  lemma AnswerMeanwhile(s: State, n: nat, capacity: nat)
    requires OneOut(s, n) && n <= |s.samples.items|
    ensures var t := Step(Step(s, ThreadAnswers(1, true, None), capacity), ReceiveReply, capacity);
            && t.samples.history == s.samples.history && t.samples.evicted == s.samples.evicted
            && t.samples.head == s.samples.head + n && t.samples.accepted == [Span(0, n)]
  {
    hide NewInterval;
  }

  lemma RunSnoc(s: State, events: seq<Event>, e: Event, capacity: nat)
    ensures Run(s, events + [e], capacity) == Step(Run(s, events, capacity), e, capacity)
  {
    assert (events + [e])[..|events|] == events;
  }

  lemma OneBatchBehind(q: Ledger<SamplePoint>, n: nat)
    requires q.head == n + 1 && q.accepted == [Span(0, n)]
    ensures Lost(q) == {n}
  {
    assert [Span(0, n)][..0] == [] && Positions(q.accepted) == Range(0, n);
  }

  // ----- The commands sent to the writer rebuild the loop's queue -----

  ghost predicate Mirrored(s: State, initial: seq<SamplePoint>, capacity: nat) {
    && Replay(initial, s.commands, capacity) == s.samples.items
    && Appended(initial, s.commands) == s.samples.history
    && Evicted(initial, s.commands, capacity) == s.samples.evicted
    && Acknowledged(initial, s.commands, capacity) == Covered(s.samples.accepted)
  }

  lemma AppendMirrors(s: State, initial: seq<SamplePoint>, sample: SamplePoint, capacity: nat)
    requires Mirrored(s, initial, capacity) && |s.samples.items| <= capacity
    ensures Mirrored(Step(s, TakeSample(sample), capacity), initial, capacity)
  {
    ReplaySnoc(initial, s.commands, Append(sample), capacity);
    LastCommand(s.commands, Append(sample));
  }

  lemma AcknowledgeMirrors(s: State, initial: seq<SamplePoint>, capacity: nat)
    requires Mirrored(s, initial, capacity)
    requires s.replies != [] && s.replies[0].generation == s.generation && s.replies[0].ok
    requires BatchOpen(s, s.replies[0].batch)
    ensures Mirrored(ReceiveStep(s), initial, capacity)
  {
    hide Chain, Covered, Replay, Appended, Evicted, Acknowledged, NewInterval;
    var from, n := CurrentHeads(s).samples, s.replies[0].batch.sampleCount;
    AcknowledgeReplays(initial, s.commands, n, capacity);
    ChainSnoc(s.samples.accepted, Span(from, from + n), from + n);
  }

  lemma AcknowledgeReplays(initial: seq<SamplePoint>, commands: seq<QueueCommand>, n: nat, capacity: nat)
    ensures var all, items := commands + [AcknowledgeCount(n)], Replay(initial, commands, capacity);
            && Replay(initial, all, capacity) == DropPrefix(items, n)
            && Appended(initial, all) == Appended(initial, commands)
            && Evicted(initial, all, capacity) == Evicted(initial, commands, capacity)
            && Acknowledged(initial, all, capacity) == Acknowledged(initial, commands, capacity) + Min(n, |items|)
  {
    LastCommand(commands, AcknowledgeCount(n));
  }

  lemma LastCommand(commands: seq<QueueCommand>, command: QueueCommand)
    ensures var all := commands + [command]; all[|all| - 1] == command && all[..|all| - 1] == commands
  {
  }

  lemma StillMirrored(s: State, initial: seq<SamplePoint>, t: State, capacity: nat)
    requires Mirrored(s, initial, capacity) && t.samples == s.samples && t.commands == s.commands
    ensures Mirrored(t, initial, capacity)
  {
  }

  lemma FlushMirrors(s: State, initial: seq<SamplePoint>, capacity: nat)
    requires Mirrored(s, initial, capacity)
    ensures Mirrored(Step(s, UpdateInstalled, capacity), initial, capacity)
  {
    LastCommand(s.commands, Flush);
  }

  lemma {:induction false} StepKeepsMirror(s: State, initial: seq<SamplePoint>, e: Event, capacity: nat)
    requires Inv(s, capacity) && Mirrored(s, initial, capacity)
    ensures Mirrored(Step(s, e, capacity), initial, capacity)
  {
    hide Mirrored;
    match e
    case TakeSample(sample) => AppendMirrors(s, initial, sample, capacity);
    case ReceiveReply =>
      if s.replies != [] && s.replies[0].generation == s.generation && s.replies[0].ok {
        AcknowledgeMirrors(s, initial, capacity);
      } else {
        StillMirrored(s, initial, Step(s, e, capacity), capacity);
      }
    case UpdateInstalled => FlushMirrors(s, initial, capacity);
    case ThreadAnswers(_, _, _) => StillMirrored(s, initial, Step(s, e, capacity), capacity);
    case TakeProbes(_) => StillMirrored(s, initial, Step(s, e, capacity), capacity);
    case CheckStall(_) => StillMirrored(s, initial, Step(s, e, capacity), capacity);
    case MaybeReport(_) => StillMirrored(s, initial, Step(s, e, capacity), capacity);
  }

  /** Replaying the commands from the same start gives the loop's own deque, on every run. */
  lemma {:induction false} CommandsMirrorLoop(
      loaded: seq<SamplePoint>, events: seq<Event>, capacity: nat, reportIntervalSec: nat)
    ensures Mirrored(Run(Init(loaded, capacity, reportIntervalSec), events, capacity), Newest(loaded, capacity), capacity)
  {
    if events == [] {
    } else {
      var init := events[..|events| - 1];
      RunKeepsInv(loaded, init, capacity, reportIntervalSec);
      CommandsMirrorLoop(loaded, init, capacity, reportIntervalSec);
      StepKeepsMirror(Run(Init(loaded, capacity, reportIntervalSec), init, capacity), Newest(loaded, capacity),
                      events[|events| - 1], capacity);
    }
  }
}
