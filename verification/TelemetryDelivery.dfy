/**
 What the server's answers do to the queues, what is fed into them, and when a report is due:
 the loop's runs compared with the answers, probes and readings that went into them.
 */
module TelemetryDelivery {
  import opened Ledger
  import opened QueueCommands
  import opened Telemetry
  import opened TelemetryLoop
  import opened Wrappers

  // ----- Only successful uploads are accepted -----

  /** Where the queues stood when an upload started, and how much of each it carries. */
  datatype Upload = Upload(heads: Heads, batch: Batch)

  function Front(s: State): Upload {
    Upload(Heads(s.samples.head, s.pings.head, s.proxies.head),
           Batch(Min(|s.samples.items|, 900), Min(|s.pings.items|, 5000), Min(|s.proxies.items|, 100)))
  }

  /** The uploads of a run, one for each generation. */
  function Uploads(s: State, events: seq<Event>, capacity: nat): seq<Upload> {
    if events == [] then []
    else
      var init := events[..|events| - 1];
      var before, after := Run(s, init, capacity), Run(s, events, capacity);
      Uploads(s, init, capacity) + if after.generation != before.generation then [Front(before)] else []
  }

  /** A reply that is read while its upload is still the current one. */
  function ReadNow(s: State, e: Event): Option<UploadResult> {
    if e.ReceiveReply? && s.replies != [] && s.replies[0].generation == s.generation then Some(s.replies[0]) else None
  }

  /** The generations whose success was read while current, in that order. */
  function Succeeded(s: State, events: seq<Event>, capacity: nat): seq<nat> {
    if events == [] then []
    else
      var init := events[..|events| - 1];
      var reply := ReadNow(Run(s, init, capacity), events[|events| - 1]);
      Succeeded(s, init, capacity)
      + if reply.Some? && reply.value.ok then [reply.value.generation] else []
  }

  /** The failures read while current since the last such success. */
  function FailuresInARow(s: State, events: seq<Event>, capacity: nat): nat {
    if events == [] then 0
    else
      var init := events[..|events| - 1];
      var reply := ReadNow(Run(s, init, capacity), events[|events| - 1]);
      if reply.None? then FailuresInARow(s, init, capacity)
      else if reply.value.ok then 0 else FailuresInARow(s, init, capacity) + 1
  }

  /** The upload's thread answered once that the server took it. */
  ghost predicate AnsweredOk(s: State, events: seq<Event>, capacity: nat, generation: nat) {
    exists k :: 0 <= k < |events| && AnswersAt(s, events, capacity, generation, k)
  }

  predicate AnswersAt(s: State, events: seq<Event>, capacity: nat, generation: nat, k: int)
    requires 0 <= k < |events|
  {
    && events[k].ThreadAnswers? && events[k].generation == generation && events[k].ok
    && generation in Run(s, events[..k], capacity).flying
  }

  function SpanOf(upload: Upload, q: Queue): Span {
    match q
    case Samples => Span(upload.heads.samples, upload.heads.samples + upload.batch.sampleCount)
    case Pings => Span(upload.heads.pings, upload.heads.pings + upload.batch.pingCount)
    case Proxies => Span(upload.heads.proxies, upload.heads.proxies + upload.batch.proxyCount)
  }

  predicate InRange(generations: seq<nat>, most: nat) {
    forall i :: 0 <= i < |generations| ==> 1 <= generations[i] <= most
  }

  function SpansOf(generations: seq<nat>, uploads: seq<Upload>, q: Queue): seq<Span>
    requires InRange(generations, |uploads|)
  {
    seq(|generations|, i requires 0 <= i < |generations| => SpanOf(uploads[generations[i] - 1], q))
  }

  function AcknowledgedCounts(commands: seq<QueueCommand>): seq<nat> {
    if commands == [] then []
    else
      var last := commands[|commands| - 1];
      AcknowledgedCounts(commands[..|commands| - 1]) + if last.AcknowledgeCount? then [last.count] else []
  }

  function CountsOf(generations: seq<nat>, uploads: seq<Upload>): seq<nat>
    requires InRange(generations, |uploads|)
  {
    seq(|generations|, i requires 0 <= i < |generations| => uploads[generations[i] - 1].batch.sampleCount)
  }

  /** The state knows each upload still to be answered as it was started. */
  ghost predicate Knows(s: State, uploads: seq<Upload>) {
    && |uploads| == |s.started| == s.generation
    && (forall g :: 0 <= g < |uploads| ==> s.started[g] == uploads[g].heads)
    && (forall g <- s.flying :: 1 <= g <= |uploads| && s.flying[g] == uploads[g - 1].batch)
    && (forall i :: 0 <= i < |s.replies| ==>
          && 1 <= s.replies[i].generation <= |uploads|
          && s.replies[i].batch == uploads[s.replies[i].generation - 1].batch)
  }

  /** No success is read twice, and none can be answered again. */
  ghost predicate ReadOnce(s: State, generations: seq<nat>) {
    && (forall i, j :: 0 <= i < j < |generations| ==> generations[i] < generations[j])
    && (forall i :: 0 <= i < |generations| ==> 1 <= generations[i] <= s.generation && generations[i] !in s.flying)
    && (forall i, j :: 0 <= i < |generations| && 0 <= j < |s.replies| ==> s.replies[j].generation != generations[i])
  }

  ghost predicate AcceptedOnly(s: State, generations: seq<nat>, uploads: seq<Upload>) {
    && InRange(generations, |uploads|)
    && s.samples.accepted == SpansOf(generations, uploads, Samples)
    && s.pings.accepted == SpansOf(generations, uploads, Pings)
    && s.proxies.accepted == SpansOf(generations, uploads, Proxies)
    && AcknowledgedCounts(s.commands) == CountsOf(generations, uploads)
  }

  lemma KnowsReceive(s: State, capacity: nat, uploads: seq<Upload>)
    requires Knows(s, uploads)
    ensures Step(s, ReceiveReply, capacity).generation == s.generation
    ensures Knows(Step(s, ReceiveReply, capacity), uploads)
  {
    hide Acknowledge, Front, NewInterval;
    if s.replies != [] {
      assert forall i :: 0 <= i < |s.replies| - 1 ==> s.replies[1..][i] == s.replies[i + 1];
    }
  }

  lemma KnowsReport(s: State, elapsed: nat, capacity: nat, uploads: seq<Upload>)
    requires Knows(s, uploads)
    ensures var after := Step(s, MaybeReport(elapsed), capacity);
            Knows(after, uploads + if after.generation != s.generation then [Front(s)] else [])
  {
    hide UploadReportDue;
    assert uploads + [] == uploads;
  }

  lemma KnowsAnswer(s: State, e: Event, capacity: nat, uploads: seq<Upload>)
    requires Knows(s, uploads) && e.ThreadAnswers?
    ensures Step(s, e, capacity).generation == s.generation && Knows(Step(s, e, capacity), uploads)
  {
    hide Front;
  }

  lemma KnowsStep(s: State, e: Event, capacity: nat, uploads: seq<Upload>)
    requires Knows(s, uploads)
    ensures var after := Step(s, e, capacity);
            Knows(after, uploads + if after.generation != s.generation then [Front(s)] else [])
  {
    assert uploads + [] == uploads;
    match e
    case ReceiveReply => KnowsReceive(s, capacity, uploads);
    case MaybeReport(elapsed) => KnowsReport(s, elapsed, capacity, uploads);
    case ThreadAnswers(_, _, _) => KnowsAnswer(s, e, capacity, uploads);
    case TakeSample(_) =>
    case TakeProbes(_) =>
    case CheckStall(_) =>
    case UpdateInstalled =>
  }

  lemma ReadStep(s: State, e: Event, capacity: nat, generations: seq<nat>)
    requires OneAnswerEach(s) && ReadOnce(s, generations)
    ensures var reply := ReadNow(s, e);
            ReadOnce(Step(s, e, capacity), generations + if reply.Some? && reply.value.ok then [reply.value.generation] else [])
  {
    hide Acknowledge, AllPings, AllProxyChecks, EvictTo, GrownCapacity, NewInterval, UploadReportDue;
    if e.ReceiveReply? && s.replies != [] {
      assert forall i :: 0 <= i < |s.replies| - 1 ==> s.replies[1..][i] == s.replies[i + 1];
    }
  }

  lemma Unaccepted(s: State, e: Event, capacity: nat)
    requires ReadNow(s, e).None? || !ReadNow(s, e).value.ok
    ensures var after := Step(s, e, capacity);
            && after.samples.accepted == s.samples.accepted && after.pings.accepted == s.pings.accepted
            && after.proxies.accepted == s.proxies.accepted
            && AcknowledgedCounts(after.commands) == AcknowledgedCounts(s.commands)
  {
    hide AllPings, AllProxyChecks, AcknowledgedCounts, GrownCapacity, NewInterval, UploadReportDue;
    if e.TakeSample? { OtherCommand(s.commands, Append(e.sample)); }
    if e.UpdateInstalled? { OtherCommand(s.commands, Flush); }
  }

  lemma OtherCommand(commands: seq<QueueCommand>, command: QueueCommand)
    ensures AcknowledgedCounts(commands + [command])
         == AcknowledgedCounts(commands) + if command.AcknowledgeCount? then [command.count] else []
  {
    assert (commands + [command])[..|commands|] == commands;
  }

  lemma AcceptedStep(s: State, e: Event, capacity: nat, generations: seq<nat>, uploads: seq<Upload>)
    requires Knows(s, uploads) && AcceptedOnly(s, generations, uploads)
    requires ReadNow(s, e).Some? && ReadNow(s, e).value.ok
    ensures AcceptedOnly(Step(s, e, capacity), generations + [s.generation], uploads)
  {
    hide AcknowledgedCounts, NewInterval;
    var reply := s.replies[0];
    OtherCommand(s.commands, AcknowledgeCount(reply.batch.sampleCount));
    assert CurrentHeads(s) == uploads[s.generation - 1].heads && reply.batch == uploads[s.generation - 1].batch;
  }

  lemma MoreUploads(s: State, generations: seq<nat>, uploads: seq<Upload>, more: seq<Upload>)
    requires AcceptedOnly(s, generations, uploads)
    ensures AcceptedOnly(s, generations, uploads + more)
  {
    hide AcknowledgedCounts;
  }

  /** The two records of a run agree with its state. */
  ghost predicate Recorded(start: State, events: seq<Event>, capacity: nat) {
    var s := Run(start, events, capacity);
    var generations, uploads := Succeeded(start, events, capacity), Uploads(start, events, capacity);
    Knows(s, uploads) && ReadOnce(s, generations) && AcceptedOnly(s, generations, uploads)
  }

  lemma {:induction false} RunIsRecorded(loaded: seq<SamplePoint>, events: seq<Event>, capacity: nat, reportIntervalSec: nat)
    ensures Recorded(Init(loaded, capacity, reportIntervalSec), events, capacity)
  {
    hide Init, OneAnswerEach, Recorded, Run;
    if events == [] {
      NothingRecorded(loaded, capacity, reportIntervalSec);
    } else {
      var init, e := events[..|events| - 1], events[|events| - 1];
      RunIsRecorded(loaded, init, capacity, reportIntervalSec);
      RunAnswersOnce(loaded, init, capacity, reportIntervalSec);
      RecordedStep(Init(loaded, capacity, reportIntervalSec), init, e, capacity);
      assert events == init + [e];
    }
  }

  lemma NothingRecorded(loaded: seq<SamplePoint>, capacity: nat, reportIntervalSec: nat)
    ensures Recorded(Init(loaded, capacity, reportIntervalSec), [], capacity)
  {
  }

  lemma RecordedStep(start: State, init: seq<Event>, e: Event, capacity: nat)
    requires Recorded(start, init, capacity) && OneAnswerEach(Run(start, init, capacity))
    ensures Recorded(start, init + [e], capacity)
  {
    hide AcceptedOnly, Front, Knows, OneAnswerEach, ReadOnce, Step;
    var s := Run(start, init, capacity);
    var generations, uploads := Succeeded(start, init, capacity), Uploads(start, init, capacity);
    RunSnoc(start, init, e, capacity);
    assert (init + [e])[..|init|] == init;
    KnowsStep(s, e, capacity, uploads);
    ReadStep(s, e, capacity, generations);
    if ReadNow(s, e).Some? && ReadNow(s, e).value.ok {
      SameGeneration(s, e, capacity);
      AcceptedStep(s, e, capacity, generations, uploads);
      assert uploads + [] == uploads;
    } else {
      Unaccepted(s, e, capacity);
      StillAccepted(s, Step(s, e, capacity), generations, uploads);
      var more := if Step(s, e, capacity).generation != s.generation then [Front(s)] else [];
      MoreUploads(Step(s, e, capacity), generations, uploads, more);
      assert generations + [] == generations;
    }
  }

  lemma SameGeneration(s: State, e: Event, capacity: nat)
    requires e.ReceiveReply?
    ensures Step(s, e, capacity).generation == s.generation
  {
  }

  lemma StillAccepted(s: State, t: State, generations: seq<nat>, uploads: seq<Upload>)
    requires AcceptedOnly(s, generations, uploads)
    requires t.samples.accepted == s.samples.accepted && t.pings.accepted == s.pings.accepted
    requires t.proxies.accepted == s.proxies.accepted && AcknowledgedCounts(t.commands) == AcknowledgedCounts(s.commands)
    ensures AcceptedOnly(t, generations, uploads)
  {
    hide AcknowledgedCounts;
  }

  lemma AnsweredLater(start: State, init: seq<Event>, e: Event, capacity: nat, generation: nat)
    requires AnsweredOk(start, init, capacity, generation)
    ensures AnsweredOk(start, init + [e], capacity, generation)
  {
    var k :| 0 <= k < |init| && AnswersAt(start, init, capacity, generation, k);
    assert (init + [e])[..k] == init[..k];
    assert AnswersAt(start, init + [e], capacity, generation, k);
  }

  ghost predicate AllAnswered(start: State, events: seq<Event>, capacity: nat) {
    var s, generations := Run(start, events, capacity), Succeeded(start, events, capacity);
    && (forall i :: 0 <= i < |s.replies| && s.replies[i].ok ==> AnsweredOk(start, events, capacity, s.replies[i].generation))
    && (forall i :: 0 <= i < |generations| ==> AnsweredOk(start, events, capacity, generations[i]))
  }

  /** The replies after a step were there before, or are the answer just given. */
  lemma RepliesAfter(s: State, e: Event, capacity: nat)
    ensures var after := Step(s, e, capacity).replies;
            if e.ThreadAnswers? && e.generation in s.flying
            then |after| == |s.replies| + 1 && after[..|s.replies|] == s.replies
                 && after[|s.replies|].generation == e.generation && after[|s.replies|].ok == e.ok
            else if e.ReceiveReply? && s.replies != [] then after == s.replies[1..]
            else after == s.replies
  {
  }

  lemma AnsweredStep(start: State, init: seq<Event>, e: Event, capacity: nat)
    requires AllAnswered(start, init, capacity)
    ensures AllAnswered(start, init + [e], capacity)
  {
    hide AnsweredOk, Run, Step;
    var s, events := Run(start, init, capacity), init + [e];
    assert events[..|init|] == init && events[|init|] == e;
    RunSnoc(start, init, e, capacity);
    RepliesAfter(s, e, capacity);
    forall generation | AnsweredOk(start, init, capacity, generation)
      ensures AnsweredOk(start, events, capacity, generation)
    {
      AnsweredLater(start, init, e, capacity, generation);
    }
    if e.ThreadAnswers? && e.generation in s.flying && e.ok {
      AnsweredNow(start, init, e, capacity);
    }
    var generations, reply := Succeeded(start, init, capacity), ReadNow(s, e);
    assert Succeeded(start, events, capacity)
        == generations + if reply.Some? && reply.value.ok then [reply.value.generation] else [];
    assert reply.Some? && reply.value.ok ==> AnsweredOk(start, init, capacity, s.replies[0].generation);
    var replies := Step(s, e, capacity).replies;
    forall i | 0 <= i < |replies| && replies[i].ok
      ensures AnsweredOk(start, events, capacity, replies[i].generation)
    {
      if e.ThreadAnswers? && e.generation in s.flying {
        if i < |s.replies| { assert replies[i] == s.replies[i]; }
      } else if e.ReceiveReply? && s.replies != [] {
        assert replies[i] == s.replies[i + 1];
      }
    }
  }

  lemma AnsweredNow(start: State, init: seq<Event>, e: Event, capacity: nat)
    requires e.ThreadAnswers? && e.ok && e.generation in Run(start, init, capacity).flying
    ensures AnsweredOk(start, init + [e], capacity, e.generation)
  {
    assert (init + [e])[..|init|] == init;
    assert AnswersAt(start, init + [e], capacity, e.generation, |init|);
  }

  lemma {:induction false} RunIsAnswered(loaded: seq<SamplePoint>, events: seq<Event>, capacity: nat, reportIntervalSec: nat)
    ensures AllAnswered(Init(loaded, capacity, reportIntervalSec), events, capacity)
  {
    hide AllAnswered, Init;
    if events == [] {
      NoneAnswered(loaded, capacity, reportIntervalSec);
    } else {
      var init, e := events[..|events| - 1], events[|events| - 1];
      RunIsAnswered(loaded, init, capacity, reportIntervalSec);
      AnsweredStep(Init(loaded, capacity, reportIntervalSec), init, e, capacity);
      assert events == init + [e];
    }
  }

  lemma NoneAnswered(loaded: seq<SamplePoint>, capacity: nat, reportIntervalSec: nat)
    ensures AllAnswered(Init(loaded, capacity, reportIntervalSec), [], capacity)
  {
  }

  /** What was accepted of a queue is these uploads' part of it. */
  ghost predicate AcceptedAre(s: State, generations: seq<nat>, uploads: seq<Upload>, q: Queue) {
    InRange(generations, |uploads|) && AcceptedOf(s, q) == SpansOf(generations, uploads, q)
  }

  /**
   On every run and for each queue: what was accepted, and acknowledged to the writer, is exactly
   the batch of each upload whose success was read while it was the current one, in that order, none
   twice, and each of these was answered by its thread as taken by the server.
   */
  lemma {:induction false} AcceptedAreSuccesses(
      loaded: seq<SamplePoint>, events: seq<Event>, capacity: nat, reportIntervalSec: nat, q: Queue)
    ensures var start := Init(loaded, capacity, reportIntervalSec);
            var s, generations := Run(start, events, capacity), Succeeded(start, events, capacity);
            var uploads := Uploads(start, events, capacity);
            && |uploads| == s.generation
            && AcceptedAre(s, generations, uploads, q)
            && AcknowledgedCounts(s.commands) == CountsOf(generations, uploads)
            && (forall i, j :: 0 <= i < j < |generations| ==> generations[i] < generations[j])
            && (forall i :: 0 <= i < |generations| ==> AnsweredOk(start, events, capacity, generations[i]))
  {
    hide AcknowledgedCounts, AnsweredOk, CountsOf, Init, Run, SpansOf, Succeeded, Uploads;
    RunIsRecorded(loaded, events, capacity, reportIntervalSec);
    RunIsAnswered(loaded, events, capacity, reportIntervalSec);
  }

  /** While no thread has answered with success nothing is accepted, and nothing leaves a queue but for lack of room. */
  lemma {:induction false} FailuresLoseNothing(
      loaded: seq<SamplePoint>, events: seq<Event>, capacity: nat, reportIntervalSec: nat, q: Queue)
    requires forall e <- events :: e.ThreadAnswers? ==> !e.ok
    ensures var s := Run(Init(loaded, capacity, reportIntervalSec), events, capacity);
            && AcceptedOf(s, q) == [] && HeadOf(s, q) == EvictedOf(s, q) && AcknowledgedCounts(s.commands) == []
  {
    hide AcceptedOf, EvictedOf, HeadOf, Init, Run;
    var start := Init(loaded, capacity, reportIntervalSec);
    AcceptedAreSuccesses(loaded, events, capacity, reportIntervalSec, q);
    LedgerFacts(loaded, events, capacity, reportIntervalSec, q);
    var generations := Succeeded(start, events, capacity);
    if generations != [] { SomeSuccess(start, events, capacity, generations[0]); }
  }

  lemma SomeSuccess(start: State, events: seq<Event>, capacity: nat, generation: nat)
    requires AnsweredOk(start, events, capacity, generation)
    ensures exists e <- events :: e.ThreadAnswers? && e.ok
  {
    hide Run;
    var k :| 0 <= k < |events| && AnswersAt(start, events, capacity, generation, k);
    assert events[k] in events;
  }

  lemma FailureStep(s: State, e: Event, capacity: nat)
    ensures var after, reply := Step(s, e, capacity), ReadNow(s, e);
            if reply.None? then after.uploadFailures == s.uploadFailures && after.lastUploadFailed == s.lastUploadFailed
            else if reply.value.ok then after.uploadFailures == 0 && !after.lastUploadFailed
            else after.uploadFailures == s.uploadFailures + 1 && after.lastUploadFailed
  {
    hide Acknowledge, EvictTo, NewInterval, UploadReportDue;
  }

  /** The loop's failure count is the failures read while current since the last success. */
  lemma {:induction false} FailuresAreCounted(loaded: seq<SamplePoint>, events: seq<Event>, capacity: nat, reportIntervalSec: nat)
    ensures var start := Init(loaded, capacity, reportIntervalSec);
            var s := Run(start, events, capacity);
            && s.uploadFailures == FailuresInARow(start, events, capacity)
            && (s.lastUploadFailed <==> s.uploadFailures > 0)
  {
    if events == [] {
    } else {
      hide ReadNow, Step;
      var init := events[..|events| - 1];
      FailuresAreCounted(loaded, init, capacity, reportIntervalSec);
      FailureStep(Run(Init(loaded, capacity, reportIntervalSec), init, capacity), events[|events| - 1], capacity);
    }
  }

  // ----- Everything taken goes in, in order -----

  function Sampled(events: seq<Event>): seq<SamplePoint> {
    if events == [] then []
    else
      var e := events[|events| - 1];
      Sampled(events[..|events| - 1]) + if e.TakeSample? then [e.sample] else []
  }

  function Probed(events: seq<Event>): seq<PingBatch> {
    if events == [] then []
    else
      var e := events[|events| - 1];
      Probed(events[..|events| - 1]) + if e.TakeProbes? then e.batches else []
  }

  lemma {:induction false} AllConcat(a: seq<PingBatch>, b: seq<PingBatch>)
    ensures AllPings(a + b) == AllPings(a) + AllPings(b) && AllProxyChecks(a + b) == AllProxyChecks(a) + AllProxyChecks(b)
  {
    if b == [] {
      assert a + b == a;
    } else {
      var all, init := a + b, b[..|b| - 1];
      assert all[|all| - 1] == b[|b| - 1] && all[..|all| - 1] == a + init;
      AllConcat(a, init);
    }
  }

  /** The queues' histories are the samples and probe results of the run, each once and in order. */
  lemma {:induction false} HistoryIsFed(loaded: seq<SamplePoint>, events: seq<Event>, capacity: nat, reportIntervalSec: nat)
    ensures var s := Run(Init(loaded, capacity, reportIntervalSec), events, capacity);
            && s.samples.history == loaded[if |loaded| > capacity then |loaded| - capacity else 0..] + Sampled(events)
            && s.pings.history == AllPings(Probed(events)) && s.proxies.history == AllProxyChecks(Probed(events))
  {
    hide AllPings, AllProxyChecks, Init, Probed, Run, Sampled, Step;
    var start := Init(loaded, capacity, reportIntervalSec);
    if events == [] {
      NothingFed(loaded, capacity, reportIntervalSec);
    } else {
      var init, e := events[..|events| - 1], events[|events| - 1];
      assert events == init + [e];
      HistoryIsFed(loaded, init, capacity, reportIntervalSec);
      RunSnoc(start, init, e, capacity);
      HistoryStep(Run(start, init, capacity), e, capacity);
      FedSnoc(init, e);
    }
  }

  lemma NothingFed(loaded: seq<SamplePoint>, capacity: nat, reportIntervalSec: nat)
    ensures var s := Run(Init(loaded, capacity, reportIntervalSec), [], capacity);
            && s.samples.history == loaded[if |loaded| > capacity then |loaded| - capacity else 0..] + Sampled([])
            && s.pings.history == AllPings(Probed([])) && s.proxies.history == AllProxyChecks(Probed([]))
  {
  }

  lemma FedSnoc(init: seq<Event>, e: Event)
    ensures Sampled(init + [e]) == Sampled(init) + if e.TakeSample? then [e.sample] else []
    ensures AllPings(Probed(init + [e])) == AllPings(Probed(init)) + if e.TakeProbes? then AllPings(e.batches) else []
    ensures AllProxyChecks(Probed(init + [e]))
         == AllProxyChecks(Probed(init)) + if e.TakeProbes? then AllProxyChecks(e.batches) else []
  {
    hide AllPings, AllProxyChecks;
    assert (init + [e])[..|init|] == init;
    if e.TakeProbes? { AllConcat(Probed(init), e.batches); }
    assert Probed(init) + [] == Probed(init);
  }

  lemma HistoryStep(s: State, e: Event, capacity: nat)
    ensures var after := Step(s, e, capacity);
            && after.samples.history == s.samples.history + (if e.TakeSample? then [e.sample] else [])
            && after.pings.history == s.pings.history + (if e.TakeProbes? then AllPings(e.batches) else [])
            && after.proxies.history == s.proxies.history + (if e.TakeProbes? then AllProxyChecks(e.batches) else [])
  {
    hide AllPings, AllProxyChecks, GrownCapacity, NewInterval, NextBatch, UploadReportDue;
    assert s.samples.history + [] == s.samples.history && s.pings.history + [] == s.pings.history
        && s.proxies.history + [] == s.proxies.history;
  }

  /** What the writer is told: every sample, the count of every success, and to save before a restart. */
  function Told(s: State, events: seq<Event>, capacity: nat): seq<QueueCommand> {
    if events == [] then []
    else
      var init, e := events[..|events| - 1], events[|events| - 1];
      var reply := ReadNow(Run(s, init, capacity), e);
      Told(s, init, capacity)
      + (if e.TakeSample? then [Append(e.sample)]
         else if e.UpdateInstalled? then [Flush]
         else if reply.Some? && reply.value.ok then [AcknowledgeCount(reply.value.batch.sampleCount)] else [])
  }

  /** On every run exactly that was sent, in that order; and the first report is the one that starts the first upload. */
  lemma {:induction false} CommandsAreTold(loaded: seq<SamplePoint>, events: seq<Event>, capacity: nat, reportIntervalSec: nat)
    ensures var start := Init(loaded, capacity, reportIntervalSec);
            var s := Run(start, events, capacity);
            s.commands == Told(start, events, capacity) && (s.firstReport <==> s.generation == 0)
  {
    if events == [] {
    } else {
      hide ReadNow, Step;
      var init := events[..|events| - 1];
      CommandsAreTold(loaded, init, capacity, reportIntervalSec);
      TellStep(Run(Init(loaded, capacity, reportIntervalSec), init, capacity), events[|events| - 1], capacity);
    }
  }

  lemma TellStep(s: State, e: Event, capacity: nat)
    ensures var after, reply := Step(s, e, capacity), ReadNow(s, e);
            && after.commands == s.commands
                 + (if e.TakeSample? then [Append(e.sample)]
                    else if e.UpdateInstalled? then [Flush]
                    else if reply.Some? && reply.value.ok then [AcknowledgeCount(reply.value.batch.sampleCount)] else [])
            && ((s.firstReport <==> s.generation == 0) ==> (after.firstReport <==> after.generation == 0))
  {
    hide Acknowledge, EvictTo, GrownCapacity, NewInterval, NextBatch, UploadReportDue;
    assert s.commands + [] == s.commands;
  }

  lemma InBetween(before: seq<PingBatch>, batch: PingBatch, behind: seq<PingBatch>)
    ensures AllPings(before + [batch] + behind) == AllPings(before) + batch.results + AllPings(behind)
    ensures AllProxyChecks(before + [batch] + behind)
         == AllProxyChecks(before) + batch.proxyResults + AllProxyChecks(behind)
  {
    hide AllPings, AllProxyChecks;
    AllConcat(before + [batch], behind);
    AllConcat(before, [batch]);
    OneBatch(batch);
  }

  /** Each batch goes in whole, behind all of the earlier ones and before all of the later. */
  lemma EveryProbeGoesIn(batches: seq<PingBatch>, i: nat)
    requires i < |batches|
    ensures AllPings(batches) == AllPings(batches[..i]) + batches[i].results + AllPings(batches[i + 1..])
    ensures AllProxyChecks(batches)
         == AllProxyChecks(batches[..i]) + batches[i].proxyResults + AllProxyChecks(batches[i + 1..])
  {
    hide AllPings, AllProxyChecks;
    var before, behind := batches[..i], batches[i + 1..];
    InBetween(before, batches[i], behind);
    assert batches == before + [batches[i]] + behind;
  }

  lemma OneBatch(batch: PingBatch)
    ensures AllPings([batch]) == batch.results && AllProxyChecks([batch]) == batch.proxyResults
  {
    assert [batch][..0] == [];
  }

  /** A queue that was never fed more than it can hold has evicted nothing. */
  lemma {:induction false} NothingEvictedWithinCapacity(
      loaded: seq<SamplePoint>, events: seq<Event>, capacity: nat, reportIntervalSec: nat)
    ensures var s := Run(Init(loaded, capacity, reportIntervalSec), events, capacity);
            && (|s.samples.history| <= capacity ==> s.samples.evicted == 0)
            && (|s.pings.history| <= 200 ==> s.pings.evicted == 0)
            && (|s.proxies.history| <= 1000 ==> s.proxies.evicted == 0)
            && s.pingCapacity >= 200
  {
    if events == [] {
    } else {
      hide Init, Step;
      var init := events[..|events| - 1];
      NothingEvictedWithinCapacity(loaded, init, capacity, reportIntervalSec);
      RunKeepsInv(loaded, init, capacity, reportIntervalSec);
      EvictionStep(Run(Init(loaded, capacity, reportIntervalSec), init, capacity), events[|events| - 1], capacity);
    }
  }

  lemma EvictionStep(s: State, e: Event, capacity: nat)
    requires Bounded(s, capacity) && s.pingCapacity >= 200
    ensures var after := Step(s, e, capacity);
            && after.pingCapacity >= 200
            && (|after.samples.history| <= capacity ==>
                  after.samples.evicted == s.samples.evicted && |s.samples.history| <= capacity)
            && (|after.pings.history| <= 200 ==>
                  after.pings.evicted == s.pings.evicted && |s.pings.history| <= 200)
            && (|after.proxies.history| <= 1000 ==>
                  after.proxies.evicted == s.proxies.evicted && |s.proxies.history| <= 1000)
  {
    hide AllPings, AllProxyChecks, Chain, Covered, GrownCapacity, UploadReportDue;
    if e.TakeProbes? { GrownCapacityBounds(s.pingCapacity, s.reportIntervalSec, e.batches); }
  }

  /** Room is made by the oldest alone, and no more than is needed. */
  lemma EvictsTheOldest<T>(q: Ledger<T>, capacity: nat)
    ensures var after := EvictTo(q, capacity);
            |after.items| == (if |q.items| < capacity then |q.items| else capacity)
            && after.items == q.items[|q.items| - |after.items|..] && after.history == q.history
  {
  }

  /**
   The ping queue holds whatever is probed between two reports, two rounds more, up to ten
   thousand: `rounds` of a batch fit into the report interval.
   */
  lemma {:induction false} GrownForTheInterval(
      capacity: nat, reportIntervalSec: nat, batches: seq<PingBatch>, i: nat, rounds: nat)
    requires i < |batches| && batches[i].intervalSec > 0
    requires rounds > 0 ==> (rounds - 1) * batches[i].intervalSec < reportIntervalSec
    ensures var needed := (rounds + 2) * |batches[i].results|;
            GrownCapacity(capacity, reportIntervalSec, batches) >= if needed < 10_000 then needed else 10_000
    decreases |batches|
  {
    var init, last := batches[..|batches| - 1], batches[|batches| - 1];
    if i < |init| {
      GrownForTheInterval(capacity, reportIntervalSec, init, i, rounds);
    } else {
      RoundsFit(reportIntervalSec, last.intervalSec, rounds);
      MoreRounds(rounds + 2, CeilDiv(reportIntervalSec, last.intervalSec) + 2, |last.results|);
    }
  }

  lemma RoundsFit(a: nat, b: nat, rounds: nat)
    requires b > 0 && (rounds > 0 ==> (rounds - 1) * b < a)
    ensures rounds <= CeilDiv(a, b)
  {
    assert CeilDiv(a, b) * b >= a;
    if rounds > CeilDiv(a, b) { MoreRounds(CeilDiv(a, b), rounds - 1, b); }
  }

  lemma MoreRounds(a: nat, b: nat, n: nat)
    requires a <= b
    ensures a * n <= b * n
  {
  }

  // ----- When a report starts -----

  predicate Starts(s: State, elapsed: nat, capacity: nat) {
    Step(s, MaybeReport(elapsed), capacity).generation == s.generation + 1
  }

  /** A minute, twice as long with every further failure, at most a quarter of an hour. */
  function Backoff(failures: nat): nat
    requires failures > 0
  {
    if failures == 1 then 60 else Min(900, 2 * Backoff(failures - 1))
  }

  lemma {:induction false} BackoffAgrees(failures: nat)
    requires failures > 0
    ensures RetrySec(failures) == Backoff(failures)
  {
    if failures == 1 {
    } else {
      BackoffAgrees(failures - 1);
    }
  }

  /** The first report starts at once, with the newest of what was loaded. */
  lemma FirstReportStarts(loaded: seq<SamplePoint>, capacity: nat, reportIntervalSec: nat, elapsed: nat)
    ensures Starts(Init(loaded, capacity, reportIntervalSec), elapsed, capacity)
  {
  }

  /** After a failure that is read while current: nothing leaves a queue, and the next report waits longer with each. */
  lemma AfterFailure(s: State, elapsed: nat, capacity: nat)
    requires ReadNow(s, ReceiveReply).Some? && !ReadNow(s, ReceiveReply).value.ok
    ensures var after := Step(s, ReceiveReply, capacity);
            && after.samples == s.samples && after.pings == s.pings && after.proxies == s.proxies
            && (Starts(after, elapsed, capacity) <==> |s.samples.items| > 0 && elapsed >= Backoff(s.uploadFailures + 1))
  {
    BackoffAgrees(s.uploadFailures + 1);
  }

  /** After a success: at the interval the server asked for, between 10 seconds and an hour, or for a backlog. */
  lemma AfterSuccess(s: State, elapsed: nat, capacity: nat)
    requires ReadNow(s, ReceiveReply).Some? && ReadNow(s, ReceiveReply).value.ok && !s.firstReport
    ensures var after, asked := Step(s, ReceiveReply, capacity), ReadNow(s, ReceiveReply).value.reportIntervalSec;
            && (Starts(after, elapsed, capacity) <==> |after.samples.items| > 900 || elapsed >= after.reportIntervalSec)
            && after.reportIntervalSec == (if asked.None? then s.reportIntervalSec
                                           else if asked.value < 10 then 10
                                           else if asked.value > 3600 then 3600 else asked.value)
  {
    hide Acknowledge;
  }

  /** An upload without an answer blocks the next report for three minutes, and no longer. */
  lemma StalledUploadIsReplaced(s: State, waited: nat, elapsed: nat, capacity: nat)
    requires s.uploading && |s.samples.items| > 900 && !s.lastUploadFailed
    ensures !Starts(s, elapsed, capacity)
    ensures Starts(Step(s, CheckStall(waited), capacity), elapsed, capacity) <==> waited >= 180
  {
  }

  /** What an upload takes off a queue: as much of its front as a report carries, if it succeeds. */
  function TakenOff(queued: nat, most: nat, ok: bool): nat {
    if !ok then 0 else if queued < most then queued else most
  }

  /**
   One whole round from any reachable state: a report that starts, its success, and the reading of
   it take off each queue its front up to 900, 5000 and 100; a failure takes nothing.
   */
  lemma OneRound(s: State, elapsed: nat, ok: bool, interval: Option<nat>, capacity: nat)
    requires Inv(s, capacity) && s.replies == [] && Starts(s, elapsed, capacity)
    ensures var started := Step(s, MaybeReport(elapsed), capacity);
            var answered := Step(started, ThreadAnswers(started.generation, ok, interval), capacity);
            var after := Step(answered, ReceiveReply, capacity);
            && !after.uploading
            && after.samples.items == s.samples.items[TakenOff(|s.samples.items|, 900, ok)..]
            && after.pings.items == s.pings.items[TakenOff(|s.pings.items|, 5000, ok)..]
            && after.proxies.items == s.proxies.items[TakenOff(|s.proxies.items|, 100, ok)..]
  {
    hide Chain, Covered, NewInterval, UploadReportDue;
    assert s.samples.items[0..] == s.samples.items && s.pings.items[0..] == s.pings.items
        && s.proxies.items[0..] == s.proxies.items;
  }
}
