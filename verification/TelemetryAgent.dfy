/**
 The loop's variables as the program updates them, one method per stage of an iteration. Each
 method takes the recorded state exactly one step (or, for the reply channel, one step per
 reply), so what `StepKeepsInv` says of steps holds of every sequence of calls.
 */
module TelemetryAgent {
  import opened Ledger
  import opened QueueCommands
  import opened Telemetry
  import opened TelemetryLoop
  import opened Wrappers

  /** Reading the reply channel until it is empty is one step per reply. */
  function AllReplies(count: nat): seq<Event> { seq(count, _ => TelemetryLoop.Event.ReceiveReply) }

  lemma OneMoreReply(s: State, count: nat, capacity: nat)
    ensures Run(s, AllReplies(count + 1), capacity) == Step(Run(s, AllReplies(count), capacity), ReceiveReply, capacity)
  {
    assert AllReplies(count + 1) == AllReplies(count) + [ReceiveReply];
    RunSnoc(s, AllReplies(count), ReceiveReply, capacity);
  }

  class Agent {
    const capacity: nat
    var samples: seq<SamplePoint>
    var pings: seq<PingResult>
    var proxyChecks: seq<ProxyCheckResult>
    var pingCapacity: nat
    var uploading: bool
    var generation: nat
    var firstReport: bool
    var lastUploadFailed: bool
    var uploadFailures: nat
    var reportIntervalSec: nat
    var flying: map<nat, Batch>
    var replies: seq<UploadResult>
    var commands: seq<QueueCommand>
    ghost var log: State

    ghost predicate Valid()
      reads this
    {
      && |samples| <= capacity
      && samples == log.samples.items && pings == log.pings.items && proxyChecks == log.proxies.items
      && pingCapacity == log.pingCapacity && uploading == log.uploading && generation == log.generation
      && firstReport == log.firstReport && lastUploadFailed == log.lastUploadFailed
      && uploadFailures == log.uploadFailures && reportIntervalSec == log.reportIntervalSec
      && flying == log.flying && replies == log.replies && commands == log.commands
    }

    constructor (loaded: seq<SamplePoint>, capacity: nat, reportIntervalSec: nat)
      ensures Valid() && this.capacity == capacity
      ensures log == Init(loaded, capacity, reportIntervalSec)
    {
      this.capacity := capacity;
      samples := if |loaded| > capacity then loaded[|loaded| - capacity..] else loaded;
      pings, proxyChecks := [], [];
      pingCapacity := MIN_PING_QUEUE_CAPACITY;
      uploading, generation := false, 0;
      firstReport, lastUploadFailed, uploadFailures := true, false, 0;
      this.reportIntervalSec := reportIntervalSec;
      flying, replies, commands := map[], [], [];
      log := Init(loaded, capacity, reportIntervalSec);
    }

    method Sample(sample: SamplePoint)
      requires Valid()
      modifies this
      ensures Valid() && log == Step(old(log), TakeSample(sample), capacity)
    {
      samples := samples + [sample];
      commands := commands + [Append(sample)];
      if |samples| > capacity {
        samples := samples[1..];
      }
      log := Step(log, TakeSample(sample), capacity);
    }

    /** The upload thread of `generation` sends its answer; it was spawned with `flying`. */
    method Answer(generation: nat, ok: bool, interval: Option<nat>)
      requires Valid() && generation in flying
      modifies this
      ensures Valid() && log == Step(old(log), ThreadAnswers(generation, ok, interval), capacity)
    {
      replies := replies + [UploadResult(ok, interval, flying[generation], generation)];
      flying := flying - {generation};
      log := Step(log, ThreadAnswers(generation, ok, interval), capacity);
    }

    method AcceptUpload(reply: UploadResult)
      requires Valid()
      modifies this
      ensures Valid() && log == Accepted(old(log), reply)
    {
      hide DropPrefix, Min;
      log := Accepted(log, reply);
      uploading, lastUploadFailed, uploadFailures := false, false, 0;
      reportIntervalSec := NewInterval(reportIntervalSec, reply.reportIntervalSec);
      DropBatch(reply.batch);
    }

    method DropBatch(batch: Batch)
      modifies `samples, `commands, `pings, `proxyChecks
      ensures samples == DropPrefix(old(samples), batch.sampleCount)
      ensures pings == DropPrefix(old(pings), batch.pingCount)
      ensures proxyChecks == DropPrefix(old(proxyChecks), batch.proxyCount)
      ensures commands == old(commands) + [AcknowledgeCount(batch.sampleCount)]
    {
      samples := DropPrefix(samples, batch.sampleCount);
      commands := commands + [AcknowledgeCount(batch.sampleCount)];
      pings := DropPrefix(pings, batch.pingCount);
      proxyChecks := DropPrefix(proxyChecks, batch.proxyCount);
    }

    /** One reply read from the channel; a reply of another generation is only thrown away. */
    method ReceiveReply()
      requires Valid() && replies != []
      modifies this
      ensures Valid() && log == ReceiveStep(old(log))
      // Only a success of the current upload takes anything off a queue.
      ensures old(replies)[0].generation != generation || !old(replies)[0].ok ==>
                samples == old(samples) && pings == old(pings) && proxyChecks == old(proxyChecks) && commands == old(commands)
      ensures old(replies)[0].generation == generation ==>
                !uploading && uploadFailures == if old(replies)[0].ok then 0 else old(uploadFailures) + 1
      ensures old(replies)[0].generation != generation ==>
                uploading == old(uploading) && uploadFailures == old(uploadFailures)
    {
      var reply := replies[0];
      replies := replies[1..];
      log := log.(replies := replies);
      if reply.generation == generation {
        if reply.ok {
          AcceptUpload(reply);
        } else {
          uploading, lastUploadFailed, uploadFailures := false, true, uploadFailures + 1;
          log := log.(uploading := false, lastUploadFailed := true, uploadFailures := uploadFailures);
        }
      }
    }

    method DrainReplies()
      requires Valid()
      modifies this
      ensures Valid() && replies == []
      ensures log == Run(old(log), AllReplies(|old(replies)|), capacity)
    {
      var count := 0;
      while replies != []
        invariant Valid() && count + |replies| == |old(replies)|
        invariant log == Run(old(log), AllReplies(count), capacity)
        decreases |replies|
      {
        OneMoreReply(old(log), count, capacity);
        ReceiveReply();
        count := count + 1;
      }
    }

    method DrainProbes(batches: seq<PingBatch>)
      requires Valid()
      modifies this
      ensures Valid() && log == Step(old(log), TakeProbes(batches), capacity)
    {
      hide AllPings, AllProxyChecks, GrownCapacity;
      ExtendQueues(batches);
      pings := KeepNewest(pings, pingCapacity);
      proxyChecks := KeepNewest(proxyChecks, MAX_PROXY_QUEUE_CAPACITY);
      log := ProbesStep(log, batches);
    }

    method ExtendQueues(batches: seq<PingBatch>)
      modifies `pingCapacity, `pings, `proxyChecks
      ensures pingCapacity == GrownCapacity(old(pingCapacity), reportIntervalSec, batches)
      ensures pings == old(pings) + AllPings(batches)
      ensures proxyChecks == old(proxyChecks) + AllProxyChecks(batches)
    {
      for i := 0 to |batches|
        invariant pingCapacity == GrownCapacity(old(pingCapacity), reportIntervalSec, batches[..i])
        invariant pings == old(pings) + AllPings(batches[..i])
        invariant proxyChecks == old(proxyChecks) + AllProxyChecks(batches[..i])
      {
        var batch := batches[i];
        pingCapacity := Grow(pingCapacity, reportIntervalSec, batch);
        pings := pings + batch.results;
        proxyChecks := proxyChecks + batch.proxyResults;
        assert batches[..i + 1][..i] == batches[..i];
      }
      assert batches[..|batches|] == batches;
    }

    method RecoverStall(elapsed: nat)
      requires Valid()
      modifies this
      ensures Valid() && log == Step(old(log), CheckStall(elapsed), capacity)
    {
      if uploading && elapsed >= UPLOAD_STALL_SEC {
        uploading := false;
      }
      log := Step(log, CheckStall(elapsed), capacity);
    }

    /** Starts an upload if one is due; returns the batches handed to the new thread. */
    method StartUpload(elapsed: nat)
      returns (upload: Option<(seq<SamplePoint>, seq<PingResult>, seq<ProxyCheckResult>)>)
      requires Valid()
      modifies this
      ensures Valid() && log == Step(old(log), MaybeReport(elapsed), capacity)
      ensures upload.Some? <==> !old(uploading) && UploadReportDue(old(log), elapsed)
      ensures upload.Some? ==>
                && upload.value.0 <= samples && upload.value.1 <= pings && upload.value.2 <= proxyChecks
                && flying[generation] == Batch(|upload.value.0|, |upload.value.1|, |upload.value.2|)
    {
      var due := if lastUploadFailed then |samples| > 0 && elapsed >= RetrySec(uploadFailures)
                 else firstReport || |samples| > REPORT_MAX_SAMPLES || elapsed >= reportIntervalSec;
      upload := None;
      if !uploading && due {
        var batch := Batch(Min(|samples|, REPORT_MAX_SAMPLES), Min(|pings|, REPORT_MAX_PINGS),
                           Min(|proxyChecks|, REPORT_MAX_PROXY_CHECKS));
        upload := Some((samples[..batch.sampleCount], pings[..batch.pingCount], proxyChecks[..batch.proxyCount]));
        uploading := true;
        generation := generation + 1;
        flying := flying[generation := batch];
        firstReport := false;
      }
      log := ReportStep(log, elapsed);
    }
  }

  function KeepNewest<T>(items: seq<T>, capacity: nat): seq<T>
  {
    if |items| > capacity then items[|items| - capacity..] else items
  }
}
