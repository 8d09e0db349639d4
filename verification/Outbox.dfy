/**
 The outbox of task results: a finished result that cannot be delivered is kept in one of two
 files and delivered before any new task is claimed. Every outcome of the network and the file
 system is an input, down to each failed rename and each reply that is lost on its way back.
 */
module Outbox {
  import opened Wrappers

  const MAX_SIZE := 4 * 1024 * 1024

  /** `number` counts the tasks this runner finished. */
  datatype Task = Task(number: nat, id: string, size: nat)

  datatype File = File(task: Task, intact: bool)

  /** A result the server took may still look undelivered: `ReplyLost`. `Status` is an HTTP error. */
  datatype Reply = Accepted | ReplyLost | Unreached | Status(code: nat)

  /** What the causes behind an error are, outermost first. */
  datatype Cause = Message | StatusCode(code: nat) | OtherFailure

  /** The client turns every error of a request into a message, and nothing stays behind it. */
  function HttpError(error: Cause): seq<Cause> { [Message] }

  /** Only an error while a response is read keeps its cause. */
  function ErrorOf(reply: Reply): seq<Cause> {
    match reply
    case Accepted => []
    case ReplyLost => [Message, OtherFailure]
    case Unreached => HttpError(OtherFailure)
    case Status(code) => HttpError(StatusCode(code))
  }

  /** The status among the causes, whichever it is. */
  function TerminalStatus(chain: seq<Cause>): Option<nat> {
    if chain == [] then None
    else if chain[0].StatusCode? then Some(chain[0].code)
    else TerminalStatus(chain[1..])
  }

  method TerminalTaskStatus(chain: seq<Cause>) returns (status: Option<nat>)
    ensures status == TerminalStatus(chain)
    ensures status.Some? <==> exists cause <- chain :: cause.StatusCode?
  {
    for i := 0 to |chain|
      invariant TerminalStatus(chain) == TerminalStatus(chain[i..])
      invariant forall k :: 0 <= k < i ==> !chain[k].StatusCode?
    {
      if chain[i].StatusCode? {
        return Some(chain[i].code);
      }
      assert chain[i..][1..] == chain[i + 1..];
    }
    return None;
  }

  predicate Terminal(reply: Reply) { TerminalStatus(ErrorOf(reply)).Some? }

  /** The file's fate is settled: it was taken, or the error's causes show a status. */
  predicate Settled(reply: Reply) { reply.Accepted? || Terminal(reply) }

  /** What befalls one slot during a flush. */
  datatype Fate = Fate(unreadable: bool, reply: Reply, removed: bool, firstRename: bool, secondRename: bool)

  datatype Claim = NoTask | Claimed(id: string, size: nat)

  /** One poll: the fates of both slots, the claim, three attempts to deliver, and the write. */
  datatype Event =
    | Poll(primary: Fate, backup: Fate, claim: Claim, first: Reply, second: Reply, third: Reply, written: bool)
    | Corrupt(slot: nat)

  datatype Reason = TerminalReply | Oversized | Unreadable | Unparsable | NoTaskId | WriteFailed | Overwritten

  /** The slots, and what has become of every finished result. */
  datatype State = State(slots: seq<Option<File>>, finished: nat, delivered: set<nat>, dropped: map<nat, Reason>)

  // ----- One slot -----

  /** Why a file is not a result to deliver, if it is not. */
  function Defect(file: File, unreadable: bool): Option<Reason> {
    if file.task.size > MAX_SIZE then Some(Oversized)
    else if unreadable then Some(Unreadable)
    else if !file.intact then Some(Unparsable)
    else if file.task.id == "" then Some(NoTaskId)
    else None
  }

  /** Reading renames a defective file once, except one without an identifier; flushing tries again. */
  predicate Quarantined(reason: Reason, fate: Fate) {
    (reason != NoTaskId && fate.firstRename) || fate.secondRename
  }

  datatype Outcome = Empty | Flushed | Cleared | Retry

  function OutcomeOf(slot: Option<File>, fate: Fate): Outcome {
    match slot
    case None => Empty
    case Some(file) =>
      if Defect(file, fate.unreadable).Some? then Cleared
      else if fate.reply == Accepted then Flushed
      else if Terminal(fate.reply) then Cleared
      else Retry
  }

  /** The file leaves its slot. */
  predicate Leaves(file: File, fate: Fate) {
    match Defect(file, fate.unreadable)
    case Some(reason) => Quarantined(reason, fate)
    case None => Settled(fate.reply) && fate.removed
  }

  function Visit(s: State, i: nat, fate: Fate): State
    requires i < |s.slots|
  {
    match s.slots[i]
    case None => s
    case Some(file) =>
      var after := if Leaves(file, fate) then s.(slots := s.slots[i := None]) else s;
      match Defect(file, fate.unreadable)
      case Some(reason) =>
        if Leaves(file, fate) then after.(dropped := s.dropped[file.task.number := reason]) else after
      case None =>
        if fate.reply in {Accepted, ReplyLost} then after.(delivered := s.delivered + {file.task.number})
        else if Leaves(file, fate) then after.(dropped := s.dropped[file.task.number := TerminalReply])
        else after
  }

  // ----- A poll -----

  predicate Busy(s: State, p: Event)
    requires p.Poll? && |s.slots| == 2
  {
    var first, second := OutcomeOf(s.slots[0], p.primary), OutcomeOf(s.slots[1], p.backup);
    first == Retry || second == Retry || first == Flushed || second == Flushed
  }

  /** A result to be retried ends the flush; the other slot is not looked at. */
  function Flush(s: State, p: Event): (after: State)
    requires p.Poll? && |s.slots| == 2
    ensures |after.slots| == 2
  {
    var first := Visit(s, 0, p.primary);
    if OutcomeOf(s.slots[0], p.primary) == Retry then first else Visit(first, 1, p.backup)
  }

  predicate Reached(p: Event)
    requires p.Poll?
  {
    p.first == Accepted || p.second == Accepted || p.third == Accepted
  }

  /** The server took it in one of the attempts made. */
  predicate Taken(p: Event)
    requires p.Poll?
  {
    Reached(p) || p.first == ReplyLost || p.second == ReplyLost || p.third == ReplyLost
  }

  /** Kept in the first slot, or in the second, over whatever it holds, when the first is occupied. */
  function Keep(s: State, task: Task, written: bool): (after: State)
    requires |s.slots| == 2
    ensures |after.slots| == 2
  {
    if !written then s.(dropped := s.dropped[task.number := WriteFailed])
    else if s.slots[0].None? then s.(slots := s.slots[0 := Some(File(task, true))])
    else
      var kept := s.(slots := s.slots[1 := Some(File(task, true))]);
      if s.slots[1].Some? then kept.(dropped := s.dropped[s.slots[1].value.task.number := Overwritten]) else kept
  }

  function Finish(s: State, p: Event): (after: State)
    requires p.Poll? && p.claim.Claimed? && |s.slots| == 2
    ensures |after.slots| == 2
  {
    var task := Task(s.finished, p.claim.id, p.claim.size);
    var done := s.(finished := s.finished + 1,
                   delivered := if Taken(p) then s.delivered + {task.number} else s.delivered);
    if Reached(p) then done else Keep(done, task, p.written)
  }

  function Step(s: State, e: Event): (after: State)
    requires |s.slots| == 2
    ensures |after.slots| == 2
  {
    match e
    case Corrupt(slot) =>
      if slot < 2 && s.slots[slot].Some?
      then s.(slots := s.slots[slot := Some(s.slots[slot].value.(intact := false))]) else s
    case Poll(_, _, claim, _, _, _, _) =>
      if Busy(s, e) || claim.NoTask? then Flush(s, e) else Finish(Flush(s, e), e)
  }

  function Run(events: seq<Event>): (after: State)
    ensures |after.slots| == 2
  {
    if events == [] then State([None, None], 0, {}, map[])
    else Step(Run(events[..|events| - 1]), events[|events| - 1])
  }

  class Runner {
    var slots: seq<Option<File>>
    var finished: nat
    ghost var log: State

    ghost predicate Valid()
      reads this
    {
      |slots| == 2 && slots == log.slots && finished == log.finished
    }

    constructor ()
      ensures Valid() && log == Run([])
    {
      slots, finished := [None, None], 0;
      log := Run([]);
    }

    method VisitSlot(i: nat, fate: Fate) returns (outcome: Outcome)
      requires Valid() && i < 2
      modifies this
      ensures Valid() && log == Visit(old(log), i, fate) && outcome == OutcomeOf(old(slots)[i], fate)
    {
      log := Visit(log, i, fate);
      if slots[i].None? {
        return Empty;
      }
      var file := slots[i].value;
      var defect := Defect(file, fate.unreadable);
      if defect.Some? {
        if defect.value != NoTaskId && fate.firstRename {
          slots := slots[i := None];
        }
        if slots[i].Some? && fate.secondRename {
          slots := slots[i := None];
        }
        return Cleared;
      }
      if fate.reply.Accepted? {
        if fate.removed { slots := slots[i := None]; }
        return Flushed;
      }
      var status := TerminalTaskStatus(ErrorOf(fate.reply));
      if status.Some? {
        if fate.removed { slots := slots[i := None]; }
        return Cleared;
      }
      return Retry;
    }

    /** True when something was delivered or is still to be: no new task is claimed then. */
    method FlushPending(p: Event) returns (busy: bool)
      requires Valid() && p.Poll?
      modifies this
      ensures Valid() && log == Flush(old(log), p) && busy == Busy(old(log), p)
    {
      var flushed := false;
      var fates := [p.primary, p.backup];
      for i := 0 to 2
        invariant Valid()
        invariant i == 0 ==> log == old(log) && !flushed
        invariant i > 0 ==> OutcomeOf(old(slots)[0], p.primary) != Retry
        invariant i == 1 ==> log == Visit(old(log), 0, p.primary) && slots[1] == old(slots)[1]
        invariant i == 1 ==> flushed == (OutcomeOf(old(slots)[0], p.primary) == Flushed)
        invariant i == 2 ==> log == Flush(old(log), p) && flushed == Busy(old(log), p)
      {
        var outcome := VisitSlot(i, fates[i]);
        if outcome == Retry {
          return true;
        }
        if outcome == Flushed {
          flushed := true;
        }
      }
      return flushed;
    }

    method PollOnce(p: Event)
      requires Valid() && p.Poll?
      modifies this
      ensures Valid() && log == Step(old(log), p)
    {
      var busy := FlushPending(p);
      if busy || p.claim.NoTask? {
        return;
      }
      ghost var flushed := log;
      log := Finish(log, p);
      var task := Task(finished, p.claim.id, p.claim.size);
      finished := finished + 1;
      var replies := [p.first, p.second, p.third];
      for attempt := 0 to 3
        invariant forall k :: 0 <= k < attempt ==> replies[k] != Accepted
      {
        if replies[attempt] == Accepted {
          return;
        }
      }
      assert replies[0] == p.first && replies[1] == p.second && replies[2] == p.third;
      if p.written {
        var target := if slots[0].Some? then 1 else 0;
        slots := slots[target := Some(File(task, true))];
      }
    }
  }

  // ----- Nothing finished is unaccounted for -----

  predicate Held(s: State, n: nat) {
    exists i :: 0 <= i < |s.slots| && s.slots[i].Some? && s.slots[i].value.task.number == n
  }

  ghost predicate Inv(s: State) {
    && |s.slots| == 2
    && (forall i :: 0 <= i < 2 && s.slots[i].Some? ==> s.slots[i].value.task.number < s.finished)
    && (forall n :: 0 <= n < s.finished ==> n in s.delivered || n in s.dropped || Held(s, n))
  }

  lemma VisitKeepsInv(s: State, i: nat, fate: Fate)
    requires Inv(s) && i < 2
    ensures Inv(Visit(s, i, fate)) && Visit(s, i, fate).finished == s.finished
  {
    var after := Visit(s, i, fate);
    forall n | 0 <= n < s.finished
      ensures n in after.delivered || n in after.dropped || Held(after, n)
    {
      if Held(s, n) {
        var j :| 0 <= j < 2 && s.slots[j].Some? && s.slots[j].value.task.number == n;
        if after.slots[j] == s.slots[j] { assert Held(after, n); }
      }
    }
  }

  lemma KeepKeepsInv(s: State, task: Task, written: bool)
    requires |s.slots| == 2 && task.number + 1 == s.finished && Inv(s.(finished := task.number))
    ensures Inv(Keep(s, task, written))
  {
    var after := Keep(s, task, written);
    forall n | 0 <= n < s.finished
      ensures n in after.delivered || n in after.dropped || Held(after, n)
    {
      if n == task.number {
        if written {
          var target := if s.slots[0].None? then 0 else 1;
          assert after.slots[target].value.task.number == n;
        }
      } else if Held(s, n) {
        var j :| 0 <= j < 2 && s.slots[j].Some? && s.slots[j].value.task.number == n;
        if after.slots[j] == s.slots[j] { assert Held(after, n); }
      } else {
        assert !Held(s.(finished := task.number), n);
      }
    }
  }

  lemma FlushKeepsInv(s: State, p: Event)
    requires Inv(s) && p.Poll?
    ensures Inv(Flush(s, p)) && Flush(s, p).finished == s.finished
  {
    VisitKeepsInv(s, 0, p.primary);
    VisitKeepsInv(Visit(s, 0, p.primary), 1, p.backup);
  }

  lemma FinishKeepsInv(s: State, p: Event)
    requires Inv(s) && p.Poll? && p.claim.Claimed?
    ensures Inv(Finish(s, p))
  {
    var done := s.(finished := s.finished + 1, delivered := if Taken(p) then s.delivered + {s.finished} else s.delivered);
    forall n | 0 <= n < s.finished
      ensures n in done.delivered || n in done.dropped || Held(done, n)
    {
      assert Held(s, n) ==> Held(done, n);
    }
    if !Reached(p) { KeepKeepsInv(done, Task(s.finished, p.claim.id, p.claim.size), p.written); }
  }

  lemma StepKeepsInv(s: State, e: Event)
    requires Inv(s)
    ensures Inv(Step(s, e))
  {
    hide Finish, Flush, Visit;
    match e
    case Corrupt(slot) => CorruptKeepsInv(s, slot);
    case Poll(_, _, claim, _, _, _, _) =>
      FlushKeepsInv(s, e);
      if !Busy(s, e) && claim.Claimed? { FinishKeepsInv(Flush(s, e), e); }
  }

  lemma CorruptKeepsInv(s: State, slot: nat)
    requires Inv(s)
    ensures Inv(Step(s, Corrupt(slot)))
  {
    var after := Step(s, Corrupt(slot));
    forall n | 0 <= n < s.finished
      ensures n in after.delivered || n in after.dropped || Held(after, n)
    {
      if Held(s, n) {
        var j :| 0 <= j < 2 && s.slots[j].Some? && s.slots[j].value.task.number == n;
        assert after.slots[j].Some? && after.slots[j].value.task.number == n;
      }
    }
  }

  lemma {:induction false} RunKeepsInv(events: seq<Event>)
    ensures Inv(Run(events))
  {
    if events == [] {
    } else {
      RunKeepsInv(events[..|events| - 1]);
      StepKeepsInv(Run(events[..|events| - 1]), events[|events| - 1]);
    }
  }

  /** Every finished result was taken by the server, is still in a slot, or was dropped for a named reason. */
  lemma {:induction false} EveryResultAccounted(events: seq<Event>, n: nat)
    requires n < Run(events).finished
    ensures n in Run(events).delivered || n in Run(events).dropped || Held(Run(events), n)
  {
    RunKeepsInv(events);
  }

  // ----- What is recorded happened -----

  function FateOf(e: Event, i: nat): Fate
    requires e.Poll?
  {
    if i == 0 then e.primary else e.backup
  }

  /** The slot holds the result in this state. */
  predicate At(s: State, i: nat, n: nat) {
    i < |s.slots| && s.slots[i].Some? && s.slots[i].value.task.number == n
  }

  /** The file can be read and names its task. */
  predicate Sendable(file: File, unreadable: bool) {
    file.task.size <= 4 * 1024 * 1024 && !unreadable && file.intact && file.task.id != ""
  }

  predicate NoneAccepted(e: Event)
    requires e.Poll?
  {
    !e.first.Accepted? && !e.second.Accepted? && !e.third.Accepted?
  }

  /** Why a file can leave its slot undelivered. */
  predicate HappensIn(file: File, fate: Fate, reason: Reason) {
    match reason
    case TerminalReply => Sendable(file, fate.unreadable) && Terminal(fate.reply) && fate.removed
    case Oversized => file.task.size > 4 * 1024 * 1024
    case Unreadable => fate.unreadable
    case Unparsable => !file.intact
    case NoTaskId => file.task.id == ""
    case WriteFailed => false
    case Overwritten => false
  }

  /** The event is one after which a result counts as dropped for the reason. */
  ghost predicate Happens(s: State, e: Event, n: nat, reason: Reason) {
    e.Poll? &&
    match reason
    case WriteFailed => e.claim.Claimed? && n == s.finished && !e.written && NoneAccepted(e)
    case Overwritten => e.claim.Claimed? && e.written && NoneAccepted(e) && At(s, 1, n) && |s.slots| > 0 && s.slots[0].Some?
    case _ => exists i: nat :: i < 2 && At(s, i, n) && HappensIn(s.slots[i].value, FateOf(e, i), reason)
  }

  /** The server took the result, in a flush or in one of the attempts after the task. */
  ghost predicate IsTaken(s: State, e: Event, n: nat) {
    e.Poll? &&
    ((exists i: nat :: i < 2 && At(s, i, n) && (FateOf(e, i).reply.Accepted? || FateOf(e, i).reply.ReplyLost?))
     || (e.claim.Claimed? && n == s.finished
         && (!NoneAccepted(e) || e.first.ReplyLost? || e.second.ReplyLost? || e.third.ReplyLost?)))
  }

  lemma VisitDrops(s: State, i: nat, fate: Fate, n: nat)
    requires i < |s.slots|
    ensures var after := Visit(s, i, fate);
            && (n in after.dropped ==> (n in s.dropped && after.dropped[n] == s.dropped[n])
                                       || (At(s, i, n) && HappensIn(s.slots[i].value, fate, after.dropped[n])))
            && (n in after.delivered ==> n in s.delivered || (At(s, i, n) && (fate.reply.Accepted? || fate.reply.ReplyLost?)))
            && (forall j :: 0 <= j < |s.slots| && j != i ==> after.slots[j] == s.slots[j])
            && |after.slots| == |s.slots| && (after.slots[i].Some? ==> after.slots[i] == s.slots[i])
            && after.finished == s.finished
  {
  }

  lemma FlushDrops(s: State, e: Event, n: nat)
    requires e.Poll? && |s.slots| == 2
    ensures var after := Flush(s, e);
            && (n in after.dropped ==> (n in s.dropped && after.dropped[n] == s.dropped[n]) || Happens(s, e, n, after.dropped[n]))
            && (n in after.delivered ==> n in s.delivered || IsTaken(s, e, n))
            && (forall j :: 0 <= j < 2 && after.slots[j].Some? ==> after.slots[j] == s.slots[j])
            && after.finished == s.finished
  {
    hide Visit, OutcomeOf, HappensIn;
    VisitDrops(s, 0, e.primary, n);
    VisitDrops(Visit(s, 0, e.primary), 1, e.backup, n);
    assert FateOf(e, 0) == e.primary && FateOf(e, 1) == e.backup;
    PlainReasons(s, e, n);
  }

  lemma PlainReasons(s: State, e: Event, n: nat)
    requires e.Poll?
    ensures forall i: nat, reason :: i < 2 && At(s, i, n) && HappensIn(s.slots[i].value, FateOf(e, i), reason) ==>
              Happens(s, e, n, reason)
  {
  }

  lemma StepDrops(s: State, e: Event, n: nat)
    requires |s.slots| == 2
    ensures var after := Step(s, e);
            && (n in after.dropped ==> (n in s.dropped && after.dropped[n] == s.dropped[n]) || Happens(s, e, n, after.dropped[n]))
            && (n in after.delivered ==> n in s.delivered || IsTaken(s, e, n))
  {
    hide Flush, HappensIn, Busy;
    if e.Poll? { FlushDrops(s, e, n); }
  }

  /** The server took it and the file was removed, or the file is damaged and was renamed. */
  predicate MayLeave(file: File, fate: Fate) {
    if Sendable(file, fate.unreadable) then fate.reply.Accepted? && fate.removed else fate.firstRename || fate.secondRename
  }

  lemma VisitLeaves(s: State, i: nat, fate: Fate)
    requires i < |s.slots| == 2
    ensures var after := Visit(s, i, fate);
            && |after.slots| == 2 && after.slots[1 - i] == s.slots[1 - i]
            && (after.slots[i] == s.slots[i] || (s.slots[i].Some? && MayLeave(s.slots[i].value, fate)))
  {
    NoStatusShows();
  }

  /** And it does leave when the server took it and it can be removed, or it is damaged and can be renamed. */
  lemma SettledLeaves(s: State, i: nat, fate: Fate)
    requires i < |s.slots| && s.slots[i].Some?
    requires var file := s.slots[i].value;
             if Sendable(file, fate.unreadable) then fate.reply.Accepted? && fate.removed else fate.secondRename
    ensures Visit(s, i, fate).slots == s.slots[i := None]
  {
  }

  lemma FlushLeaves(s: State, e: Event, i: nat)
    requires e.Poll? && |s.slots| == 2 && i < 2
    ensures Flush(s, e).slots[i] == s.slots[i] || (s.slots[i].Some? && MayLeave(s.slots[i].value, FateOf(e, i)))
  {
    hide MayLeave, OutcomeOf, Visit;
    VisitLeaves(s, 0, e.primary);
    VisitLeaves(Visit(s, 0, e.primary), 1, e.backup);
  }

  /** A result leaves its slot only in this way, or when a newer one is written over it. */
  lemma {:induction false} LeavesSlotOnly(s: State, e: Event, i: nat, n: nat)
    requires |s.slots| == 2 && i < 2 && At(s, i, n) && !At(Step(s, e), i, n)
    ensures e.Poll?
    ensures MayLeave(s.slots[i].value, FateOf(e, i))
            || (i == 1 && e.claim.Claimed? && e.written && NoneAccepted(e) && s.slots[0].Some?)
  {
    hide MayLeave, Flush, Busy, FateOf;
    if e.Poll? {
      FlushLeaves(s, e, 0);
      FlushLeaves(s, e, 1);
    }
  }

  ghost predicate Happened(events: seq<Event>, n: nat, reason: Reason) {
    exists k :: 0 <= k < |events| && Happens(Run(events[..k]), events[k], n, reason)
  }

  ghost predicate WasTaken(events: seq<Event>, n: nat) {
    exists k :: 0 <= k < |events| && IsTaken(Run(events[..k]), events[k], n)
  }

  /**
   On every run: the reason a result was dropped for happened to that very result, and one that
   counts as delivered was taken by the server. So with `EveryResultAccounted`, a result that was
   never taken leaves its slot only for one of these reasons, never because the network failed.
   */
  lemma {:induction false} RecordsAreTrue(events: seq<Event>, n: nat)
    ensures n in Run(events).dropped ==> Happened(events, n, Run(events).dropped[n])
    ensures n in Run(events).delivered ==> WasTaken(events, n)
  {
    if events == [] {
    } else {
      hide Happens, IsTaken, Step;
      var k := |events| - 1;
      var init := events[..k];
      RecordsAreTrue(init, n);
      StepDrops(Run(init), events[k], n);
      RecordsGrow(events, n);
      assert Run(events) == Step(Run(init), events[k]);
    }
  }

  lemma RecordsGrow(events: seq<Event>, n: nat)
    requires events != []
    ensures var init := events[..|events| - 1];
            && (forall reason :: Happened(init, n, reason) ==> Happened(events, n, reason))
            && (WasTaken(init, n) ==> WasTaken(events, n))
            && (forall reason :: Happens(Run(init), events[|events| - 1], n, reason) ==> Happened(events, n, reason))
            && (IsTaken(Run(init), events[|events| - 1], n) ==> WasTaken(events, n))
  {
    hide Happens, IsTaken, Run;
    var init := events[..|events| - 1];
    assert forall k :: 0 <= k < |init| ==> init[..k] == events[..k] && init[k] == events[k];
  }

  /** No reply shows its status, so in no run is a result given up because the server turned it down. */
  lemma {:induction false} NeverGivenUp(events: seq<Event>, n: nat)
    requires n in Run(events).dropped
    ensures Run(events).dropped[n] != TerminalReply
  {
    hide Run;
    RecordsAreTrue(events, n);
    NoStatusShows();
  }

  lemma NoStatusShows()
    ensures forall reply: Reply :: !Terminal(reply)
  {
    forall reply: Reply ensures !Terminal(reply) {
      assert ErrorOf(reply) == [] || ErrorOf(reply)[0] == Message;
      assert |ErrorOf(reply)| > 1 ==> ErrorOf(reply)[1..] == [OtherFailure] && [OtherFailure][1..] == [];
      assert |ErrorOf(reply)| == 1 ==> ErrorOf(reply)[1..] == [];
    }
  }

  /** The slot is asked about again and again: the server answers with an error status. */
  predicate TurnedDown(e: Event) { e.Poll? && !e.primary.unreadable && e.primary.reply.Status? }

  /** One result waits in the first slot. */
  const Waiting := State([Some(File(Task(0, "t", 1), true)), None], 1, {}, map[])

  lemma FirstWaits()
    ensures var fate := Fate(false, Unreached, true, true, true);
            Run([Poll(fate, fate, Claimed("t", 1), Unreached, Unreached, Unreached, true)]) == Waiting
  {
    var fate := Fate(false, Unreached, true, true, true);
    var first := Poll(fate, fate, Claimed("t", 1), Unreached, Unreached, Unreached, true);
    assert [first][..0] == [] && Run([first]) == Step(Run([]), first);
  }

  lemma StillWaits(e: Event)
    requires TurnedDown(e)
    ensures Step(Waiting, e) == Waiting
  {
    NoStatusShows();
  }

  /**
   Instead a result the server turns down for good is sent with every poll, and however many there
   are, no task is ever claimed again.
   */
  lemma {:induction false} TurnedDownBlocks(more: seq<Event>)
    requires forall e <- more :: TurnedDown(e)
    ensures var fate := Fate(false, Unreached, true, true, true);
            (Run([Poll(fate, fate, Claimed("t", 1), Unreached, Unreached, Unreached, true)] + more)
             == State([Some(File(Task(0, "t", 1), true)), None], 1, {}, map[]))
  {
    hide Step, TurnedDown;
    var fate := Fate(false, Unreached, true, true, true);
    var first := Poll(fate, fate, Claimed("t", 1), Unreached, Unreached, Unreached, true);
    FirstWaits();
    if more == [] {
      assert [first] + more == [first];
    } else {
      var init, e := more[..|more| - 1], more[|more| - 1];
      assert e in more && forall x <- init :: x in more;
      TurnedDownBlocks(init);
      StillWaits(e);
      assert ([first] + more)[..|more|] == [first] + init;
    }
  }

  // ----- When a task is claimed -----

  /** The file is left in its slot although nothing is to be retried: its removal or renaming failed. */
  predicate Stuck(slot: Option<File>, fate: Fate) {
    slot.Some? && OutcomeOf(slot, fate) == Cleared && !Leaves(slot.value, fate)
  }

  /** Work is claimed only over slots that this very flush found empty or emptied, or failed to empty. */
  lemma ClaimedOverClearSlots(s: State, p: Event)
    requires |s.slots| == 2 && p.Poll? && !Busy(s, p)
    ensures Flush(s, p).slots[0] == if Stuck(s.slots[0], p.primary) then s.slots[0] else None
    ensures Flush(s, p).slots[1] == if Stuck(s.slots[1], p.backup) then s.slots[1] else None
  {
  }

  /**
   A task that was claimed: the server has its result after an attempt it accepted, and it is not
   kept; otherwise it is kept in the first free slot, or the second, if it can be written.
   */
  lemma AfterTheTask(s: State, e: Event)
    requires |s.slots| == 2 && e.Poll? && !Busy(s, e) && e.claim.Claimed?
    ensures var flushed, after := Flush(s, e), Step(s, e);
            var file := File(Task(s.finished, e.claim.id, e.claim.size), true);
            && after.finished == s.finished + 1
            && (if !NoneAccepted(e) then after.slots == flushed.slots && s.finished in after.delivered
                else if !e.written then after.slots == flushed.slots && after.dropped == flushed.dropped[s.finished := WriteFailed]
                else if flushed.slots[0].None? then after.slots == [Some(file), flushed.slots[1]]
                else after.slots == [flushed.slots[0], Some(file)])
  {
    hide Visit, Busy;
    FlushKeepsCount(s, e);
  }

  lemma FlushKeepsCount(s: State, e: Event)
    requires |s.slots| == 2 && e.Poll?
    ensures Flush(s, e).finished == s.finished
  {
  }

  /** The second slot is never used, and the first holds only the newest result. */
  predicate Disciplined(s: State) {
    |s.slots| == 2 && s.slots[1].None? && (s.slots[0].Some? ==> s.slots[0].value.task.number + 1 == s.finished)
  }

  /** A task is claimed although the file in the first slot could not be moved out of it. */
  predicate OverStuck(s: State, e: Event)
    requires |s.slots| == 2
  {
    e.Poll? && !Busy(s, e) && e.claim.Claimed? && Stuck(s.slots[0], e.primary)
  }

  lemma StepKeepsDiscipline(s: State, e: Event)
    requires Disciplined(s)
    ensures Disciplined(Step(s, e)) <==> !OverStuck(s, e)
    ensures e.Poll? && !Busy(s, e) && e.claim.Claimed? && !OverStuck(s, e) ==> Flush(s, e).slots == [None, None]
  {
    if e.Poll? && !Busy(s, e) {
      ClaimedOverClearSlots(s, e);
      assert !Stuck(s.slots[0], e.primary) ==> Flush(s, e).slots == [None, None];
    }
  }

  ghost predicate AlwaysDisciplined(events: seq<Event>) {
    forall k :: 0 <= k <= |events| ==> Disciplined(Run(events[..k]))
  }

  ghost predicate NeverOverStuck(events: seq<Event>) {
    forall k :: 0 <= k < |events| ==> !OverStuck(Run(events[..k]), events[k])
  }

  /**
   Over a whole run: the second slot stays empty and the first holds only the newest result
   exactly when no task is ever claimed over a file that could not be removed or renamed.
   */
  lemma {:induction false} DisciplinedIff(events: seq<Event>)
    ensures AlwaysDisciplined(events) <==> NeverOverStuck(events)
  {
    hide Disciplined, OverStuck, Run, Step;
    if events != [] {
      var n := |events| - 1;
      var init := events[..n];
      DisciplinedIff(init);
      OneStepMore(events, init, n);
      assert init[..n] == init;
      if AlwaysDisciplined(init) {
        RunSnoc(events);
        StepKeepsDiscipline(Run(init), events[n]);
      }
    } else {
      StartsDisciplined();
    }
  }

  lemma RunSnoc(events: seq<Event>)
    requires events != []
    ensures Run(events) == Step(Run(events[..|events| - 1]), events[|events| - 1])
  {
  }

  lemma OneStepMore(events: seq<Event>, init: seq<Event>, n: nat)
    requires n + 1 == |events| && init == events[..n]
    ensures AlwaysDisciplined(events) <==> AlwaysDisciplined(init) && Disciplined(Run(events))
    ensures NeverOverStuck(events) <==> NeverOverStuck(init) && !OverStuck(Run(init), events[n])
  {
    hide Disciplined, OverStuck, Run;
    assert forall k :: 0 <= k <= n ==> init[..k] == events[..k];
    assert events[..n + 1] == events;
  }

  lemma StartsDisciplined()
    ensures Disciplined(Run([])) && AlwaysDisciplined([])
  {
  }

  /** And then at most the newest finished result is neither delivered nor dropped. */
  lemma {:induction false} AtMostOneUndelivered(events: seq<Event>, n: nat)
    requires NeverOverStuck(events) && n + 1 < Run(events).finished
    ensures n in Run(events).delivered || n in Run(events).dropped
  {
    hide Run;
    DisciplinedIff(events);
    RunKeepsInv(events);
    assert events[..|events|] == events && Disciplined(Run(events));
  }

  /** A failed rename of a damaged file is enough for a second result beside it. */
  lemma {:induction false} FailedRenameFillsBothSlots()
    ensures var stays := Fate(false, Unreached, false, false, false);
            var poll := Poll(stays, stays, Claimed("t", 1), Unreached, Unreached, Unreached, true);
            var s := Run([poll, Corrupt(0), poll]);
            s.slots[0].Some? && s.slots[1].Some? && s.finished == 2 && s.delivered == {} && s.dropped == map[]
  {
    var stays := Fate(false, Unreached, false, false, false);
    var poll := Poll(stays, stays, Claimed("t", 1), Unreached, Unreached, Unreached, true);
    assert [poll, Corrupt(0), poll][..2] == [poll, Corrupt(0)] && [poll, Corrupt(0)][..1] == [poll] && [poll][..0] == [];
    assert Run([poll]) == State([Some(File(Task(0, "t", 1), true)), None], 1, {}, map[]);
    assert Run([poll, Corrupt(0)]) == State([Some(File(Task(0, "t", 1), false)), None], 1, {}, map[]);
    assert Run([poll, Corrupt(0), poll]) == Step(Run([poll, Corrupt(0)]), poll);
  }
}
