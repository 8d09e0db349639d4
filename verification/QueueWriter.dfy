/**
 The queue writer thread: it replays the loop's commands on its own deque, saves the deque
 when told that samples were accepted, when asked to flush, and at least every ten seconds
 while something is unsaved.
 */
module QueueWriter {
  import opened Ledger
  import opened QueueCommands
  import opened QueueFile
  import opened Telemetry
  import opened Wrappers

  const QUEUE_FLUSH_SEC := 10

  /**
   The thread's variables and what a crash could leave on disk. `consumed` records the commands
   received, and `marks` how many of them each surviving content reflects (-1 for a content that
   was there before the thread started); the code keeps no such record.
   */
  datatype Writer = Writer(
    samples: seq<SamplePoint>, dirty: bool, lastFlush: nat, survivors: Survivors,
    consumed: seq<QueueCommand>, marks: seq<int>)

  /** What `recv_timeout` returned; the clock and the results of saving are inputs. */
  datatype Wake =
    | Received(command: QueueCommand, now: nat, outcome: SaveOutcome)
    | TimedOut
    | Disconnected(outcome: SaveOutcome)

  /** One turn of the loop: what woke it, then the periodic save. */
  datatype Turn = Turn(wake: Wake, now: nat, outcome: SaveOutcome)

  function Begin(initial: seq<SamplePoint>, file: Option<File>, now: nat): Writer {
    Writer(initial, false, now, [file], [], [-1])
  }

  function Persist(w: Writer, now: nat, outcome: SaveOutcome): Writer {
    w.(dirty := outcome != Saved, lastFlush := now,
    survivors := AfterSave(w.survivors, w.samples, outcome),
    marks := match outcome
    case Unchanged => w.marks
    case Unsynced => w.marks + [|w.consumed|]
    case Saved => [|w.consumed|])
  }

  function Receive(w: Writer, command: QueueCommand, now: nat, outcome: SaveOutcome, capacity: nat): Writer {
    var taken := w.(samples := Apply(w.samples, command, capacity), consumed := w.consumed + [command]);
    match command
    case Append(_) => taken.(dirty := true)
    case AcknowledgeCount(_) => Persist(taken, now, outcome)
    case Flush => Persist(taken, now, outcome)
  }

  function Periodic(w: Writer, now: nat, outcome: SaveOutcome): Writer {
    if w.dirty && now >= w.lastFlush + QUEUE_FLUSH_SEC then Persist(w, now, outcome) else w
  }

  function TurnStep(w: Writer, turn: Turn, capacity: nat): Writer {
    match turn.wake
    case Received(command, now, outcome) =>
      Periodic(Receive(w, command, now, outcome, capacity), turn.now, turn.outcome)
    case TimedOut => Periodic(w, turn.now, turn.outcome)
    case Disconnected(outcome) => if w.dirty then Persist(w, w.lastFlush, outcome) else w
  }

  function RunTurns(w: Writer, turns: seq<Turn>, capacity: nat): Writer {
    if turns == [] then w
    else TurnStep(RunTurns(w, turns[..|turns| - 1], capacity), turns[|turns| - 1], capacity)
  }

  // ----- What every turn keeps -----

  /** A surviving content is the deque as it stood after some number of commands. */
  ghost predicate Reflects(w: Writer, i: nat, initial: seq<SamplePoint>, capacity: nat)
    requires i < |w.survivors| == |w.marks|
  {
    w.marks[i] >= 0 ==>
      && w.marks[i] <= |w.consumed|
      && w.survivors[i] == Some(Render(Replay(initial, w.consumed[..w.marks[i]], capacity)))
  }

  ghost predicate Inv(w: Writer, initial: seq<SamplePoint>, capacity: nat) {
    && w.samples == Replay(initial, w.consumed, capacity)
    && 0 < |w.survivors| == |w.marks|
    && (forall i :: 0 <= i < |w.marks| ==> w.marks[0] <= w.marks[i])
    && (forall i :: 0 <= i < |w.marks| ==> Reflects(w, i, initial, capacity))
    && (!w.dirty && w.consumed != [] ==> w.survivors[|w.survivors| - 1] == Some(Render(w.samples)))
  }

  lemma PersistKeepsInv(w: Writer, now: nat, outcome: SaveOutcome, initial: seq<SamplePoint>, capacity: nat)
    requires Inv(w.(dirty := true), initial, capacity)
    ensures Inv(Persist(w, now, outcome), initial, capacity)
  {
    var after := Persist(w, now, outcome);
    assert w.consumed[..|w.consumed|] == w.consumed;
    assert forall i :: 0 <= i < |w.marks| ==> Reflects(w.(dirty := true), i, initial, capacity);
    assert w.marks[0] <= |w.consumed| by {
      if w.marks[0] >= 0 { assert Reflects(w.(dirty := true), 0, initial, capacity); }
    }
    forall i | 0 <= i < |after.marks|
      ensures Reflects(after, i, initial, capacity)
    {
      if outcome != Saved && i < |w.marks| {
        assert Reflects(w.(dirty := true), i, initial, capacity);
      }
    }
  }

  lemma ConsumeKeepsInv(w: Writer, command: QueueCommand, initial: seq<SamplePoint>, capacity: nat)
    requires Inv(w, initial, capacity)
    ensures Inv(w.(samples := Apply(w.samples, command, capacity), consumed := w.consumed + [command], dirty := true),
                initial, capacity)
  {
    var after := w.(samples := Apply(w.samples, command, capacity), consumed := w.consumed + [command], dirty := true);
    ReplaySnoc(initial, w.consumed, command, capacity);
    forall i | 0 <= i < |after.marks|
      ensures Reflects(after, i, initial, capacity)
    {
      assert Reflects(w, i, initial, capacity);
      if w.marks[i] >= 0 {
        assert after.consumed[..w.marks[i]] == w.consumed[..w.marks[i]];
      }
    }
  }

  lemma TurnKeepsInv(w: Writer, turn: Turn, initial: seq<SamplePoint>, capacity: nat)
    requires Inv(w, initial, capacity)
    ensures Inv(TurnStep(w, turn, capacity), initial, capacity)
  {
    match turn.wake
    case Received(command, now, outcome) =>
      ConsumeKeepsInv(w, command, initial, capacity);
      var taken := w.(samples := Apply(w.samples, command, capacity), consumed := w.consumed + [command]);
      if !command.Append? { PersistKeepsInv(taken, now, outcome, initial, capacity); }
      PeriodicKeepsInv(Receive(w, command, now, outcome, capacity), turn, initial, capacity);
    case TimedOut => PeriodicKeepsInv(w, turn, initial, capacity);
    case Disconnected(outcome) =>
      if w.dirty {
        WeakenDirty(w, initial, capacity);
        PersistKeepsInv(w, w.lastFlush, outcome, initial, capacity);
      }
  }

  lemma WeakenDirty(w: Writer, initial: seq<SamplePoint>, capacity: nat)
    requires Inv(w, initial, capacity) && w.dirty
    ensures Inv(w.(dirty := true), initial, capacity)
  {
    assert w.(dirty := true) == w;
  }

  lemma PeriodicKeepsInv(w: Writer, turn: Turn, initial: seq<SamplePoint>, capacity: nat)
    requires Inv(w, initial, capacity)
    ensures Inv(Periodic(w, turn.now, turn.outcome), initial, capacity)
  {
    if w.dirty && turn.now >= w.lastFlush + QUEUE_FLUSH_SEC {
      WeakenDirty(w, initial, capacity);
      PersistKeepsInv(w, turn.now, turn.outcome, initial, capacity);
    }
  }

  lemma {:induction false} RunKeepsInv(
      initial: seq<SamplePoint>, file: Option<File>, now: nat, turns: seq<Turn>, capacity: nat)
    ensures Inv(RunTurns(Begin(initial, file, now), turns, capacity), initial, capacity)
  {
    if turns == [] {
    } else {
      RunKeepsInv(initial, file, now, turns[..|turns| - 1], capacity);
      TurnKeepsInv(RunTurns(Begin(initial, file, now), turns[..|turns| - 1], capacity), turns[|turns| - 1],
                   initial, capacity);
    }
  }

  lemma {:induction false} UntouchedBeforeCommands(
      initial: seq<SamplePoint>, file: Option<File>, now: nat, turns: seq<Turn>, capacity: nat)
    ensures var w := RunTurns(Begin(initial, file, now), turns, capacity);
            w.consumed == [] ==> !w.dirty && w.samples == initial && w.survivors == [file]
  {
    if turns == [] {
    } else {
      UntouchedBeforeCommands(initial, file, now, turns[..|turns| - 1], capacity);
    }
  }

  /**
   When nothing is dirty the file holds the deque exactly if a command ever came, or the file held
   the initial deque to begin with.
   */
  lemma {:induction false} CleanMeansSaved(
      initial: seq<SamplePoint>, file: Option<File>, now: nat, turns: seq<Turn>, capacity: nat)
    ensures var w := RunTurns(Begin(initial, file, now), turns, capacity);
            0 < |w.survivors| &&
            (!w.dirty ==>
               (w.survivors[|w.survivors| - 1] == Some(Render(w.samples)) <==>
                w.consumed != [] || file == Some(Render(initial))))
  {
    hide RunTurns;
    RunKeepsInv(initial, file, now, turns, capacity);
    UntouchedBeforeCommands(initial, file, now, turns, capacity);
  }

  /** At the very start the flag is down whatever the file holds: an unread file stays as it is. */
  lemma CleanAtStartProvesNothing()
    ensures var w := Begin([], Some([]), 0); !w.dirty && w.survivors[0] != Some(Render(w.samples))
  {
  }

  // ----- What is saved, and when -----

  /** How many commands there are up to the last that asks for a save. */
  function UpToSave(commands: seq<QueueCommand>): (n: nat)
    ensures n <= |commands|
  {
    if commands == [] then 0
    else if commands[|commands| - 1].Append? then UpToSave(commands[..|commands| - 1])
    else |commands|
  }

  /** Every save of the turn succeeds. */
  predicate SavesWork(turn: Turn) {
    && turn.outcome == Saved
    && match turn.wake
       case Received(_, _, outcome) => outcome == Saved
       case TimedOut => true
       case Disconnected(outcome) => outcome == Saved
  }

  /** One content can be found, and it is no older than the last command that asked for a save. */
  predicate UpToDate(w: Writer) {
    |w.marks| == |w.survivors| == 1 && w.marks[0] <= |w.consumed|
    && (UpToSave(w.consumed) > 0 ==> UpToSave(w.consumed) <= w.marks[0])
  }

  lemma UpToSaveSnoc(commands: seq<QueueCommand>, command: QueueCommand)
    ensures UpToSave(commands + [command]) == if command.Append? then UpToSave(commands) else |commands| + 1
  {
    assert (commands + [command])[..|commands|] == commands;
  }

  lemma TurnSaves(w: Writer, turn: Turn, capacity: nat)
    requires UpToDate(w) && SavesWork(turn)
    ensures var after := TurnStep(w, turn, capacity);
            UpToDate(after) && (after.dirty ==> !turn.wake.Disconnected? && turn.now < after.lastFlush + 10)
  {
    hide Apply, Render;
    if turn.wake.Received? { UpToSaveSnoc(w.consumed, turn.wake.command); }
  }

  /**
   While saving works: whatever a crash leaves reflects every acknowledgement and every flush that
   was received, an append waits for no more than the flush interval after the save before it, and
   nothing is unsaved once the channel was closed.
   */
  lemma {:induction false} SavedInTime(
      initial: seq<SamplePoint>, file: Option<File>, now: nat, turns: seq<Turn>, capacity: nat)
    requires forall turn <- turns :: SavesWork(turn)
    ensures var w := RunTurns(Begin(initial, file, now), turns, capacity);
            && |w.survivors| == |w.marks| == 1 && w.marks[0] <= |w.consumed|
            && (UpToSave(w.consumed) > 0 || w.marks[0] >= 0 ==>
                  0 <= w.marks[0] && UpToSave(w.consumed) <= w.marks[0]
                  && w.survivors == [Some(Render(Replay(initial, w.consumed[..w.marks[0]], capacity)))])
            && (turns != [] && w.dirty ==>
                  !turns[|turns| - 1].wake.Disconnected? && turns[|turns| - 1].now < w.lastFlush + 10)
  {
    hide Render, RunTurns, TurnStep;
    StaysUpToDate(initial, file, now, turns, capacity);
    RunKeepsInv(initial, file, now, turns, capacity);
    var w := RunTurns(Begin(initial, file, now), turns, capacity);
    assert Reflects(w, 0, initial, capacity);
  }

  lemma {:induction false} StaysUpToDate(
      initial: seq<SamplePoint>, file: Option<File>, now: nat, turns: seq<Turn>, capacity: nat)
    requires forall turn <- turns :: SavesWork(turn)
    ensures var w := RunTurns(Begin(initial, file, now), turns, capacity);
            && UpToDate(w)
            && (turns != [] && w.dirty ==>
                  !turns[|turns| - 1].wake.Disconnected? && turns[|turns| - 1].now < w.lastFlush + 10)
  {
    if turns == [] {
    } else {
      hide SavesWork, TurnStep, UpToDate;
      var init, last := turns[..|turns| - 1], turns[|turns| - 1];
      assert last in turns && forall turn <- init :: turn in turns;
      StaysUpToDate(initial, file, now, init, capacity);
      TurnSaves(RunTurns(Begin(initial, file, now), init, capacity), last, capacity);
    }
  }

  /** After a save that failed, too, the next that is due and works saves the deque as it is. */
  lemma DueSaveSaves(w: Writer, now: nat, capacity: nat)
    requires w.dirty && now >= w.lastFlush + 10
    ensures var after := TurnStep(w, Turn(TimedOut, now, Saved), capacity);
            !after.dirty && after.survivors == [Some(Render(w.samples))] && after.samples == w.samples
  {
  }

  // ----- A queue too large to load -----

  /** Turns that receive the samples one by one, with nothing saved in between. */
  function AppendAllTurns(samples: seq<SamplePoint>): seq<Turn> {
    seq(|samples|, i requires 0 <= i < |samples| => Turn(Received(Append(samples[i]), 0, Unchanged), 0, Unchanged))
  }

  lemma {:induction false} AppendsFill(samples: seq<SamplePoint>, file: Option<File>, capacity: nat)
    requires |samples| <= capacity
    ensures var w := RunTurns(Begin([], file, 0), AppendAllTurns(samples), capacity);
            w.samples == samples && w.lastFlush == 0
  {
    if samples == [] {
    } else {
      var init := samples[..|samples| - 1];
      AppendsFill(init, file, capacity);
      assert AppendAllTurns(samples)[..|samples| - 1] == AppendAllTurns(init);
      assert samples == init + [samples[|samples| - 1]];
    }
  }

  /**
   The writer saves what a start then refuses to load: with a capacity of 370768 samples or more,
   and the configuration allows 604800, a full queue that was saved is lost on reload.
   */
  lemma FullQueueIsLost(samples: seq<SamplePoint>, file: Option<File>, capacity: nat, c: Codec)
    requires Json(c) && |samples| == capacity >= 370_768
    ensures var turns := AppendAllTurns(samples) + [Turn(Received(Flush, 0, Saved), 0, Unchanged)];
            var w := RunTurns(Begin([], file, 0), turns, capacity);
            !w.dirty && w.samples == samples && w.survivors == [Some(Render(samples))]
            && Load(w.survivors[0], c) == Err
  {
    var appends := AppendAllTurns(samples);
    var turns := appends + [Turn(Received(Flush, 0, Saved), 0, Unchanged)];
    AppendsFill(samples, file, capacity);
    assert turns[..|turns| - 1] == appends;
    ManySamplesAreOversized(samples, c);
  }

  /** The thread as it runs: the deque, the flag and the flush time are updated in place. */
  class WriterThread {
    const capacity: nat
    const store: QueueStore
    var samples: seq<SamplePoint>
    var dirty: bool
    var lastFlush: nat
    ghost var log: Writer

    ghost predicate Valid()
      reads this, store
    {
      && samples == log.samples && dirty == log.dirty && lastFlush == log.lastFlush
      && store.Possible() == log.survivors
    }

    constructor (store: QueueStore, initial: seq<SamplePoint>, capacity: nat, now: nat)
      requires |store.Possible()| == 1
      ensures Valid() && this.store == store && this.capacity == capacity
      ensures log == Begin(initial, store.target, now)
    {
      this.store, this.capacity := store, capacity;
      samples, dirty, lastFlush := initial, false, now;
      log := Begin(initial, store.target, now);
    }

    method SaveNow(now: nat, fails: nat -> bool) returns (outcome: SaveOutcome)
      requires Valid()
      modifies this, store
      ensures Valid() && log == Persist(old(log), now, outcome)
      ensures outcome == Saved ==> !dirty && store.target == Some(Render(samples))
    {
      outcome := store.Save(samples, fails);
      dirty := outcome != Saved;
      lastFlush := now;
      log := Persist(log, now, outcome);
    }

    method Handle(command: QueueCommand, now: nat, fails: nat -> bool) returns (outcome: SaveOutcome)
      requires Valid()
      modifies this, store
      ensures Valid() && log == Receive(old(log), command, now, outcome, capacity)
    {
      outcome := Unchanged;
      log := log.(samples := Apply(log.samples, command, capacity), consumed := log.consumed + [command]);
      match command {
        case Append(sample) =>
          samples := samples + [sample];
          if |samples| > capacity {
            samples := samples[1..];
          }
          dirty := true;
          log := log.(dirty := true);
        case AcknowledgeCount(count) =>
          samples := DropPrefix(samples, count);
          outcome := SaveNow(now, fails);
        case Flush =>
          outcome := SaveNow(now, fails);
      }
    }

    method PeriodicSave(now: nat, fails: nat -> bool) returns (outcome: SaveOutcome)
      requires Valid()
      modifies this, store
      ensures Valid() && log == Periodic(old(log), now, outcome)
    {
      outcome := Unchanged;
      if dirty && now >= lastFlush + QUEUE_FLUSH_SEC {
        outcome := SaveNow(now, fails);
      }
    }

    /** The channel is closed: one last save, if anything is unsaved. */
    method Close(fails: nat -> bool) returns (outcome: SaveOutcome)
      requires Valid()
      modifies this, store
      ensures Valid()
      ensures log == TurnStep(old(log), Turn(Disconnected(outcome), old(lastFlush), outcome), capacity)
    {
      outcome := Unchanged;
      if dirty {
        outcome := SaveNow(lastFlush, fails);
      }
    }
  }
}
