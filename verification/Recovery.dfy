/**
 The sampling loop and the queue writer together, joined by their command channel, and what a
 restart finds after a crash at any moment.
 */
module Recovery {
  import opened Ledger
  import opened QueueCommands
  import opened QueueFile
  import opened Telemetry
  import Loop = TelemetryLoop
  import Writing = QueueWriter
  import opened Wrappers

  datatype System = System(main: Loop.State, writer: Writing.Writer)

  /** Either thread moves. The writer takes the oldest command it has not received. */
  datatype Move =
    | MainMoves(event: Loop.Event)
    | WriterReceives(now: nat, outcome: SaveOutcome, later: nat, laterOutcome: SaveOutcome)
    | WriterTimesOut(now: nat, outcome: SaveOutcome)

  /** What a start takes from the file: nothing when it cannot be loaded. */
  function Loaded(file: Option<File>, c: Codec): seq<SamplePoint> {
    match Load(file, c)
    case Ok(samples) => samples
    case Err => []
  }

  /** How a process starts. `parked` says whether a file too large to load could be renamed away. */
  datatype Launch = Launch(c: Codec, parked: bool, now: nat, capacity: nat, reportIntervalSec: nat)

  function FileAtStart(file: Option<File>, l: Launch): Option<File> {
    if file.Some? && Oversized(file.value, l.c) && l.parked then None else file
  }

  function Boot(file: Option<File>, l: Launch): System {
    System(Loop.Init(Loaded(file, l.c), l.capacity, l.reportIntervalSec),
           Writing.Begin(Initial(file, l), FileAtStart(file, l), l.now))
  }

  /** The queue both threads start with. */
  function Initial(file: Option<File>, l: Launch): seq<SamplePoint> {
    Loop.Newest(Loaded(file, l.c), l.capacity)
  }

  /** Commands sent and not yet received. */
  function Channel(s: System): seq<QueueCommand> {
    if |s.writer.consumed| <= |s.main.commands| then s.main.commands[|s.writer.consumed|..] else []
  }

  function SystemStep(s: System, move: Move, capacity: nat): System {
    match move
    case MainMoves(event) => s.(main := Loop.Step(s.main, event, capacity))
    case WriterReceives(now, outcome, later, laterOutcome) =>
      if Channel(s) == [] then s
      else
        var turn := Writing.Turn(Writing.Received(Channel(s)[0], now, outcome), later, laterOutcome);
        s.(writer := Writing.TurnStep(s.writer, turn, capacity))
    case WriterTimesOut(now, outcome) =>
      s.(writer := Writing.TurnStep(s.writer, Writing.Turn(Writing.TimedOut, now, outcome), capacity))
  }

  function RunSystem(s: System, moves: seq<Move>, capacity: nat): System {
    if moves == [] then s
    else SystemStep(RunSystem(s, moves[..|moves| - 1], capacity), moves[|moves| - 1], capacity)
  }

  ghost predicate SystemInv(s: System, initial: seq<SamplePoint>, capacity: nat) {
    && Loop.Inv(s.main, capacity)
    && Loop.Mirrored(s.main, initial, capacity)
    && Writing.Inv(s.writer, initial, capacity)
    && s.writer.consumed <= s.main.commands
  }

  lemma CommandsOnlyGrow(s: Loop.State, event: Loop.Event, capacity: nat)
    ensures s.commands <= Loop.Step(s, event, capacity).commands
  {
  }

  lemma {:induction false} StepKeepsSystemInv(s: System, move: Move, initial: seq<SamplePoint>, capacity: nat)
    requires SystemInv(s, initial, capacity)
    ensures SystemInv(SystemStep(s, move, capacity), initial, capacity)
  {
    match move
    case MainMoves(event) =>
      Loop.StepKeepsInv(s.main, event, capacity);
      Loop.StepKeepsMirror(s.main, initial, event, capacity);
      CommandsOnlyGrow(s.main, event, capacity);
    case WriterReceives(now, outcome, later, laterOutcome) =>
      if Channel(s) != [] {
        var turn := Writing.Turn(Writing.Received(Channel(s)[0], now, outcome), later, laterOutcome);
        Writing.TurnKeepsInv(s.writer, turn, initial, capacity);
        assert Writing.TurnStep(s.writer, turn, capacity).consumed == s.writer.consumed + [Channel(s)[0]];
      }
    case WriterTimesOut(now, outcome) =>
      Writing.TurnKeepsInv(s.writer, Writing.Turn(Writing.TimedOut, now, outcome), initial, capacity);
  }

  lemma BootInv(file: Option<File>, l: Launch)
    ensures SystemInv(Boot(file, l), Initial(file, l), l.capacity)
  {
    hide FileAtStart, Loaded, Loop.Init, Loop.Inv, Loop.Mirrored, Loop.Newest, Writing.Inv;
    var loaded := Loaded(file, l.c);
    Loop.RunKeepsInv(loaded, [], l.capacity, l.reportIntervalSec);
    Loop.CommandsMirrorLoop(loaded, [], l.capacity, l.reportIntervalSec);
    Writing.RunKeepsInv(Initial(file, l), FileAtStart(file, l), l.now, [], l.capacity);
  }

  lemma {:induction false} RunKeepsSystemInv(file: Option<File>, l: Launch, moves: seq<Move>)
    ensures SystemInv(RunSystem(Boot(file, l), moves, l.capacity), Initial(file, l), l.capacity)
  {
    hide Boot, Initial, SystemInv, SystemStep;
    if moves == [] {
      BootInv(file, l);
    } else {
      var init := moves[..|moves| - 1];
      RunKeepsSystemInv(file, l, init);
      StepKeepsSystemInv(RunSystem(Boot(file, l), init, l.capacity), moves[|moves| - 1], Initial(file, l), l.capacity);
    }
  }

  /**
   Mirror: in every reachable state the commands still in the channel, replayed over the
   writer's deque, give exactly the loop's deque.
   */
  lemma {:induction false} ChannelMirrors(file: Option<File>, l: Launch, moves: seq<Move>)
    ensures var s := RunSystem(Boot(file, l), moves, l.capacity);
            Replay(s.writer.samples, Channel(s), l.capacity) == s.main.samples.items
  {
    RunKeepsSystemInv(file, l, moves);
    ChannelReplays(RunSystem(Boot(file, l), moves, l.capacity), Initial(file, l), l.capacity);
  }

  lemma ChannelReplays(s: System, initial: seq<SamplePoint>, capacity: nat)
    requires SystemInv(s, initial, capacity)
    ensures Replay(s.writer.samples, Channel(s), capacity) == s.main.samples.items
  {
    ReplayConcat(initial, s.writer.consumed, Channel(s), capacity);
    assert s.writer.consumed + Channel(s) == s.main.commands;
  }

  /** Some save of this process has succeeded. */
  predicate EverSaved(w: Writing.Writer) {
    |w.marks| > 0 && w.marks[0] >= 0
  }

  /**
   The content is the loop's queue after some number of commands no smaller than at the last
   successful save: one stretch of the history, starting behind everything whose acknowledgement
   that save covered, and with nothing unacknowledged and unevicted missing from it. A reload gives
   that stretch, without samples that have no positive timestamp, unless the file is too large.
   */
  ghost predicate Recovers(content: Option<File>, w: Writing.Writer, initial: seq<SamplePoint>, capacity: nat, c: Codec)
    requires EverSaved(w)
  {
    exists k :: IsCut(k, content, w, initial, capacity, c)
  }

  ghost predicate IsCut(
      k: nat, content: Option<File>, w: Writing.Writer, initial: seq<SamplePoint>, capacity: nat, c: Codec)
    requires EverSaved(w)
  {
    && w.marks[0] <= k <= |w.consumed|
    && var cut := w.consumed[..k];
    && Removed(initial, cut, capacity) <= |Appended(initial, cut)|
    && Appended(initial, cut) <= Appended(initial, w.consumed)
    && Acknowledged(initial, w.consumed[..w.marks[0]], capacity) <= Acknowledged(initial, cut, capacity)
    && var stretch := Appended(initial, cut)[Removed(initial, cut, capacity)..];
    && content == Some(Render(stretch))
    && Load(content, c) == if Oversized(Render(stretch), c) then Err else Ok(Loadable(stretch))
  }

  /** Crash recovery: whatever a crash leaves after the first successful save, a reload recovers. */
  lemma {:induction false} CrashRecovers(file: Option<File>, l: Launch, moves: seq<Move>, i: nat)
    requires Json(l.c)
    requires var w := RunSystem(Boot(file, l), moves, l.capacity).writer;
             EverSaved(w) && i < |w.survivors|
    ensures var w := RunSystem(Boot(file, l), moves, l.capacity).writer;
            Recovers(w.survivors[i], w, Initial(file, l), l.capacity, l.c)
    ensures var s := RunSystem(Boot(file, l), moves, l.capacity);
            Appended(Initial(file, l), s.writer.consumed) <= s.main.samples.history
  {
    hide Boot, Initial, Loop.Inv, Loop.Mirrored, Recovers, RunSystem, SystemStep, Writing.Inv;
    RunKeepsSystemInv(file, l, moves);
    var s := RunSystem(Boot(file, l), moves, l.capacity);
    SurvivorRecovers(s.writer, Initial(file, l), l.capacity, l.c, i);
    ConsumedIsHistory(s, Initial(file, l), l.capacity);
  }

  /** What the writer has received is the beginning of the loop's history. */
  lemma ConsumedIsHistory(s: System, initial: seq<SamplePoint>, capacity: nat)
    requires SystemInv(s, initial, capacity)
    ensures Appended(initial, s.writer.consumed) <= s.main.samples.history
  {
    ReplayAdvances(initial, s.main.commands, |s.writer.consumed|, capacity);
    assert s.main.commands[..|s.writer.consumed|] == s.writer.consumed;
  }

  lemma SurvivorRecovers(w: Writing.Writer, initial: seq<SamplePoint>, capacity: nat, c: Codec, i: nat)
    requires Json(c) && Writing.Inv(w, initial, capacity) && EverSaved(w) && i < |w.survivors|
    ensures Recovers(w.survivors[i], w, initial, capacity, c)
  {
    hide Acknowledged, Appended, Json, Load, Loadable, Oversized, Removed, Render, Replay;
    var k := w.marks[i];
    assert Writing.Reflects(w, i, initial, capacity);
    var cut := w.consumed[..k];
    ReplayIsStretch(initial, cut, capacity);
    LoadAfterSave(Replay(initial, cut, capacity), c);
    ReplayAdvances(initial, w.consumed, k, capacity);
    ReplayAdvances(initial, cut, w.marks[0], capacity);
    assert cut[..w.marks[0]] == w.consumed[..w.marks[0]];
    assert IsCut(k, w.survivors[i], w, initial, capacity, c);
  }

  /**
   Before the first successful save the file is still the one from before this process: a sample
   loaded from it, reported and accepted comes back after a crash.
   */
  lemma FirstSaveMatters(l: Launch, sample: SamplePoint)
    requires Json(l.c) && l.capacity > 0 && sample.ts > 0 && |FileText(Render([sample]), l.c)| <= MAX_QUEUE_LOAD_BYTES
    ensures var file := Some(Render([sample]));
            var moves := [MainMoves(Loop.MaybeReport(0)), MainMoves(Loop.ThreadAnswers(1, true, None)),
                          MainMoves(Loop.ReceiveReply), WriterReceives(0, Unchanged, 0, Unchanged)];
            var s := RunSystem(Boot(file, l), moves, l.capacity);
            && s.main.samples.items == [] && s.main.samples.accepted == [Span(0, 1)]
            && !EverSaved(s.writer) && s.writer.survivors == [file] && Loaded(file, l.c) == [sample]
  {
    var file := Some(Render([sample]));
    LoadAfterSave([sample], l.c);
    assert AllPositive([sample]);
    var a, b := MainMoves(Loop.MaybeReport(0)), MainMoves(Loop.ThreadAnswers(1, true, None));
    var c, d := MainMoves(Loop.ReceiveReply), WriterReceives(0, Unchanged, 0, Unchanged);
    var boot := Boot(file, l);
    assert boot.main.samples == Start([sample]) && boot.writer.survivors == [file];
    hide Json, Load, Oversized;
    ReportedAndAccepted(boot.main, l.capacity);
    assert [a, b, c, d][..3] == [a, b, c] && [a, b, c][..2] == [a, b] && [a, b][..1] == [a] && [a][..0] == [];
    assert RunSystem(boot, [a], l.capacity) == SystemStep(boot, a, l.capacity);
    assert RunSystem(boot, [a, b], l.capacity) == SystemStep(RunSystem(boot, [a], l.capacity), b, l.capacity);
    assert RunSystem(boot, [a, b, c], l.capacity) == SystemStep(RunSystem(boot, [a, b], l.capacity), c, l.capacity);
  }

  lemma ReportedAndAccepted(s: Loop.State, capacity: nat)
    requires |s.samples.items| == 1 && s.samples.head == 0 && s.samples.accepted == []
    requires s.firstReport && !s.lastUploadFailed && !s.uploading && s.generation == 0 && s.started == []
    requires s.replies == [] && s.flying == map[] && s.commands == []
    ensures var after := Loop.Step(Loop.Step(Loop.Step(s, Loop.MaybeReport(0), capacity),
                                             Loop.ThreadAnswers(1, true, None), capacity), Loop.ReceiveReply, capacity);
            && after.samples.items == [] && after.samples.accepted == [Span(0, 1)]
            && after.commands == [AcknowledgeCount(1)]
  {
    var reported := Loop.Step(s, Loop.MaybeReport(0), capacity);
    assert reported.flying[1].sampleCount == 1 && reported.generation == 1;
    var answered := Loop.Step(reported, Loop.ThreadAnswers(1, true, None), capacity);
    assert answered.replies[0].batch.sampleCount == 1 && answered.replies[0].ok;
  }

  // ----- Several restarts -----

  /** A process from its start to its crash: what it does, and which of the possible contents survives. */
  datatype Life = Life(launch: Launch, moves: seq<Move>, survivor: nat)

  function FileAfter(file: Option<File>, life: Life): Option<File> {
    var survivors := RunSystem(Boot(file, life.launch), life.moves, life.launch.capacity).writer.survivors;
    if survivors == [] then None else survivors[if life.survivor < |survivors| then life.survivor else |survivors| - 1]
  }

  function FileAfterAll(file: Option<File>, lives: seq<Life>): Option<File> {
    if lives == [] then file else FileAfter(FileAfterAll(file, lives[..|lives| - 1]), lives[|lives| - 1])
  }

  /** The samples a process takes. */
  function Taken(moves: seq<Move>): seq<SamplePoint> {
    if moves == [] then []
    else
      Taken(moves[..|moves| - 1])
      + match moves[|moves| - 1]
        case MainMoves(event) => (if event.TakeSample? then [event.sample] else [])
        case WriterReceives(_, _, _, _) => []
        case WriterTimesOut(_, _) => []
  }

  function TakenByAll(lives: seq<Life>): seq<SamplePoint> {
    if lives == [] then [] else TakenByAll(lives[..|lives| - 1]) + Taken(lives[|lives| - 1].moves)
  }

  lemma {:induction false} HistoryIsTaken(file: Option<File>, l: Launch, moves: seq<Move>)
    ensures RunSystem(Boot(file, l), moves, l.capacity).main.samples.history == Initial(file, l) + Taken(moves)
  {
    if moves == [] {
      assert Initial(file, l) + [] == Initial(file, l);
    } else {
      HistoryIsTaken(file, l, moves[..|moves| - 1]);
      StepTakes(RunSystem(Boot(file, l), moves[..|moves| - 1], l.capacity), moves[|moves| - 1], l.capacity);
    }
  }

  lemma StepTakes(s: System, move: Move, capacity: nat)
    ensures SystemStep(s, move, capacity).main.samples.history
         == s.main.samples.history + if move.MainMoves? && move.event.TakeSample? then [move.event.sample] else []
  {
  }

  /** A surviving content with no mark is the one the process started with. */
  lemma {:induction false} UnmarkedIsOld(file: Option<File>, l: Launch, moves: seq<Move>)
    ensures var w := RunSystem(Boot(file, l), moves, l.capacity).writer;
            && |w.survivors| == |w.marks| > 0
            && forall i :: 0 <= i < |w.marks| ==> w.marks[i] >= 0 || w.survivors[i] == FileAtStart(file, l)
  {
    if moves == [] {
    } else {
      UnmarkedIsOld(file, l, moves[..|moves| - 1]);
      StepKeepsOld(RunSystem(Boot(file, l), moves[..|moves| - 1], l.capacity), moves[|moves| - 1], l.capacity, FileAtStart(file, l));
    }
  }

  lemma StepKeepsOld(s: System, move: Move, capacity: nat, first: Option<File>)
    requires |s.writer.survivors| == |s.writer.marks| > 0
    requires forall i :: 0 <= i < |s.writer.marks| ==> s.writer.marks[i] >= 0 || s.writer.survivors[i] == first
    ensures var w := SystemStep(s, move, capacity).writer;
            && |w.survivors| == |w.marks| > 0
            && forall i :: 0 <= i < |w.marks| ==> w.marks[i] >= 0 || w.survivors[i] == first
  {
    hide Apply, Channel, Render, Loop.Step;
  }

  /** The writer's commands up to the save that survived; all the rest of what they did is undone. */
  function CutOf(file: Option<File>, life: Life): Option<seq<QueueCommand>> {
    var w := RunSystem(Boot(file, life.launch), life.moves, life.launch.capacity).writer;
    var i := if life.survivor < |w.survivors| then life.survivor else |w.survivors| - 1;
    if 0 <= i < |w.marks| && 0 <= w.marks[i] <= |w.consumed| then Some(w.consumed[..w.marks[i]]) else None
  }

  /** What the life took up to that save. */
  function TakenBySave(file: Option<File>, life: Life): seq<SamplePoint> {
    match CutOf(file, life)
    case None => []
    case Some(cut) =>
      var initial := Initial(file, life.launch);
      Appended(initial, cut)[Min(|initial|, |Appended(initial, cut)|)..]
  }

  /** How many of the samples it knew the life had removed by then: trimmed at its start, acknowledged, or evicted. */
  function RemovedBySave(file: Option<File>, life: Life): nat {
    var l := life.launch;
    match CutOf(file, life)
    case None => 0
    case Some(cut) =>
      Max(|Loaded(file, l.c)|, l.capacity) - l.capacity + Removed(Initial(file, l), cut, l.capacity)
  }

  predicate Refused(file: Option<File>, c: Codec) { file.Some? && Oversized(file.value, c) }

  /** What the life adds to what can be loaded, and how many it drops of the oldest: all, if the file has become too large. */
  function Added(file: Option<File>, life: Life): seq<SamplePoint> { Loadable(TakenBySave(file, life)) }

  function Dropped(file: Option<File>, life: Life): nat {
    var known := Loaded(file, life.launch.c) + TakenBySave(file, life);
    if Refused(FileAfter(file, life), life.launch.c) then |Loaded(file, life.launch.c)| + |Added(file, life)|
    else |Loadable(known[..Min(RemovedBySave(file, life), |known|)])|
  }

  function AddedByAll(file: Option<File>, lives: seq<Life>): seq<SamplePoint> {
    if lives == [] then []
    else
      var init, last := lives[..|lives| - 1], lives[|lives| - 1];
      AddedByAll(file, init) + Added(FileAfterAll(file, init), last)
  }

  function DroppedByAll(file: Option<File>, lives: seq<Life>): nat {
    if lives == [] then 0
    else
      var init, last := lives[..|lives| - 1], lives[|lives| - 1];
      DroppedByAll(file, init) + Dropped(FileAfterAll(file, init), last)
  }

  lemma {:induction false} LoadableConcat(a: seq<SamplePoint>, b: seq<SamplePoint>)
    ensures Loadable(a + b) == Loadable(a) + Loadable(b)
  {
    if b == [] {
      assert a + b == a;
    } else {
      var all, init := a + b, b[..|b| - 1];
      assert all[|all| - 1] == b[|b| - 1] && all[..|all| - 1] == a + init;
      LoadableConcat(a, init);
    }
  }

  lemma {:induction false} LoadableTwice(samples: seq<SamplePoint>)
    ensures Loadable(Loadable(samples)) == Loadable(samples)
  {
    if samples == [] {
    } else {
      var init, last := samples[..|samples| - 1], samples[|samples| - 1];
      LoadableTwice(init);
      LoadableConcat(Loadable(init), [last]);
      assert [last][..0] == [];
    }
  }

  lemma LoadedTwice(file: Option<File>, c: Codec)
    ensures Loadable(Loaded(file, c)) == Loaded(file, c)
  {
    if file.Some? && !Oversized(file.value, c) && Parse(FileText(file.value, c), c).Ok? {
      LoadableTwice(Parse(FileText(file.value, c), c).value);
    }
  }

  /** Dropping some of the oldest before loading is dropping those that would have loaded. */
  lemma LoadableSuffix(samples: seq<SamplePoint>, n: nat)
    requires n <= |samples|
    ensures |Loadable(samples[..n])| <= |Loadable(samples)|
    ensures Loadable(samples[n..]) == Loadable(samples)[|Loadable(samples[..n])|..]
  {
    LoadableConcat(samples[..n], samples[n..]);
    assert samples[..n] + samples[n..] == samples;
  }

  /** The content that survives a life, by its cut. */
  lemma SurvivorIsCut(file: Option<File>, life: Life)
    ensures var l := life.launch;
            match CutOf(file, life)
            case None => FileAfter(file, life) == FileAtStart(file, l)
            case Some(cut) =>
              && FileAfter(file, life) == Some(Render(Replay(Initial(file, l), cut, l.capacity)))
              && Appended(Initial(file, l), cut) <= Initial(file, l) + Taken(life.moves)
              && Initial(file, l) <= Appended(Initial(file, l), cut)
  {
    hide Appended, Boot, Initial, Loop.Inv, Loop.Mirrored, Render, Replay, RunSystem, Taken;
    var l := life.launch;
    var initial, s := Initial(file, l), RunSystem(Boot(file, l), life.moves, l.capacity);
    var w := s.writer;
    RunKeepsSystemInv(file, l, life.moves);
    UnmarkedIsOld(file, l, life.moves);
    var i := if life.survivor < |w.survivors| then life.survivor else |w.survivors| - 1;
    assert Writing.Reflects(w, i, initial, l.capacity);
    if w.marks[i] >= 0 {
      HistoryIsTaken(file, l, life.moves);
      ConsumedIsHistory(s, initial, l.capacity);
      ReplayAdvances(initial, w.consumed, w.marks[i], l.capacity);
      StartsAppended(initial, w.consumed[..w.marks[i]]);
    }
  }

  lemma {:induction false} StartsAppended(items: seq<SamplePoint>, commands: seq<QueueCommand>)
    ensures items <= Appended(items, commands)
  {
    if commands == [] {
    } else {
      StartsAppended(items, commands[..|commands| - 1]);
    }
  }

  /** All that was known but the oldest, as many as were dropped. */
  predicate Recent(loaded: seq<SamplePoint>, known: seq<SamplePoint>, dropped: nat) {
    dropped <= |known| && loaded == known[dropped..]
  }

  /** What a life leaves to the next start: what it loaded and what it added, without the oldest it dropped. */
  lemma LifeLoses(file: Option<File>, life: Life, c: Codec)
    requires Json(c) && life.launch.c == c
    ensures Recent(Loaded(FileAfter(file, life), c), Loaded(file, c) + Added(file, life), Dropped(file, life))
    ensures TakenBySave(file, life) <= Taken(life.moves)
  {
    hide Added, Appended, Dropped, FileAfter, FileAtStart, Json, Load, Loaded, Removed, Render, Replay, Taken;
    SurvivorIsCut(file, life);
    match CutOf(file, life)
    case None => NothingSaved(file, life);
    case Some(cut) => SomethingSaved(file, life, cut);
  }

  lemma SomethingSaved(file: Option<File>, life: Life, cut: seq<QueueCommand>)
    requires Json(life.launch.c) && CutOf(file, life) == Some(cut)
    requires var l := life.launch;
             && FileAfter(file, life) == Some(Render(Replay(Initial(file, l), cut, l.capacity)))
             && Initial(file, l) <= Appended(Initial(file, l), cut)
    ensures var c := life.launch.c;
            var known := Loaded(file, c) + Added(file, life);
            && Dropped(file, life) <= |known| && Loaded(FileAfter(file, life), c) == known[Dropped(file, life)..]
  {
    hide Appended, CutOf, FileAfter, Json, Load, Loadable, Oversized, Parse, Removed, Render, Replay;
    var l := life.launch;
    var loaded, initial, taken := Loaded(file, l.c), Initial(file, l), TakenBySave(file, life);
    var stretch, removed := Replay(initial, cut, l.capacity), RemovedBySave(file, life);
    var known := loaded + taken;
    LoadedTwice(file, l.c);
    LoadableConcat(loaded, taken);
    assert Appended(initial, cut) == initial + taken;
    ReplayIsStretch(initial, cut, l.capacity);
    assert known == loaded[..|loaded| - |initial|] + (initial + taken);
    assert removed == |loaded| - |initial| + Removed(initial, cut, l.capacity) <= |known|;
    assert known[removed..] == stretch;
    LoadAfterSave(stretch, l.c);
    LoadableSuffix(known, removed);
  }

  lemma NothingSaved(file: Option<File>, life: Life)
    requires CutOf(file, life) == None && FileAfter(file, life) == FileAtStart(file, life.launch)
    ensures var c := life.launch.c;
            && Added(file, life) == [] && Dropped(file, life) <= |Loaded(file, c)|
            && Loaded(FileAfter(file, life), c) == Loaded(file, c)[Dropped(file, life)..]
  {
    hide FileAfter, CutOf;
    assert (Loaded(file, life.launch.c) + [])[..0] == [];
  }

  lemma DropTwice(first: seq<SamplePoint>, earlier: seq<SamplePoint>, later: seq<SamplePoint>, dropped: nat, more: nat)
    requires dropped <= |first + earlier| && more <= |(first + earlier)[dropped..] + later|
    ensures ((first + earlier)[dropped..] + later)[more..] == (first + (earlier + later))[dropped + more..]
  {
  }

  /**
   Over any number of restarts, whatever each crash left: what is loaded in the end is what was
   loaded at first and what each life had taken by the save that survived it, without as many of
   the oldest as the lives together dropped by those saves. Nothing is missing from the middle, and
   nothing dropped by a save that survived comes back.
   */
  lemma {:induction false} LivesLose(file: Option<File>, lives: seq<Life>, c: Codec)
    requires Json(c) && forall life <- lives :: life.launch.c == c
    ensures Recent(Loaded(FileAfterAll(file, lives), c), Loaded(file, c) + AddedByAll(file, lives), DroppedByAll(file, lives))
  {
    hide Added, Dropped, FileAfter, Json, Loaded;
    if lives == [] {
      var loaded := Loaded(file, c);
      assert loaded + [] == loaded;
    } else {
      var init, last := lives[..|lives| - 1], lives[|lives| - 1];
      assert last in lives && forall life <- init :: life in lives;
      LivesLose(file, init, c);
      var before := FileAfterAll(file, init);
      LifeLoses(before, last, c);
      DropTwice(Loaded(file, c), AddedByAll(file, init), Added(before, last), DroppedByAll(file, init), Dropped(before, last));
    }
  }

  // ----- So the order is kept -----

  /** `places` are the positions in `all`, strictly ascending, of the elements of `some`. */
  predicate Picks(places: seq<int>, some: seq<SamplePoint>, all: seq<SamplePoint>) {
    && |places| == |some|
    && (forall i :: 0 <= i < |places| ==> 0 <= places[i] < |all| && some[i] == all[places[i]])
    && (forall i, j :: 0 <= i < j < |places| ==> places[i] < places[j])
  }

  ghost predicate Within(some: seq<SamplePoint>, all: seq<SamplePoint>) {
    exists places :: Picks(places, some, all)
  }

  lemma WithinTransitive(a: seq<SamplePoint>, b: seq<SamplePoint>, c: seq<SamplePoint>)
    requires Within(a, b) && Within(b, c)
    ensures Within(a, c)
  {
    var p :| Picks(p, a, b);
    var q :| Picks(q, b, c);
    assert Picks(seq(|p|, i requires 0 <= i < |p| => q[p[i]]), a, c);
  }

  lemma SliceWithin(all: seq<SamplePoint>, from: nat, end: nat)
    requires from <= end <= |all|
    ensures Within(all[from..end], all)
  {
    assert Picks(seq(end - from, i => from + i), all[from..end], all);
  }

  lemma WithinGrows(a: seq<SamplePoint>, b: seq<SamplePoint>, more: seq<SamplePoint>)
    requires Within(a, b)
    ensures Within(a, b + more) && Within(a + more, b + more)
  {
    var p :| Picks(p, a, b);
    assert Picks(p, a, b + more);
    assert Picks(p + seq(|more|, i => |b| + i), a + more, b + more);
  }

  lemma {:induction false} LoadableWithin(samples: seq<SamplePoint>)
    ensures Within(Loadable(samples), samples)
  {
    if samples == [] {
      assert Picks([], [], samples);
    } else {
      var init, last := samples[..|samples| - 1], samples[|samples| - 1];
      LoadableWithin(init);
      WithinGrows(Loadable(init), init, [last]);
      assert samples == init + [last];
    }
  }

  lemma WithinPrepend(front: seq<SamplePoint>, a: seq<SamplePoint>, b: seq<SamplePoint>)
    requires Within(a, b)
    ensures Within(front + a, front + b)
  {
    var p :| Picks(p, a, b);
    assert Picks(seq(|front|, i => i) + seq(|p|, i requires 0 <= i < |p| => |front| + p[i]), front + a, front + b);
  }

  lemma AddedWithin(file: Option<File>, life: Life)
    requires Json(life.launch.c)
    ensures Within(Added(file, life), Taken(life.moves))
  {
    hide Json, Taken, Within;
    var taken := TakenBySave(file, life);
    LifeLoses(file, life, life.launch.c);
    LoadableWithin(taken);
    SliceWithin(Taken(life.moves), 0, |taken|);
    assert Taken(life.moves)[0..|taken|] == taken;
    WithinTransitive(Loadable(taken), taken, Taken(life.moves));
  }

  lemma {:induction false} AllAddedWithin(file: Option<File>, lives: seq<Life>, c: Codec)
    requires Json(c) && forall life <- lives :: life.launch.c == c
    ensures Within(AddedByAll(file, lives), TakenByAll(lives))
  {
    hide Added, Json, Taken, Within;
    if lives == [] {
      SliceWithin([], 0, 0);
    } else {
      var init, last := lives[..|lives| - 1], lives[|lives| - 1];
      var added := Added(FileAfterAll(file, init), last);
      assert last in lives && forall life <- init :: life in lives;
      AllAddedWithin(file, init, c);
      AddedWithin(FileAfterAll(file, init), last);
      WithinGrows(AddedByAll(file, init), TakenByAll(init), added);
      WithinPrepend(TakenByAll(init), added, Taken(last.moves));
      WithinTransitive(AddedByAll(file, init) + added, TakenByAll(init) + added, TakenByAll(init) + Taken(last.moves));
    }
  }

  /** What is loaded in the end was taken before, in the order it was taken, each sample at most once. */
  lemma {:induction false} LivesKeepOrder(file: Option<File>, lives: seq<Life>, c: Codec)
    requires Json(c) && forall life <- lives :: life.launch.c == c
    ensures Within(Loaded(FileAfterAll(file, lives), c), Loaded(file, c) + TakenByAll(lives))
  {
    hide AddedByAll, FileAfterAll, Json, Loaded, TakenByAll, Within;
    var known := Loaded(file, c) + AddedByAll(file, lives);
    LivesLose(file, lives, c);
    AllAddedWithin(file, lives, c);
    SliceWithin(known, DroppedByAll(file, lives), |known|);
    assert known[DroppedByAll(file, lives)..|known|] == known[DroppedByAll(file, lives)..];
    WithinPrepend(Loaded(file, c), AddedByAll(file, lives), TakenByAll(lives));
    WithinTransitive(Loaded(FileAfterAll(file, lives), c), known, Loaded(file, c) + TakenByAll(lives));
  }
}
