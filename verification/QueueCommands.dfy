/**
 The commands the telemetry loop sends to the queue writer, and what they do to a queue of
 samples. The writer replays them on its own copy.
 */
module QueueCommands {
  import opened Ledger
  import opened Telemetry
  import opened Wrappers

  datatype QueueCommand = Append(sample: SamplePoint) | AcknowledgeCount(count: nat) | Flush

  /** What the writer does to its deque on receiving one command. */
  function Apply(items: seq<SamplePoint>, command: QueueCommand, capacity: nat): seq<SamplePoint> {
    match command
    case Append(sample) =>
      var grown := items + [sample];
      if |grown| > capacity then grown[1..] else grown
    case AcknowledgeCount(count) => DropPrefix(items, count)
    case Flush => items
  }

  function Replay(items: seq<SamplePoint>, commands: seq<QueueCommand>, capacity: nat): seq<SamplePoint> {
    if commands == [] then items
    else Apply(Replay(items, commands[..|commands| - 1], capacity), commands[|commands| - 1], capacity)
  }

  lemma ReplaySnoc(items: seq<SamplePoint>, commands: seq<QueueCommand>, command: QueueCommand, capacity: nat)
    ensures Replay(items, commands + [command], capacity) == Apply(Replay(items, commands, capacity), command, capacity)
  {
    var all := commands + [command];
    assert all[|all| - 1] == command && all[..|all| - 1] == commands;
  }

  lemma {:induction false} ReplayConcat(
      items: seq<SamplePoint>, first: seq<QueueCommand>, second: seq<QueueCommand>, capacity: nat)
    ensures Replay(items, first + second, capacity) == Replay(Replay(items, first, capacity), second, capacity)
  {
    if second == [] {
      assert first + second == first;
    } else {
      var init, last := second[..|second| - 1], second[|second| - 1];
      ReplayConcat(items, first, init, capacity);
      ReplaySnoc(items, first + init, last, capacity);
      assert first + second == first + init + [last];
    }
  }

  // ----- A replayed queue is one stretch of the history -----

  /** Everything the commands ever append, after what the queue started with. */
  function Appended(items: seq<SamplePoint>, commands: seq<QueueCommand>): seq<SamplePoint> {
    if commands == [] then items
    else
      var before := Appended(items, commands[..|commands| - 1]);
      match commands[|commands| - 1]
      case Append(sample) => before + [sample]
      case AcknowledgeCount(_) => before
      case Flush => before
  }

  /** How many samples the commands acknowledge, a count never exceeding what is there. */
  function Acknowledged(items: seq<SamplePoint>, commands: seq<QueueCommand>, capacity: nat): nat {
    if commands == [] then 0
    else
      var init := commands[..|commands| - 1];
      Acknowledged(items, init, capacity) +
      match commands[|commands| - 1]
      case AcknowledgeCount(count) => Min(count, |Replay(items, init, capacity)|)
      case Append(_) => 0
      case Flush => 0
  }

  /** How many samples replaying the commands pushes out for lack of room. */
  function Evicted(items: seq<SamplePoint>, commands: seq<QueueCommand>, capacity: nat): nat {
    if commands == [] then 0
    else
      var init := commands[..|commands| - 1];
      Evicted(items, init, capacity) +
      match commands[|commands| - 1]
      case Append(_) => if |Replay(items, init, capacity)| + 1 > capacity then 1 else 0
      case AcknowledgeCount(_) => 0
      case Flush => 0
  }

  function Removed(items: seq<SamplePoint>, commands: seq<QueueCommand>, capacity: nat): nat {
    Acknowledged(items, commands, capacity) + Evicted(items, commands, capacity)
  }

  /** The queue is the history without what was acknowledged or evicted, and nothing else is missing. */
  lemma {:induction false} ReplayIsStretch(items: seq<SamplePoint>, commands: seq<QueueCommand>, capacity: nat)
    ensures Removed(items, commands, capacity) <= |Appended(items, commands)|
    ensures Replay(items, commands, capacity)
         == Appended(items, commands)[Removed(items, commands, capacity)..]
  {
    if commands == [] {
    } else {
      var init := commands[..|commands| - 1];
      ReplayIsStretch(items, init, capacity);
      var before, removed := Appended(items, init), Removed(items, init, capacity);
      match commands[|commands| - 1]
      case Append(sample) =>
        assert before[removed..] + [sample] == (before + [sample])[removed..];
      case AcknowledgeCount(count) =>
      case Flush =>
    }
  }

  /** Later commands only extend the history and only move its start forward. */
  lemma {:induction false} ReplayAdvances(
      items: seq<SamplePoint>, commands: seq<QueueCommand>, k: nat, capacity: nat)
    requires k <= |commands|
    ensures Appended(items, commands[..k]) <= Appended(items, commands)
    ensures Acknowledged(items, commands[..k], capacity) <= Acknowledged(items, commands, capacity)
    ensures Removed(items, commands[..k], capacity) <= Removed(items, commands, capacity)
    decreases |commands|
  {
    if k == |commands| {
      assert commands[..k] == commands;
    } else {
      var init := commands[..|commands| - 1];
      ReplayAdvances(items, init, k, capacity);
      assert init[..k] == commands[..k];
    }
  }
}
