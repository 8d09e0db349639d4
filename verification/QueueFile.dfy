/**
 The sample queue on disk: a JSON array written element by element to a temporary file, then
 renamed over the real one. A rename is atomic, but until the directory is synced a power
 loss may still bring back what the name pointed to before. How a sample is written as JSON and
 read back is a parameter.
 */
module QueueFile {
  import opened Telemetry
  import opened Wrappers

  /** A larger file is parked instead of loaded: 64 MiB. */
  const MAX_QUEUE_LOAD_BYTES := 67_108_864

  /** The shortest text of a sample: every member is written, even when it is 0. */
  const LEAST_SAMPLE_TEXT := 180

  const OPEN: byte := 0x5B
  const COMMA: byte := 0x2C
  const CLOSE: byte := 0x5D

  /** `read` takes one sample off the front of a text. */
  datatype Codec = Codec(write: SamplePoint -> Text, read: Text -> Option<(SamplePoint, Text)>)

  /** Objects delimit themselves: one is read back whole whatever follows, and no part of one is one. */
  ghost predicate Json(c: Codec) {
    && (forall s, rest :: c.read(c.write(s) + rest) == Some((s, rest)))
    && (forall s, k :: 0 <= k < |c.write(s)| ==> c.read(c.write(s)[..k]) == None)
    && (forall s :: |c.write(s)| >= LEAST_SAMPLE_TEXT && c.write(s)[0] != CLOSE)
  }

  /** The array as it is written: brackets, commas and whole elements. */
  datatype Token = OpenArray | Comma | Item(sample: SamplePoint) | CloseArray

  type File = seq<Token>

  function Body(samples: seq<SamplePoint>): File {
    if samples == [] then []
    else
      var last := Item(samples[|samples| - 1]);
      if |samples| == 1 then [last] else Body(samples[..|samples| - 1]) + [Comma, last]
  }

  function Render(samples: seq<SamplePoint>): File {
    [OpenArray] + Body(samples) + [CloseArray]
  }

  function TokenText(t: Token, c: Codec): Text {
    match t
    case OpenArray => [OPEN]
    case Comma => [COMMA]
    case CloseArray => [CLOSE]
    case Item(sample) => c.write(sample)
  }

  /** The bytes of the file. */
  function FileText(file: File, c: Codec): Text {
    if file == [] then [] else FileText(file[..|file| - 1], c) + TokenText(file[|file| - 1], c)
  }

  /** Elements up to the closing bracket, behind which nothing may follow. */
  function ParseItems(text: Text, c: Codec): Result<seq<SamplePoint>>
    decreases |text|
  {
    match c.read(text)
    case None => Err
    case Some((sample, rest)) =>
      if rest == [CLOSE] then Ok([sample])
      else if rest == [] || rest[0] != COMMA || |rest| >= |text| then Err
      else
        match ParseItems(rest[1..], c)
        case Ok(others) => Ok([sample] + others)
        case Err => Err
  }

  function Parse(text: Text, c: Codec): Result<seq<SamplePoint>> {
    if text == [] || text[0] != OPEN then Err
    else if text[1..] == [CLOSE] then Ok([])
    else ParseItems(text[1..], c)
  }

  /** Elements without a positive timestamp are dropped while loading. */
  function Loadable(samples: seq<SamplePoint>): seq<SamplePoint> {
    if samples == [] then []
    else
      var before := Loadable(samples[..|samples| - 1]);
      if samples[|samples| - 1].ts > 0 then before + [samples[|samples| - 1]] else before
  }

  predicate Oversized(file: File, c: Codec) { |FileText(file, c)| > MAX_QUEUE_LOAD_BYTES }

  /** No file is an empty queue; a file too large to load is parked and reported. */
  function Load(file: Option<File>, c: Codec): Result<seq<SamplePoint>> {
    match file
    case None => Ok([])
    case Some(content) =>
      if Oversized(content, c) then Err
      else
        match Parse(FileText(content, c), c)
        case Ok(samples) => Ok(Loadable(samples))
        case Err => Err
  }

  // ----- The bytes of a written queue -----

  /** The elements with their commas. */
  function ElementsText(samples: seq<SamplePoint>, c: Codec): Text {
    if samples == [] then []
    else if |samples| == 1 then c.write(samples[0])
    else c.write(samples[0]) + ([COMMA] + ElementsText(samples[1..], c))
  }

  function ItemsText(samples: seq<SamplePoint>, c: Codec): Text { ElementsText(samples, c) + [CLOSE] }

  lemma {:induction false} ElementsSnoc(samples: seq<SamplePoint>, last: SamplePoint, c: Codec)
    requires samples != []
    ensures ElementsText(samples + [last], c) == ElementsText(samples, c) + ([COMMA] + c.write(last))
  {
    var grown := samples + [last];
    assert grown[1..] == samples[1..] + [last];
    if |samples| > 1 {
      ElementsSnoc(samples[1..], last, c);
      Regroup(c.write(samples[0]), [COMMA], ElementsText(samples[1..], c), [COMMA] + c.write(last));
    } else {
      assert ElementsText([last], c) == c.write(last);
    }
  }

  lemma Regroup(a: Text, b: Text, c: Text, d: Text)
    ensures a + (b + (c + d)) == a + (b + c) + d
  {
  }

  lemma {:induction false} BodyText(samples: seq<SamplePoint>, c: Codec)
    ensures FileText([OpenArray] + Body(samples), c) == [OPEN] + ElementsText(samples, c)
  {
    if |samples| <= 1 {
      BodyOfOne(samples, c);
    } else {
      var init, last := samples[..|samples| - 1], samples[|samples| - 1];
      BodyText(init, c);
      TextSnocs([OpenArray] + Body(init), last, c);
      ElementsSnoc(init, last, c);
      assert init + [last] == samples;
      assert [OpenArray] + Body(samples) == [OpenArray] + Body(init) + [Comma] + [Item(last)];
    }
  }

  lemma BodyOfOne(samples: seq<SamplePoint>, c: Codec)
    requires |samples| <= 1
    ensures FileText([OpenArray] + Body(samples), c) == [OPEN] + ElementsText(samples, c)
  {
    assert [OpenArray][..0] == [] && FileText([OpenArray], c) == [OPEN];
    if |samples| == 1 {
      assert ([OpenArray] + Body(samples))[..1] == [OpenArray];
    } else {
      assert [OpenArray] + Body(samples) == [OpenArray];
    }
  }

  lemma TextSnoc(file: File, t: Token, c: Codec)
    ensures FileText(file + [t], c) == FileText(file, c) + TokenText(t, c)
  {
    assert (file + [t])[..|file|] == file;
  }

  lemma TextSnocs(file: File, last: SamplePoint, c: Codec)
    ensures FileText(file + [Comma] + [Item(last)], c) == FileText(file, c) + ([COMMA] + c.write(last))
  {
    TextSnoc(file, Comma, c);
    TextSnoc(file + [Comma], Item(last), c);
  }

  lemma RenderText(samples: seq<SamplePoint>, c: Codec)
    ensures FileText(Render(samples), c) == [OPEN] + ItemsText(samples, c)
  {
    BodyText(samples, c);
    TextSnoc([OpenArray] + Body(samples), CloseArray, c);
  }

  lemma FirstElement(samples: seq<SamplePoint>, c: Codec)
    requires samples != []
    ensures ItemsText(samples, c)
         == c.write(samples[0]) + if |samples| == 1 then [CLOSE] else [COMMA] + ItemsText(samples[1..], c)
  {
  }

  lemma {:induction false} ItemsRead(samples: seq<SamplePoint>, c: Codec)
    requires Json(c) && samples != []
    ensures ParseItems(ItemsText(samples, c), c) == Ok(samples)
  {
    hide ElementsText;
    var rest := if |samples| == 1 then [CLOSE] else [COMMA] + ItemsText(samples[1..], c);
    FirstElement(samples, c);
    assert c.read(c.write(samples[0]) + rest) == Some((samples[0], rest));
    assert |c.write(samples[0])| >= LEAST_SAMPLE_TEXT;
    if |samples| > 1 {
      ItemsRead(samples[1..], c);
      assert rest[0] == COMMA && rest[1..] == ItemsText(samples[1..], c) && samples == [samples[0]] + samples[1..];
    } else {
      assert samples == [samples[0]] && rest == [CLOSE];
    }
  }

  /** Reading back what was written gives the same samples. */
  lemma ParseRender(samples: seq<SamplePoint>, c: Codec)
    requires Json(c)
    ensures Parse(FileText(Render(samples), c), c) == Ok(samples)
  {
    RenderText(samples, c);
    var text := [OPEN] + ItemsText(samples, c);
    assert text[1..] == ItemsText(samples, c);
    if samples != [] {
      ItemsRead(samples, c);
      ItemsLonger(samples, c);
    }
  }

  lemma {:induction false} ItemsLonger(samples: seq<SamplePoint>, c: Codec)
    requires Json(c)
    ensures |ItemsText(samples, c)| >= (LEAST_SAMPLE_TEXT + 1) * |samples|
    ensures samples != [] ==> ItemsText(samples, c)[0] == c.write(samples[0])[0] != CLOSE
  {
    if samples == [] {
    } else {
      assert |c.write(samples[0])| >= LEAST_SAMPLE_TEXT;
      ItemsLonger(samples[1..], c);
    }
  }

  lemma {:induction false} TornItems(samples: seq<SamplePoint>, c: Codec, k: nat)
    requires Json(c) && samples != [] && k < |ItemsText(samples, c)|
    ensures ParseItems(ItemsText(samples, c)[..k], c) == Err
    decreases |samples|
  {
    var first := c.write(samples[0]);
    var rest := if |samples| == 1 then [CLOSE] else [COMMA] + ItemsText(samples[1..], c);
    var torn := ItemsText(samples, c)[..k];
    assert ItemsText(samples, c) == first + rest;
    if k < |first| {
      assert torn == first[..k];
      assert c.read(first[..k]) == None;
    } else {
      var left := rest[..k - |first|];
      assert torn == first + left;
      assert c.read(first + left) == Some((samples[0], left));
      if |samples| > 1 && left != [] {
        assert left[1..] == ItemsText(samples[1..], c)[..|left| - 1];
        TornItems(samples[1..], c, |left| - 1);
      }
    }
  }

  /** A file cut short after any byte is never taken for a shorter queue. */
  lemma TornFileIsRejected(samples: seq<SamplePoint>, c: Codec, k: nat)
    requires Json(c) && k < |FileText(Render(samples), c)|
    ensures Parse(FileText(Render(samples), c)[..k], c) == Err
  {
    RenderText(samples, c);
    var items := ItemsText(samples, c);
    var torn := ([OPEN] + items)[..k];
    if k > 0 {
      assert torn[1..] == items[..k - 1];
      if samples != [] {
        TornItems(samples, c, k - 1);
        ItemsLonger(samples, c);
        if k > 1 { assert torn[1..][0] == items[0]; }
      } else {
        assert torn[1..] == [];
        assert c.read([]) == None by { assert |c.write(AnySample())| > 0; assert c.write(AnySample())[..0] == []; }
      }
    }
  }

  function AnySample(): SamplePoint {
    var zero: Double := [0, 0, 0, 0, 0, 0, 0, 0];
    SamplePoint(0, zero, zero, zero, zero, zero, zero, 0, zero, zero, 0, 0, zero, zero, None, None, None, None, None, None)
  }

  ghost predicate AllPositive(samples: seq<SamplePoint>) {
    forall s <- samples :: s.ts > 0
  }

  lemma {:induction false} LoadableKeepsAllPositive(samples: seq<SamplePoint>)
    ensures Loadable(samples) == samples <==> AllPositive(samples)
    ensures |Loadable(samples)| <= |samples|
  {
    if samples == [] {
    } else {
      var init, last := samples[..|samples| - 1], samples[|samples| - 1];
      LoadableKeepsAllPositive(init);
      assert samples == init + [last];
    }
  }

  /**
   What was saved loads back as it was exactly when the file is not too large and every sample has a
   positive timestamp.
   */
  lemma {:induction false} LoadAfterSave(samples: seq<SamplePoint>, c: Codec)
    requires Json(c)
    ensures Load(Some(Render(samples)), c) == if Oversized(Render(samples), c) then Err else Ok(Loadable(samples))
    ensures Load(Some(Render(samples)), c) == Ok(samples) <==>
            |FileText(Render(samples), c)| <= 64 * 1024 * 1024 && AllPositive(samples)
  {
    ParseRender(samples, c);
    LoadableKeepsAllPositive(samples);
  }

  /** A queue of enough samples is always too large, whatever they hold. */
  lemma ManySamplesAreOversized(samples: seq<SamplePoint>, c: Codec)
    requires Json(c) && (LEAST_SAMPLE_TEXT + 1) * |samples| >= MAX_QUEUE_LOAD_BYTES
    ensures Oversized(Render(samples), c)
  {
    RenderText(samples, c);
    ItemsLonger(samples, c);
  }

  /** How a save ended: nothing renamed, renamed but not known durable, or durable. */
  datatype SaveOutcome = Unchanged | Unsynced | Saved

  /** The contents a crash can leave under the queue's name, oldest first; the last is current. */
  type Survivors = seq<Option<File>>

  /** None of these operations reports an error. */
  predicate Works(fails: nat -> bool, from: nat, end: nat) {
    forall n: nat :: from <= n < end ==> !fails(n)
  }

  function AfterSave(survivors: Survivors, samples: seq<SamplePoint>, outcome: SaveOutcome): Survivors {
    match outcome
    case Unchanged => survivors
    case Unsynced => survivors + [Some(Render(samples))]
    case Saved => [Some(Render(samples))]
  }

  /**
   The files of the queue directory. `trail` records what a crash could leave after each
   single operation. `fails(n)` says whether the n-th operation of a save reports an error.
   */
  class QueueStore {
    var target: Option<File>
    var temp: Option<File>
    ghost var older: Survivors
    ghost var trail: seq<Survivors>

    ghost function Possible(): Survivors
      reads this
    {
      older + [target]
    }

    constructor (file: Option<File>)
      ensures Possible() == [file] && temp == None && trail == []
    {
      target, temp, older, trail := file, None, [], [];
    }

    method Save(samples: seq<SamplePoint>, fails: nat -> bool) returns (outcome: SaveOutcome)
      modifies this
      ensures Possible() == AfterSave(old(Possible()), samples, outcome)
      ensures old(trail) <= trail
      ensures forall i :: |old(trail)| <= i < |trail| ==>
                trail[i] == old(Possible()) || trail[i] == AfterSave(old(Possible()), samples, Unsynced)
                || trail[i] == AfterSave(old(Possible()), samples, Saved)
      ensures outcome == Saved ==> target == Some(Render(samples))
      // It saves unless an operation fails: creating, writing, syncing or renaming leaves the file as it was.
      ensures outcome == if !Works(fails, 0, |samples| + 5) then Unchanged
                         else if fails(|samples| + 5) then Unsynced else Saved
      ensures old(temp) == None ==> temp == None
    {
      if fails(0) {                                  // create the temporary file
        return Unchanged;
      }
      var written := WriteTemp(samples, fails);
      if !written {
        temp := None;                                // the partial file is removed
        return Unchanged;
      }
      ghost var before := Possible();
      older := before;
      target, temp := temp, None;                    // the rename
      trail := trail + [Possible()];
      if fails(|samples| + 5) {                      // syncing the directory
        return Unsynced;
      }
      older := [];
      trail := trail + [Possible()];
      return Saved;
    }

    /** Nothing written to the temporary file shows under the queue's own name. */
    method WriteTemp(samples: seq<SamplePoint>, fails: nat -> bool) returns (written: bool)
      modifies `temp, `trail
      ensures written ==> temp == Some(Render(samples))
      ensures written <==> Works(fails, 1, |samples| + 5)
      ensures old(trail) <= trail
      ensures forall i :: |old(trail)| <= i < |trail| ==> trail[i] == Possible()
    {
      var content: File := [];
      temp := Some(content);
      trail := trail + [Possible()];
      if fails(1) { return false; }
      content := [OpenArray];
      for index := 0 to |samples|
        invariant content == [OpenArray] + Body(samples[..index])
        invariant Works(fails, 1, index + 2)
        invariant old(trail) <= trail
        invariant forall i :: |old(trail)| <= i < |trail| ==> trail[i] == Possible()
      {
        if index > 0 { content := content + [Comma]; }
        content := content + [Item(samples[index])];
        temp := Some(content);
        trail := trail + [Possible()];
        if fails(index + 2) { return false; }
        assert samples[..index + 1][..index] == samples[..index];
      }
      assert samples[..|samples|] == samples;
      content := content + [CloseArray];
      temp := Some(content);
      trail := trail + [Possible()];
      if fails(|samples| + 2) || fails(|samples| + 3) || fails(|samples| + 4) {   // write, fsync, rename
        return false;
      }
      return true;
    }
  }
}
