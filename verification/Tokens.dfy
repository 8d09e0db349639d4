/**
 One-time tokens kept as one stored list, consumed by any number of requests at once: each
 reads the list, drops its token from its copy, and stores the copy only over the very text it
 read, up to three times.
 */
module Tokens {
  import opened Wrappers

  const MAX_PENDING := 10
  const ATTEMPTS := 3

  datatype Entry = Entry(tokenHash: string, expiresAt: int)

  /** A stored text: the entries it parses to, and how it is spelt. The program writes spelling 0. */
  datatype Stored = Stored(entries: seq<Entry>, spelling: nat)

  function Unexpired(entries: seq<Entry>, now: int): seq<Entry> {
    if entries == [] then []
    else (if entries[0].expiresAt <= now then [] else [entries[0]]) + Unexpired(entries[1..], now)
  }

  /** The first unexpired entry of the token. */
  function Found(entries: seq<Entry>, hash: string, now: int): Option<Entry> {
    if entries == [] then None
    else if entries[0].expiresAt > now && entries[0].tokenHash == hash then Some(entries[0])
    else Found(entries[1..], hash, now)
  }

  function Remaining(entries: seq<Entry>, hash: string, now: int): seq<Entry> {
    if entries == [] then []
    else if entries[0].expiresAt <= now then Remaining(entries[1..], hash, now)
    else if entries[0].tokenHash == hash then Unexpired(entries[1..], now)
    else [entries[0]] + Remaining(entries[1..], hash, now)
  }

  method Scan(pending: seq<Entry>, hash: string, now: int) returns (found: Option<Entry>, remaining: seq<Entry>)
    ensures found == Found(pending, hash, now) && remaining == Remaining(pending, hash, now)
  {
    found, remaining := None, [];
    for i := 0 to |pending|
      invariant found.None? ==>
          Found(pending, hash, now) == Found(pending[i..], hash, now) &&
          Remaining(pending, hash, now) == remaining + Remaining(pending[i..], hash, now)
      invariant found.Some? ==>
          Found(pending, hash, now) == found &&
          Remaining(pending, hash, now) == remaining + Unexpired(pending[i..], now)
    {
      var entry := pending[i];
      if entry.expiresAt <= now { continue; }
      if found.None? && entry.tokenHash == hash {
        found := Some(entry);
        continue;
      }
      remaining := remaining + [entry];
    }
  }

  function Newest(entries: seq<Entry>): seq<Entry> {
    if |entries| > MAX_PENDING then entries[|entries| - MAX_PENDING..] else entries
  }

  datatype Phase =
    | Ready
    | Holding(raw: Stored, now: int, seen: nat)
    | Done(result: Option<Entry>)

  datatype Consumer = Consumer(hash: string, failures: nat, phase: Phase)

  /** `wins` counts successful swaps; `dropped` collects what they threw away besides the token. */
  datatype System = System(row: Option<Stored>, consumers: seq<Consumer>, wins: nat, dropped: multiset<Entry>)

  datatype Move = Read(i: nat, now: int) | Swap(i: nat)

  function Entries(row: Option<Stored>): seq<Entry> {
    match row
    case Some(stored) => stored.entries
    case None => []
  }

  function AfterRead(row: Option<Stored>, c: Consumer, now: int, wins: nat): Consumer {
    match row
    case Some(raw) =>
      c.(phase := if Found(raw.entries, c.hash, now).Some? then Holding(raw, now, wins) else Done(None))
    case None => c.(phase := Done(None))
  }

  function Swapped(c: Consumer): Stored
    requires c.phase.Holding?
  {
    Stored(Newest(Remaining(c.phase.raw.entries, c.hash, c.phase.now)), 0)
  }

  function Step(s: System, m: Move): System {
    if m.i >= |s.consumers| then s
    else
      var c := s.consumers[m.i];
      if m.Read? && c.phase.Ready? then
        s.(consumers := s.consumers[m.i := AfterRead(s.row, c, m.now, s.wins)])
      else if m.Swap? && c.phase.Holding? then
        if s.row == Some(c.phase.raw) then
          var found := Found(c.phase.raw.entries, c.hash, c.phase.now);
          System(Some(Swapped(c)), s.consumers[m.i := c.(phase := Done(found))], s.wins + 1,
                 s.dropped + multiset(c.phase.raw.entries) - multiset(Swapped(c).entries) - ResultOf(found))
        else
          s.(consumers := s.consumers[m.i := c.(failures := c.failures + 1,
                                                phase := if c.failures + 1 < ATTEMPTS then Ready else Done(None))])
      else s
  }

  function Run(s: System, moves: seq<Move>): System {
    if moves == [] then s else Step(Run(s, moves[..|moves| - 1]), moves[|moves| - 1])
  }

  function Start(row: Option<Stored>, hashes: seq<string>): System {
    System(row, seq(|hashes|, i requires 0 <= i < |hashes| => Consumer(hashes[i], 0, Ready)), 0, multiset{})
  }

  function ResultOf(result: Option<Entry>): multiset<Entry> {
    match result
    case Some(entry) => multiset{entry}
    case None => multiset{}
  }

  function ReturnedBy(c: Consumer): multiset<Entry> {
    if c.phase.Done? then ResultOf(c.phase.result) else multiset{}
  }

  /** Everything handed out so far. */
  function Returned(consumers: seq<Consumer>): multiset<Entry> {
    if consumers == [] then multiset{}
    else ReturnedBy(consumers[0]) + Returned(consumers[1..])
  }

  /** The stored row, one statement a method. */
  class AppMeta {
    var row: Option<Stored>

    constructor (row: Option<Stored>)
      ensures this.row == row
    {
      this.row := row;
    }

    /** Stores the value over the very text that was read, or changes nothing. */
    method UpdateWhere(raw: Stored, value: Stored) returns (changes: nat)
      modifies this
      ensures changes == if old(row) == Some(raw) then 1 else 0
      ensures row == if old(row) == Some(raw) then Some(value) else old(row)
    {
      changes := 0;
      if row == Some(raw) {
        row, changes := Some(value), 1;
      }
    }
  }

  /** One request's local variables; other requests run between its two statements. */
  class Request {
    const hash: string
    var attempt: nat
    var raw: Option<Stored>
    var found: Option<Entry>
    var remaining: seq<Entry>
    var finished: bool
    ghost var phase: Phase

    ghost function Value(): Consumer
      reads this
    {
      Consumer(hash, attempt, phase)
    }

    ghost predicate Valid()
      reads this
    {
      match phase
      case Ready => !finished && raw.None?
      case Holding(held, now, _) =>
        && !finished && raw == Some(held) && found == Found(held.entries, hash, now) && found.Some?
        && remaining == Remaining(held.entries, hash, now)
      case Done(result) => finished && found == result
    }

    constructor (hash: string)
      ensures Valid() && Value() == Consumer(hash, 0, Ready)
    {
      this.hash, attempt, raw, found, remaining, finished := hash, 0, None, None, [], false;
      phase := Ready;
    }

    method Read(store: AppMeta, now: int, ghost wins: nat)
      requires Valid() && phase.Ready?
      modifies this
      ensures Valid() && Value() == AfterRead(store.row, old(Value()), now, wins)
    {
      raw := store.row;
      var pending := match raw case Some(stored) => stored.entries case None => [];
      found, remaining := Scan(pending, hash, now);
      finished := found.None?;
      phase := AfterRead(store.row, Value(), now, wins).phase;
    }

    method Swap(store: AppMeta)
      requires Valid() && phase.Holding?
      modifies this, store
      ensures Valid()
      ensures old(store.row) == Some(old(phase).raw) ==>
                store.row == Some(Swapped(old(Value()))) && phase == Done(old(found)) && attempt == old(attempt)
      ensures old(store.row) != Some(old(phase).raw) ==>
                && store.row == old(store.row) && attempt == old(attempt) + 1
                && phase == if attempt < ATTEMPTS then Ready else Done(None)
    {
      var changes := store.UpdateWhere(raw.value, Stored(Newest(remaining), 0));
      if changes == 1 {
        finished, phase := true, Done(found);
      } else {
        attempt := attempt + 1;
        raw, found, remaining := None, None, [];
        finished := attempt >= ATTEMPTS;
        phase := if attempt < ATTEMPTS then Ready else Done(None);
      }
    }
  }

  // ----- One swap -----

  /** The token is stored and has not expired. */
  predicate Presents(entries: seq<Entry>, hash: string, now: int) {
    exists k :: 0 <= k < |entries| && entries[k].tokenHash == hash && entries[k].expiresAt > now
  }

  /** The scan finds an entry whenever there is one. */
  lemma {:induction false} FoundIff(entries: seq<Entry>, hash: string, now: int)
    ensures Found(entries, hash, now).Some? <==> Presents(entries, hash, now)
  {
    if entries == [] {
    } else {
      FoundIff(entries[1..], hash, now);
      if Presents(entries[1..], hash, now) {
        var k :| 0 <= k < |entries| - 1 && entries[1..][k].tokenHash == hash && entries[1..][k].expiresAt > now;
        assert entries[k + 1].tokenHash == hash && entries[k + 1].expiresAt > now;
      }
      if Presents(entries, hash, now) {
        var k :| 0 <= k < |entries| && entries[k].tokenHash == hash && entries[k].expiresAt > now;
        if k > 0 { assert entries[1..][k - 1] == entries[k]; }
      }
    }
  }

  lemma UnexpiredCons(e: Entry, behind: seq<Entry>, now: int)
    ensures Unexpired([e] + behind, now) == (if e.expiresAt > now then [e] else []) + Unexpired(behind, now)
  {
    assert ([e] + behind)[1..] == behind;
  }

  /** Each entry stays or goes by its own expiry, in order. */
  lemma {:induction false} UnexpiredAre(before: seq<Entry>, e: Entry, behind: seq<Entry>, now: int)
    ensures Unexpired(before + [e] + behind, now)
         == Unexpired(before, now) + (if e.expiresAt > now then [e] else []) + Unexpired(behind, now)
  {
    hide Unexpired;
    if before == [] {
      NoneUnexpired(before, now);
      assert before + [e] + behind == [e] + behind;
      UnexpiredCons(e, behind, now);
    } else {
      var rest := before[1..];
      UnexpiredAre(rest, e, behind, now);
      assert before + [e] + behind == [before[0]] + (rest + [e] + behind) && before == [before[0]] + rest;
      UnexpiredCons(before[0], rest + [e] + behind, now);
      UnexpiredCons(before[0], rest, now);
    }
  }

  lemma {:induction false} ScanSplits(entries: seq<Entry>, hash: string, now: int)
    requires Found(entries, hash, now).Some?
    ensures multiset(Remaining(entries, hash, now)) + ResultOf(Found(entries, hash, now)) <= multiset(entries)
    ensures |Remaining(entries, hash, now)| < |entries|
    ensures var e := Found(entries, hash, now).value; e.tokenHash == hash && e.expiresAt > now
  {
    assert entries == [entries[0]] + entries[1..];
    if entries[0].expiresAt > now && entries[0].tokenHash == hash {
      UnexpiredWithin(entries[1..], now);
    } else {
      ScanSplits(entries[1..], hash, now);
    }
  }

  lemma {:induction false} UnexpiredWithin(entries: seq<Entry>, now: int)
    ensures multiset(Unexpired(entries, now)) <= multiset(entries) && |Unexpired(entries, now)| <= |entries|
  {
    if entries == [] {
    } else {
      assert entries == [entries[0]] + entries[1..];
      UnexpiredWithin(entries[1..], now);
    }
  }

  lemma UnexpiredPrefix(entries: seq<Entry>, k: nat, now: int)
    requires k < |entries|
    ensures Unexpired(entries[..k + 1], now)
         == (if entries[0].expiresAt <= now then [] else [entries[0]]) + Unexpired(entries[1..][..k], now)
  {
    assert entries[..k + 1][1..] == entries[1..][..k];
  }

  /** What is left is exactly the unexpired entries around the one taken. */
  lemma {:induction false} RemainingAround(entries: seq<Entry>, hash: string, now: int) returns (k: nat)
    requires Found(entries, hash, now).Some?
    ensures k < |entries| && Found(entries, hash, now) == Some(entries[k])
    ensures Remaining(entries, hash, now) == Unexpired(entries[..k], now) + Unexpired(entries[k + 1..], now)
    ensures forall j :: 0 <= j < k ==> entries[j].expiresAt <= now || entries[j].tokenHash != hash
  {
    hide Unexpired;
    if entries[0].expiresAt > now && entries[0].tokenHash == hash {
      k := 0;
      NoneUnexpired(entries[..0], now);
    } else {
      var rest := entries[1..];
      var i := RemainingAround(rest, hash, now);
      k := i + 1;
      var first := if entries[0].expiresAt <= now then [] else [entries[0]];
      UnexpiredPrefix(entries, i, now);
      assert Remaining(entries, hash, now) == first + Remaining(rest, hash, now);
      Associative(first, Unexpired(rest[..i], now), Unexpired(rest[i + 1..], now));
      assert rest[i + 1..] == entries[k + 1..];
      assert forall j :: 1 <= j < k ==> entries[j] == rest[j - 1];
    }
  }

  lemma NoneUnexpired(entries: seq<Entry>, now: int)
    requires entries == []
    ensures Unexpired(entries, now) == []
  {
  }

  lemma Associative(a: seq<Entry>, b: seq<Entry>, c: seq<Entry>)
    ensures a + (b + c) == a + b + c
  {
  }

  /**
   A successful swap returns the first unexpired entry of the token and leaves exactly the other
   entries unexpired when it read, in order, the newest ten of them.
   */
  lemma {:induction false} SwapLeavesOthers(s: System, i: nat) returns (k: nat)
    requires i < |s.consumers| && s.consumers[i].phase.Holding? && s.row == Some(s.consumers[i].phase.raw)
    requires Presents(Entries(s.row), s.consumers[i].hash, s.consumers[i].phase.now)
    ensures var c, after := s.consumers[i], Step(s, Swap(i));
            && k < |Entries(s.row)| && after.consumers[i].phase == Done(Some(Entries(s.row)[k]))
            && Entries(s.row)[k].tokenHash == c.hash && Entries(s.row)[k].expiresAt > c.phase.now
            && (forall j :: 0 <= j < k ==> Entries(s.row)[j].expiresAt <= c.phase.now || Entries(s.row)[j].tokenHash != c.hash)
            && var others := Unexpired(Entries(s.row)[..k], c.phase.now) + Unexpired(Entries(s.row)[k + 1..], c.phase.now);
            Entries(after.row) == others[if |others| > 10 then |others| - 10 else 0..]
  {
    FoundIff(Entries(s.row), s.consumers[i].hash, s.consumers[i].phase.now);
    var c := s.consumers[i];
    k := RemainingAround(Entries(s.row), c.hash, c.phase.now);
    ScanSplits(Entries(s.row), c.hash, c.phase.now);
  }

  // ----- Every interleaving -----

  /** Nothing is invented: what is stored, handed out and dropped is what was there. */
  ghost predicate Conserved(s: System, initial: multiset<Entry>) {
    multiset(Entries(s.row)) + Returned(s.consumers) + s.dropped == initial
  }

  ghost predicate ConsumerInv(s: System, c: Consumer) {
    && c.failures <= s.wins
    && (c.phase.Holding? ==>
          && Found(c.phase.raw.entries, c.hash, c.phase.now).Some?
          && c.failures <= c.phase.seen <= s.wins
          && (s.row != Some(c.phase.raw) ==> c.phase.seen < s.wins))
    && (c.phase.Done? && c.phase.result.Some? ==> c.phase.result.value.tokenHash == c.hash)
  }

  ghost predicate Inv(s: System, initial: multiset<Entry>) {
    Conserved(s, initial) && forall c <- s.consumers :: ConsumerInv(s, c)
  }

  lemma {:induction false} ReturnedUpdate(consumers: seq<Consumer>, i: nat, c: Consumer)
    requires i < |consumers| && ReturnedBy(consumers[i]) == multiset{}
    ensures Returned(consumers[i := c]) == Returned(consumers) + ReturnedBy(c)
  {
    if i > 0 {
      ReturnedUpdate(consumers[1..], i - 1, c);
      assert consumers[i := c][1..] == consumers[1..][i - 1 := c];
    } else {
      assert consumers[i := c][1..] == consumers[1..];
    }
  }

  lemma NewestWithin(entries: seq<Entry>)
    ensures multiset(Newest(entries)) <= multiset(entries) && |Newest(entries)| <= |entries|
    ensures |entries| <= MAX_PENDING ==> Newest(entries) == entries
  {
    if |entries| > MAX_PENDING {
      assert entries == entries[..|entries| - MAX_PENDING] + Newest(entries);
    }
  }

  lemma SwapConserves(s: System, i: nat, initial: multiset<Entry>)
    requires i < |s.consumers| && s.consumers[i].phase.Holding? && s.row == Some(s.consumers[i].phase.raw)
    requires Found(Entries(s.row), s.consumers[i].hash, s.consumers[i].phase.now).Some? && Conserved(s, initial)
    ensures Conserved(Step(s, Swap(i)), initial)
  {
    hide Found, Newest, Remaining, Returned;
    var c := s.consumers[i];
    var raw, found := c.phase.raw.entries, Found(c.phase.raw.entries, c.hash, c.phase.now);
    ScanSplits(raw, c.hash, c.phase.now);
    NewestWithin(Remaining(raw, c.hash, c.phase.now));
    ReturnedUpdate(s.consumers, i, c.(phase := Done(found)));
    Rearrange(multiset(raw), multiset(Swapped(c).entries), ResultOf(found), Returned(s.consumers), s.dropped);
  }

  lemma Rearrange(raw: multiset<Entry>, kept: multiset<Entry>, found: multiset<Entry>,
                  returned: multiset<Entry>, dropped: multiset<Entry>)
    requires kept + found <= raw
    ensures kept + (returned + found) + (dropped + raw - kept - found) == raw + returned + dropped
  {
  }

  lemma ReadReturnsNone(row: Option<Stored>, c: Consumer, now: int, wins: nat)
    ensures ReturnedBy(AfterRead(row, c, now, wins)) == multiset{}
  {
  }

  lemma StepConserves(s: System, m: Move, initial: multiset<Entry>)
    requires Inv(s, initial)
    ensures Conserved(Step(s, m), initial)
  {
    hide AfterRead, Found, Newest, Remaining, Returned, Swapped;
    if m.i < |s.consumers| {
      var c := s.consumers[m.i];
      assert ConsumerInv(s, c);
      if m.Read? && c.phase.Ready? {
        ReadReturnsNone(s.row, c, m.now, s.wins);
        ReturnedUpdate(s.consumers, m.i, AfterRead(s.row, c, m.now, s.wins));
      } else if m.Swap? && c.phase.Holding? {
        if s.row == Some(c.phase.raw) {
          SwapConserves(s, m.i, initial);
        } else {
          ReturnedUpdate(s.consumers, m.i, Step(s, m).consumers[m.i]);
        }
      }
    }
  }

  /** A swap shortens the list, so a text once replaced never comes back. */
  lemma StepShortens(s: System, m: Move, initial: multiset<Entry>)
    requires Inv(s, initial)
    ensures var after := Step(s, m);
            (after.row == s.row && after.wins == s.wins)
            || (|Entries(after.row)| < |Entries(s.row)| && after.wins == s.wins + 1)
  {
    if m.i < |s.consumers| {
      var c := s.consumers[m.i];
      assert ConsumerInv(s, c);
      if m.Swap? && c.phase.Holding? {
        ScanSplits(c.phase.raw.entries, c.hash, c.phase.now);
        NewestWithin(Remaining(c.phase.raw.entries, c.hash, c.phase.now));
      }
    }
  }

  lemma StepKeepsConsumer(s: System, m: Move, initial: multiset<Entry>, i: nat)
    requires Inv(s, initial) && i < |s.consumers|
    ensures ConsumerInv(Step(s, m), Step(s, m).consumers[i])
  {
    hide Conserved, Found, Newest, Remaining, Returned, Swapped;
    var c := s.consumers[i];
    assert ConsumerInv(s, c);
    if i == m.i {
      if c.phase.Holding? { ScanSplits(c.phase.raw.entries, c.hash, c.phase.now); }
    } else {
      hide AfterRead;
      StepElsewhere(s, m, i);
    }
  }

  lemma StepElsewhere(s: System, m: Move, i: nat)
    requires i < |s.consumers| && i != m.i
    ensures Step(s, m).consumers[i] == s.consumers[i]
    ensures (Step(s, m).row == s.row && Step(s, m).wins == s.wins) || Step(s, m).wins == s.wins + 1
  {
  }

  lemma StepKeepsInv(s: System, m: Move, initial: multiset<Entry>)
    requires Inv(s, initial)
    ensures Inv(Step(s, m), initial)
  {
    hide Conserved, ConsumerInv;
    StepConserves(s, m, initial);
    forall i | 0 <= i < |s.consumers|
      ensures ConsumerInv(Step(s, m), Step(s, m).consumers[i])
    {
      StepKeepsConsumer(s, m, initial, i);
    }
  }

  lemma {:induction false} StartReturnsNone(consumers: seq<Consumer>)
    requires forall c <- consumers :: c.phase.Ready?
    ensures Returned(consumers) == multiset{}
  {
    if consumers == [] {
    } else {
      StartReturnsNone(consumers[1..]);
    }
  }

  lemma {:induction false} RunKeepsInv(row: Option<Stored>, hashes: seq<string>, moves: seq<Move>)
    ensures Inv(Run(Start(row, hashes), moves), multiset(Entries(row)))
  {
    if moves == [] {
      StartReturnsNone(Start(row, hashes).consumers);
    } else {
      RunKeepsInv(row, hashes, moves[..|moves| - 1]);
      StepKeepsInv(Run(Start(row, hashes), moves[..|moves| - 1]), moves[|moves| - 1], multiset(Entries(row)));
    }
  }

  lemma Grows(a: multiset<Entry>, b: multiset<Entry>, c: multiset<Entry>)
    requires a <= b
    ensures a <= c + b
  {
  }

  lemma {:induction false} ReturnedPair(consumers: seq<Consumer>, i: nat, j: nat)
    requires i < j < |consumers|
    ensures ReturnedBy(consumers[i]) + ReturnedBy(consumers[j]) <= Returned(consumers)
  {
    hide ReturnedBy;
    if i > 0 {
      ReturnedPair(consumers[1..], i - 1, j - 1);
      Grows(ReturnedBy(consumers[i]) + ReturnedBy(consumers[j]), Returned(consumers[1..]), ReturnedBy(consumers[0]));
    } else {
      ReturnedOne(consumers[1..], j - 1);
    }
  }

  ghost predicate DistinctHashes(entries: seq<Entry>) {
    forall a, b :: 0 <= a < b < |entries| ==> entries[a].tokenHash != entries[b].tokenHash
  }

  lemma {:induction false} ReturnedOne(consumers: seq<Consumer>, i: nat)
    requires i < |consumers|
    ensures ReturnedBy(consumers[i]) <= Returned(consumers)
  {
    if i == 0 {
    } else {
      ReturnedOne(consumers[1..], i - 1);
    }
  }

  /** In every interleaving a stored token goes to at most one caller, and only to one that presented it. */
  lemma {:induction false} EachTokenOnce(row: Option<Stored>, hashes: seq<string>, moves: seq<Move>, i: nat, j: nat)
    requires DistinctHashes(Entries(row))
    requires var after := Run(Start(row, hashes), moves).consumers;
             i < j < |after| && after[i].phase.Done? && after[j].phase.Done?
             && after[i].phase.result.Some? && after[j].phase.result.Some?
    ensures var after := Run(Start(row, hashes), moves).consumers;
            && after[i].phase.result.value.tokenHash == after[i].hash
            && after[i].phase.result.value in Entries(row)
            && after[i].phase.result.value.tokenHash != after[j].phase.result.value.tokenHash
  {
    RunKeepsInv(row, hashes, moves);
    var s := Run(Start(row, hashes), moves);
    var a, b := s.consumers[i].phase.result.value, s.consumers[j].phase.result.value;
    assert ConsumerInv(s, s.consumers[i]);
    ReturnedPair(s.consumers, i, j);
    assert multiset{a} + multiset{b} <= multiset(Entries(row));
    TwoPlaces(Entries(row), a, b);
  }

  lemma TwoPlaces(entries: seq<Entry>, a: Entry, b: Entry)
    requires multiset{a} + multiset{b} <= multiset(entries)
    requires DistinctHashes(entries)
    ensures a in entries && a.tokenHash != b.tokenHash
  {
    assert (multiset{a} + multiset{b})[a] <= multiset(entries)[a] && (multiset{a} + multiset{b})[b] <= multiset(entries)[b];
    assert a in multiset(entries) && b in multiset(entries);
    OnePlace(entries, a);
  }

  lemma {:induction false} OnePlace(entries: seq<Entry>, a: Entry)
    requires DistinctHashes(entries)
    ensures multiset(entries)[a] <= 1
  {
    if entries == [] {
    } else {
      assert entries == [entries[0]] + entries[1..];
      OnePlace(entries[1..], a);
      assert entries[0] !in entries[1..];
    }
  }

  /**
   A caller is refused only if its token was not stored, unexpired, when it last read, or after
   three other callers had succeeded.
   */
  lemma {:induction false} RefusedOnlyWhen(row: Option<Stored>, hashes: seq<string>, moves: seq<Move>, m: Move)
    requires var s := Run(Start(row, hashes), moves);
             m.i < |s.consumers| && !s.consumers[m.i].phase.Done? && Step(s, m).consumers[m.i].phase == Done(None)
    ensures var s := Run(Start(row, hashes), moves);
            || (m.Read? && !Presents(Entries(s.row), s.consumers[m.i].hash, m.now))
            || s.wins >= 3
  {
    if m.Read? { FoundIff(Entries(Run(Start(row, hashes), moves).row), Run(Start(row, hashes), moves).consumers[m.i].hash, m.now); }
    RunKeepsInv(row, hashes, moves);
    var s := Run(Start(row, hashes), moves);
    var c := s.consumers[m.i];
    assert ConsumerInv(s, c);
  }

  /** A caller whose token is stored and unexpired, and whom nobody overtakes between reading and swapping, gets it. */
  lemma UndisturbedSucceeds(s: System, i: nat, now: int)
    requires i < |s.consumers| && s.consumers[i].phase.Ready? && Presents(Entries(s.row), s.consumers[i].hash, now)
    ensures var after := Step(Step(s, Read(i, now)), Swap(i));
            && after.consumers[i].phase.Done? && after.consumers[i].phase.result.Some?
            && after.consumers[i].phase.result.value.tokenHash == s.consumers[i].hash
            && after.consumers[i].phase.result.value.expiresAt > now
  {
    hide Remaining, Newest;
    FoundIff(Entries(s.row), s.consumers[i].hash, now);
    ScanSplits(Entries(s.row), s.consumers[i].hash, now);
  }

  /** No entry of a list of at most ten is lost: what no caller got had expired when a swap dropped it. */
  lemma {:induction false} DroppedHadExpired(s: System, m: Move, initial: multiset<Entry>, e: Entry)
    requires Inv(s, initial) && |Entries(s.row)| <= MAX_PENDING && Step(s, m).dropped[e] > s.dropped[e]
    ensures m.Swap? && m.i < |s.consumers| && s.consumers[m.i].phase.Holding? && e.expiresAt <= s.consumers[m.i].phase.now
  {
    var c := s.consumers[m.i];
    assert ConsumerInv(s, c);
    var raw, now := c.phase.raw.entries, c.phase.now;
    ScanSplits(raw, c.hash, now);
    NewestWithin(Remaining(raw, c.hash, now));
    if e.expiresAt > now { UnexpiredStay(raw, c.hash, now, e); }
  }

  lemma {:induction false} UnexpiredStay(entries: seq<Entry>, hash: string, now: int, e: Entry)
    requires e.expiresAt > now && Found(entries, hash, now).Some?
    ensures multiset(Remaining(entries, hash, now))[e] + ResultOf(Found(entries, hash, now))[e] == multiset(entries)[e]
  {
    assert entries == [entries[0]] + entries[1..];
    if entries[0].expiresAt > now && entries[0].tokenHash == hash {
      UnexpiredKept(entries[1..], now, e);
    } else {
      UnexpiredStay(entries[1..], hash, now, e);
    }
  }

  lemma {:induction false} UnexpiredKept(entries: seq<Entry>, now: int, e: Entry)
    requires e.expiresAt > now
    ensures multiset(Unexpired(entries, now))[e] == multiset(entries)[e]
  {
    if entries == [] {
    } else {
      assert entries == [entries[0]] + entries[1..];
      UnexpiredKept(entries[1..], now, e);
    }
  }
}
