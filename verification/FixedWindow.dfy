/** The in-memory limiter of one isolate: a map of counters, swept when it grows too large. */
module FixedWindow {

  const SWEEP_ABOVE := 10000

  datatype Bucket = Bucket(start: int, count: nat)

  datatype Call = Call(key: string, limit: nat, window: nat, now: int)

  type Buckets = map<string, Bucket>

  predicate Expired(b: Bucket, window: nat, now: int) { now - b.start > window }

  /** The caller's bucket after its call: counted in, or begun anew. */
  function Charged(buckets: Buckets, c: Call): Bucket {
    if c.key in buckets && !Expired(buckets[c.key], c.window, c.now)
    then Bucket(buckets[c.key].start, buckets[c.key].count + 1)
    else Bucket(c.now, 1)
  }

  predicate Allowed(buckets: Buckets, c: Call) { Charged(buckets, c).count <= c.limit }

  /** A limiter that never sweeps. */
  function Plain(buckets: Buckets, c: Call): Buckets { buckets[c.key := Charged(buckets, c)] }

  function Sweep(buckets: Buckets, window: nat, now: int): Buckets {
    map k | k in buckets && !Expired(buckets[k], window, now) :: buckets[k]
  }

  /** The sweep applies the window of whoever happens to call. */
  function Step(buckets: Buckets, c: Call): Buckets {
    var after := Plain(buckets, c);
    if |after| > SWEEP_ABOVE then Sweep(after, c.window, c.now) else after
  }

  function Run(calls: seq<Call>): Buckets {
    if calls == [] then map[] else Step(Run(calls[..|calls| - 1]), calls[|calls| - 1])
  }

  function PlainRun(calls: seq<Call>): Buckets {
    if calls == [] then map[] else Plain(PlainRun(calls[..|calls| - 1]), calls[|calls| - 1])
  }

  class Limiter {
    var buckets: Buckets

    constructor ()
      ensures buckets == map[]
    {
      buckets := map[];
    }

    method Check(c: Call) returns (ok: bool)
      modifies this
      ensures buckets == Step(old(buckets), c) && ok == Allowed(old(buckets), c)
    {
      var bucket := Bucket(c.now, 0);
      if c.key in buckets && c.now - buckets[c.key].start <= c.window {
        bucket := buckets[c.key];
      }
      bucket := bucket.(count := bucket.count + 1);
      buckets := buckets[c.key := bucket];
      if |buckets| > SWEEP_ABOVE {
        SweepExpired(c.window, c.now);
      }
      ok := bucket.count <= c.limit;
    }

    method SweepExpired(window: nat, now: int)
      modifies this
      ensures buckets == Sweep(old(buckets), window, now)
    {
      var keys := buckets.Keys;
      while keys != {}
        invariant keys <= old(buckets).Keys
        invariant forall k :: k in buckets <==>
                    k in old(buckets) && (k in keys || !Expired(old(buckets)[k], window, now))
        invariant forall k :: k in buckets ==> buckets[k] == old(buckets)[k]
        decreases |keys|
      {
        var k :| k in keys;
        if now - buckets[k].start > window {
          buckets := buckets - {k};
        }
        keys := keys - {k};
      }
    }
  }

  // ----- When the sweep is invisible -----

  /** What a call finds of its key: nothing once expired. */
  function Live(buckets: Buckets, key: string, window: nat, now: int): (live: seq<Bucket>) {
    if key in buckets && !Expired(buckets[key], window, now) then [buckets[key]] else []
  }

  /** The sweep after call `i` removes the counter that call `j`, its key's next, would have found running. */
  predicate Drops(calls: seq<Call>, i: int, key: string, window: nat, now: int)
    requires 0 <= i < |calls|
  {
    var after := Plain(Run(calls[..i]), calls[i]);
    && |after| > SWEEP_ABOVE && key in after
    && Expired(after[key], calls[i].window, calls[i].now) && !Expired(after[key], window, now)
  }

  /** The key is not called between the two calls. */
  predicate Unused(calls: seq<Call>, key: string, i: int, j: int)
    requires -1 <= i && j <= |calls|
  {
    forall k :: i < k < j ==> calls[k].key != key
  }

  ghost predicate Unharmed(calls: seq<Call>, key: string) {
    forall i, j :: 0 <= i < j < |calls| && calls[j].key == key && Unused(calls, key, i, j) ==>
      !Drops(calls, i, key, calls[j].window, calls[j].now)
  }

  /** Every call of the key counts as in a limiter that never sweeps. */
  ghost predicate SameCharges(calls: seq<Call>, key: string) {
    forall j :: 0 <= j < |calls| && calls[j].key == key ==>
      Charged(Run(calls[..j]), calls[j]).count == Charged(PlainRun(calls[..j]), calls[j]).count
  }

  lemma RunSnoc(calls: seq<Call>, n: nat)
    requires n < |calls|
    ensures Run(calls[..n + 1]) == Step(Run(calls[..n]), calls[n])
    ensures PlainRun(calls[..n + 1]) == Plain(PlainRun(calls[..n]), calls[n])
  {
    assert calls[..n + 1][..n] == calls[..n];
  }

  lemma StepLive(buckets: Buckets, c: Call, key: string, window: nat, now: int)
    ensures var after := Plain(buckets, c);
            Live(Step(buckets, c), key, window, now) == Live(after, key, window, now)
            <==> !(|after| > SWEEP_ABOVE && key in after && Expired(after[key], c.window, c.now)
                   && !Expired(after[key], window, now))
  {
  }

  lemma PlainLive(swept: Buckets, plain: Buckets, c: Call, key: string, window: nat, now: int)
    requires if c.key == key then Live(swept, key, c.window, c.now) == Live(plain, key, c.window, c.now)
             else Live(swept, key, window, now) == Live(plain, key, window, now)
    ensures Live(Plain(swept, c), key, window, now) == Live(Plain(plain, c), key, window, now)
    ensures c.key == key ==> Charged(swept, c) == Charged(plain, c)
  {
    if c.key == key && key in plain && !Expired(plain[key], c.window, c.now) {
      assert Live(plain, key, c.window, c.now)[0] == plain[key];
    }
  }

  /** Nothing was dropped that the next call of the key, at `now` with `window`, would find. */
  ghost predicate NothingDropped(calls: seq<Call>, n: int, key: string, window: nat, now: int)
    requires n <= |calls|
  {
    forall i :: 0 <= i < n && Unused(calls, key, i, n) ==> !Drops(calls, i, key, window, now)
  }

  lemma NothingDroppedBefore(calls: seq<Call>, n: nat, key: string, window: nat, now: int)
    requires 0 < n <= |calls| && NothingDropped(calls, n, key, window, now)
    ensures !Drops(calls, n - 1, key, window, now)
    ensures calls[n - 1].key != key ==> NothingDropped(calls, n - 1, key, window, now)
  {
    hide Drops;
    assert Unused(calls, key, n - 1, n);
    assert calls[n - 1].key != key ==>
        forall i :: 0 <= i < n - 1 && Unused(calls, key, i, n - 1) ==> Unused(calls, key, i, n);
  }

  lemma StepSpares(calls: seq<Call>, n: nat, key: string, window: nat, now: int)
    requires 0 < n <= |calls| && !Drops(calls, n - 1, key, window, now)
    ensures Live(Run(calls[..n]), key, window, now) == Live(Plain(Run(calls[..n - 1]), calls[n - 1]), key, window, now)
  {
    hide Run;
    RunSnoc(calls, n - 1);
    StepLive(Run(calls[..n - 1]), calls[n - 1], key, window, now);
  }

  lemma {:induction false} SweptAgrees(calls: seq<Call>, n: nat, key: string, window: nat, now: int)
    requires n <= |calls| && NothingDropped(calls, n, key, window, now)
    requires forall j :: 0 <= j < n && calls[j].key == key ==>
               NothingDropped(calls, j, key, calls[j].window, calls[j].now)
    ensures Live(Run(calls[..n]), key, window, now) == Live(PlainRun(calls[..n]), key, window, now)
  {
    if n > 0 {
      hide Drops, Live, NothingDropped, Plain, Run, PlainRun;
      var c := calls[n - 1];
      NothingDroppedBefore(calls, n, key, window, now);
      if c.key == key {
        SweptAgrees(calls, n - 1, key, c.window, c.now);
      } else {
        SweptAgrees(calls, n - 1, key, window, now);
      }
      PlainLive(Run(calls[..n - 1]), PlainRun(calls[..n - 1]), c, key, window, now);
      StepSpares(calls, n, key, window, now);
      RunSnoc(calls, n - 1);
    } else {
      assert calls[..0] == [];
    }
  }

  /** A dropped counter stays gone until its key is called again; an unswept one stays. */
  lemma {:induction false} StaysUntouched(calls: seq<Call>, from: nat, n: nat, key: string)
    requires from <= n <= |calls| && Unused(calls, key, from - 1, n)
    ensures key !in Run(calls[..from]) ==> key !in Run(calls[..n])
    ensures key in PlainRun(calls[..from]) ==>
              key in PlainRun(calls[..n]) && PlainRun(calls[..n])[key] == PlainRun(calls[..from])[key]
  {
    if from == n {
    } else {
      StaysUntouched(calls, from, n - 1, key);
      RunSnoc(calls, n - 1);
    }
  }

  lemma DroppedIsGone(calls: seq<Call>, i: nat, n: nat, key: string, window: nat, now: int)
    requires i < n <= |calls| && Unused(calls, key, i, n) && Drops(calls, i, key, window, now)
    ensures key !in Run(calls[..n]) && calls[i].key != key && key in Run(calls[..i])
  {
    hide Run;
    RunSnoc(calls, i);
    StaysUntouched(calls, i + 1, n, key);
  }

  lemma {:induction false} CountsPositive(calls: seq<Call>)
    ensures forall k :: k in Run(calls) ==> Run(calls)[k].count > 0
  {
    if calls == [] {
    } else {
      CountsPositive(calls[..|calls| - 1]);
    }
  }

  /** A drop the key's next call would notice: the sweeping limiter starts over, the other counts on. */
  lemma DropIsNoticed(calls: seq<Call>, i: nat, n: nat)
    requires i < n < |calls|
    requires var c := calls[n]; Unused(calls, c.key, i, n) && Drops(calls, i, c.key, c.window, c.now)
    requires forall j :: 0 <= j < n && calls[j].key == calls[n].key ==>
               NothingDropped(calls, j, calls[n].key, calls[j].window, calls[j].now)
    ensures Charged(Run(calls[..n]), calls[n]).count == 1 < Charged(PlainRun(calls[..n]), calls[n]).count
  {
    hide Run, PlainRun, Step;
    var c := calls[n];
    DroppedIsGone(calls, i, n, c.key, c.window, c.now);
    forall k | 0 <= k < i && Unused(calls, c.key, k, i)
      ensures !Drops(calls, k, c.key, c.window, c.now)
    {
      if Drops(calls, k, c.key, c.window, c.now) {
        DroppedIsGone(calls, k, i, c.key, c.window, c.now);
      }
    }
    SweptAgrees(calls, i, c.key, c.window, c.now);
    var bucket := Run(calls[..i])[c.key];
    assert Live(Run(calls[..i]), c.key, c.window, c.now) == [bucket];
    assert Live(PlainRun(calls[..i]), c.key, c.window, c.now)[0] == bucket;
    CountsPositive(calls[..i]);
    StaysUntouched(calls, i, n, c.key);
  }

  /**
   On any calls whatever, with any windows: a key's calls count as if nothing were ever swept
   exactly when no sweep, by the window of its caller, removes a counter that the key's next call
   would have found running by its own.
   */
  lemma {:induction false} SweepInvisibleIff(calls: seq<Call>, key: string)
    ensures SameCharges(calls, key) <==> Unharmed(calls, key)
  {
    hide Charged, Drops, Run, PlainRun;
    if calls == [] {
    } else {
      var n := |calls| - 1;
      var init := calls[..n];
      SweepInvisibleIff(init, key);
      PrefixCharges(calls, n, key);
      PrefixUnharmed(calls, n, key);
      if Unharmed(init, key) && calls[n].key == key {
        LastCharge(calls, key);
      }
    }
  }

  lemma PrefixCharges(calls: seq<Call>, n: nat, key: string)
    requires n + 1 == |calls|
    ensures SameCharges(calls, key) <==>
              && SameCharges(calls[..n], key)
              && (calls[n].key == key ==>
                    Charged(Run(calls[..n]), calls[n]).count == Charged(PlainRun(calls[..n]), calls[n]).count)
  {
    hide Charged, Run, PlainRun;
    assert forall j :: 0 <= j <= n ==> calls[..n][..j] == calls[..j];
    assert forall j :: 0 <= j < n ==> calls[..n][j] == calls[j];
  }

  lemma PrefixDrops(calls: seq<Call>, n: nat, i: nat, j: nat, key: string, window: nat, now: int)
    requires i < j <= n <= |calls|
    ensures Drops(calls[..n], i, key, window, now) == Drops(calls, i, key, window, now)
    ensures Unused(calls[..n], key, i, j) == Unused(calls, key, i, j)
  {
    assert calls[..n][..i] == calls[..i];
  }

  lemma PrefixUnharmed(calls: seq<Call>, n: nat, key: string)
    requires n + 1 == |calls|
    ensures Unharmed(calls, key) <==>
              && Unharmed(calls[..n], key)
              && (calls[n].key == key ==> NothingDropped(calls, n, key, calls[n].window, calls[n].now))
    ensures Unharmed(calls[..n], key) ==>
              forall j :: 0 <= j < n && calls[j].key == key ==>
                NothingDropped(calls, j, key, calls[j].window, calls[j].now)
  {
    hide Drops, Unused;
    forall i, j | 0 <= i < j < n
      ensures Drops(calls[..n], i, key, calls[j].window, calls[j].now)
           == Drops(calls, i, key, calls[j].window, calls[j].now)
      ensures Unused(calls[..n], key, i, j) == Unused(calls, key, i, j)
      ensures calls[..n][j] == calls[j]
    {
      PrefixDrops(calls, n, i, j, key, calls[j].window, calls[j].now);
    }
  }

  lemma LastCharge(calls: seq<Call>, key: string)
    requires calls != [] && calls[|calls| - 1].key == key && Unharmed(calls[..|calls| - 1], key)
    ensures var n, c := |calls| - 1, calls[|calls| - 1];
            NothingDropped(calls, n, key, c.window, c.now)
            <==> Charged(Run(calls[..n]), c).count == Charged(PlainRun(calls[..n]), c).count
  {
    hide Charged, Drops, Live, Run, PlainRun, Unused;
    var n, c := |calls| - 1, calls[|calls| - 1];
    PrefixUnharmed(calls, n, key);
    if NothingDropped(calls, n, key, c.window, c.now) {
      SweptAgrees(calls, n, key, c.window, c.now);
      PlainLive(Run(calls[..n]), PlainRun(calls[..n]), c, key, c.window, c.now);
    } else {
      var i :| 0 <= i < n && Unused(calls, key, i, n) && Drops(calls, i, key, c.window, c.now);
      DropIsNoticed(calls, i, n);
    }
  }

  ghost predicate Nondecreasing(calls: seq<Call>) {
    forall i, j :: 0 <= i < j < |calls| ==> calls[i].now <= calls[j].now
  }

  /** In particular: on a clock that never runs back, while no earlier call has a shorter window than a call of the key. */
  lemma SweepInvisible(calls: seq<Call>, key: string)
    requires Nondecreasing(calls)
    requires forall i, j :: 0 <= i < j < |calls| && calls[j].key == key ==> calls[i].window >= calls[j].window
    ensures SameCharges(calls, key)
  {
    hide Run, SameCharges;
    SweepInvisibleIff(calls, key);
  }

  // ----- At most twice the limit -----

  /** An admitted call and the start of the bucket it was counted in. */
  datatype Admission = Admission(at: int, start: int)

  function Admissions(calls: seq<Call>, key: string): seq<Admission> {
    if calls == [] then []
    else
      var init, c := calls[..|calls| - 1], calls[|calls| - 1];
      Admissions(init, key) + Admitted(Run(init), c, key)
  }

  function Admitted(buckets: Buckets, c: Call, key: string): seq<Admission> {
    if c.key == key && Allowed(buckets, c) then [Admission(c.now, Charged(buckets, c).start)] else []
  }

  function CountIn(log: seq<Admission>, low: int, high: int): nat {
    if log == [] then 0
    else CountIn(log[..|log| - 1], low, high) + if low <= log[|log| - 1].at <= high then 1 else 0
  }

  /** A bucket's admissions, and those of them that came after the instant it was begun. */
  function CountOf(log: seq<Admission>, start: int): nat {
    if log == [] then 0
    else CountOf(log[..|log| - 1], start) + if log[|log| - 1].start == start then 1 else 0
  }

  function CountBehind(log: seq<Admission>, start: int): nat {
    if log == [] then 0
    else CountBehind(log[..|log| - 1], start) + if log[|log| - 1].start == start < log[|log| - 1].at then 1 else 0
  }

  /** The key is called with no higher limit and no shorter window. */
  ghost predicate Within(calls: seq<Call>, key: string, limit: nat, window: nat) {
    forall c <- calls :: c.key == key ==> c.limit <= limit && c.window >= window
  }

  /** A sweep after the call spares the key's counter until its window is over. */
  predicate Spares(before: Buckets, c: Call, key: string, window: nat) {
    var after := Plain(before, c);
    |after| > SWEEP_ABOVE && key in after && Expired(after[key], c.window, c.now) ==> Expired(after[key], window, c.now)
  }

  ghost predicate AllSpare(calls: seq<Call>, key: string, window: nat) {
    forall i :: 0 <= i < |calls| ==> Spares(Run(calls[..i]), calls[i], key, window)
  }

  /** So it is while every sweep is by a call with a window as long, and while there are few keys. */
  lemma SparedByLongWindowsOrFewKeys(calls: seq<Call>, key: string, window: nat)
    requires forall i :: 0 <= i < |calls| ==>
               calls[i].window >= window || |Plain(Run(calls[..i]), calls[i])| <= 10_000
    ensures AllSpare(calls, key, window)
  {
    hide Plain, Run;
  }

  /** Of two buckets of a key the one is over before the other begins, more than a window later. */
  predicate Before(a: Admission, start: int, window: nat) {
    a.start + window < start && a.at <= start
  }

  ghost predicate Spaced(log: seq<Admission>, window: nat) {
    && (forall a <- log :: a.start <= a.at)
    && (forall a <- log, b <- log :: a.start == b.start || Before(a, b.start, window) || Before(b, a.start, window))
  }

  ghost predicate Counted(log: seq<Admission>, buckets: Buckets, key: string, limit: nat, window: nat, now: int) {
    && Spaced(log, window)
    && (forall a <- log :: a.at <= now && CountOf(log, a.start) <= limit && CountBehind(log, a.start) < limit)
    && if key !in buckets then forall a <- log :: a.start + window < now
       else
         var bucket := buckets[key];
         && bucket.start <= now && CountOf(log, bucket.start) <= bucket.count
         && CountBehind(log, bucket.start) < bucket.count
         && forall a <- log :: a.start == bucket.start || Before(a, bucket.start, window)
  }

  lemma CountOfSnoc(log: seq<Admission>, a: Admission, start: int)
    ensures CountOf(log + [a], start) == CountOf(log, start) + if a.start == start then 1 else 0
    ensures CountBehind(log + [a], start) == CountBehind(log, start) + if a.start == start < a.at then 1 else 0
  {
    assert (log + [a])[..|log|] == log;
  }

  lemma {:induction false} CountOfNone(log: seq<Admission>, start: int)
    requires forall a <- log :: a.start != start
    ensures CountOf(log, start) == 0 == CountBehind(log, start)
  {
    if log == [] {
    } else {
      assert forall a <- log[..|log| - 1] :: a in log;
      CountOfNone(log[..|log| - 1], start);
    }
  }

  lemma ChargeCounts(log: seq<Admission>, buckets: Buckets, c: Call, limit: nat, window: nat)
    requires Counted(log, buckets, c.key, limit, window, c.now) && c.limit <= limit && c.window >= window
    ensures Counted(log + Admitted(buckets, c, c.key), Plain(buckets, c), c.key, limit, window, c.now)
  {
    var charged := Charged(buckets, c);
    var a := Admission(c.now, charged.start);
    if c.key !in buckets || Expired(buckets[c.key], c.window, c.now) {
      assert forall b <- log :: Before(b, c.now, window);
      CountOfNone(log, c.now);
    }
    forall start {
      CountOfSnoc(log, a, start);
    }
    assert log + [] == log;
  }

  /** Another key's call, a sweep, and time passing leave what is counted. */
  lemma SweepCounts(log: seq<Admission>, buckets: Buckets, key: string, limit: nat, window: nat, wide: nat, now: int)
    requires Counted(log, buckets, key, limit, window, now)
    requires key in buckets && Expired(buckets[key], wide, now) ==> Expired(buckets[key], window, now)
    ensures Counted(log, Sweep(buckets, wide, now), key, limit, window, now)
  {
    if key in buckets && Expired(buckets[key], wide, now) {
      assert forall a <- log :: a.start + window < now;
    }
  }

  lemma OtherCounts(log: seq<Admission>, buckets: Buckets, c: Call, key: string, limit: nat, window: nat, now: int)
    requires Counted(log, buckets, key, limit, window, now) && c.key != key && now <= c.now
    ensures Counted(log, Plain(buckets, c), key, limit, window, c.now)
  {
  }

  lemma LaterCounts(log: seq<Admission>, buckets: Buckets, key: string, limit: nat, window: nat, now: int, later: int)
    requires Counted(log, buckets, key, limit, window, now) && now <= later
    ensures Counted(log, buckets, key, limit, window, later)
  {
  }

  lemma NoneCounted(key: string, limit: nat, window: nat, now: int)
    ensures Counted([], map[], key, limit, window, now)
  {
  }

  lemma {:induction false} RunCounts(calls: seq<Call>, key: string, limit: nat, window: nat, now: int)
    requires Nondecreasing(calls) && Within(calls, key, limit, window) && AllSpare(calls, key, window)
    requires forall c <- calls :: c.now <= now
    ensures Counted(Admissions(calls, key), Run(calls), key, limit, window, now)
  {
    hide Allowed, Charged, Counted, Nondecreasing, Plain, Sweep;
    if calls == [] {
      NoneCounted(key, limit, window, now);
    } else {
      var init, c := calls[..|calls| - 1], calls[|calls| - 1];
      var log, before := Admissions(init, key), Run(init);
      InitOrdered(calls, key, limit, window);
      RunCounts(init, key, limit, window, c.now);
      if c.key == key {
        ChargeCounts(log, before, c, limit, window);
      } else {
        assert log + Admitted(before, c, key) == log;
        OtherCounts(log, before, c, key, limit, window, c.now);
      }
      if |Plain(before, c)| > SWEEP_ABOVE {
        SweepCounts(Admissions(calls, key), Plain(before, c), key, limit, window, c.window, c.now);
      }
      LaterCounts(Admissions(calls, key), Run(calls), key, limit, window, c.now, now);
    }
  }

  lemma InitOrdered(calls: seq<Call>, key: string, limit: nat, window: nat)
    requires calls != [] && Nondecreasing(calls) && Within(calls, key, limit, window) && AllSpare(calls, key, window)
    ensures var init, c := calls[..|calls| - 1], calls[|calls| - 1];
            && Nondecreasing(init) && Within(init, key, limit, window) && AllSpare(init, key, window)
            && Spares(Run(init), c, key, window) && (c.key == key ==> c.limit <= limit && c.window >= window)
            && forall x <- init :: x.now <= c.now
  {
    hide Run, Spares;
    var init, c := calls[..|calls| - 1], calls[|calls| - 1];
    assert forall i :: 0 <= i < |init| ==> init[..i] == calls[..i];
    forall x | x in init ensures x.now <= c.now {
      var i :| 0 <= i < |init| && init[i] == x;
      assert calls[i] == x;
    }
  }

  /** Admissions of an interval as long as the window lie in two buckets at most. */
  lemma {:induction false} TwoBuckets(log: seq<Admission>, low: int, high: int, earlier: int, later: int)
    requires forall a <- log :: low <= a.at <= high ==> a.start == earlier || a.start == later
    requires earlier < low
    ensures CountIn(log, low, high) <= CountBehind(log, earlier) + CountOf(log, later)
  {
    if log == [] {
    } else {
      assert forall a <- log[..|log| - 1] :: a in log;
      TwoBuckets(log[..|log| - 1], low, high, earlier, later);
    }
  }

  lemma StartsWithin(log: seq<Admission>, window: nat, low: int) returns (earlier: int, later: int)
    requires Spaced(log, window)
    ensures earlier < low <= later
    ensures forall a <- log :: low <= a.at <= low + window ==> a.start == earlier || a.start == later
  {
    earlier, later := low - 1, low;
    if a :| a in log && low <= a.at <= low + window && a.start < low { earlier := a.start; }
    if a :| a in log && low <= a.at <= low + window && a.start >= low { later := a.start; }
  }

  lemma AtMostLimit(log: seq<Admission>, start: int, limit: nat)
    requires forall a <- log :: CountOf(log, a.start) <= limit && CountBehind(log, a.start) < limit
    ensures CountOf(log, start) <= limit && (limit > 0 ==> CountBehind(log, start) < limit)
    ensures limit == 0 ==> log == []
  {
    if forall a <- log :: a.start != start { CountOfNone(log, start); }
    assert log != [] ==> log[0] in log;
  }

  /** What an interval as long as the window can hold: one less than twice the limit. */
  function MostIn(limit: nat): nat { if limit == 0 then 0 else 2 * limit - 1 }

  /**
   Fixed window: no closed interval as long as the window holds as much as twice the limit of a
   key's admissions, while no sweep removes its counter before the window is over.
   */
  lemma LessThanTwice(calls: seq<Call>, key: string, limit: nat, window: nat, low: int)
    requires Nondecreasing(calls) && Within(calls, key, limit, window) && AllSpare(calls, key, window)
    ensures CountIn(Admissions(calls, key), low, low + window) <= MostIn(limit)
  {
    hide Admissions, Run;
    var log := Admissions(calls, key);
    if calls != [] { InitOrdered(calls, key, limit, window); }
    RunCounts(calls, key, limit, window, if calls == [] then 0 else calls[|calls| - 1].now);
    var earlier, later := StartsWithin(log, window, low);
    TwoBuckets(log, low, low + window, earlier, later);
    AtMostLimit(log, earlier, limit);
    AtMostLimit(log, later, limit);
  }

  // ----- Refused only when spent -----

  /** How often the key was called from `low` on. */
  function CallsFrom(calls: seq<Call>, key: string, low: int): nat {
    if calls == [] then 0
    else
      CallsFrom(calls[..|calls| - 1], key, low)
      + if calls[|calls| - 1].key == key && calls[|calls| - 1].now >= low then 1 else 0
  }

  lemma {:induction false} CallsFromMonotone(calls: seq<Call>, key: string, low: int, higher: int)
    requires low <= higher
    ensures CallsFrom(calls, key, higher) <= CallsFrom(calls, key, low)
  {
    if calls == [] {
    } else {
      CallsFromMonotone(calls[..|calls| - 1], key, low, higher);
    }
  }

  lemma {:induction false} CountsCalls(calls: seq<Call>, key: string)
    requires Nondecreasing(calls)
    ensures key in Run(calls) ==> Run(calls)[key].count <= CallsFrom(calls, key, Run(calls)[key].start)
    ensures key in Run(calls) ==> calls != [] && Run(calls)[key].start <= calls[|calls| - 1].now
  {
    if calls == [] {
    } else {
      hide Sweep;
      var init, c := calls[..|calls| - 1], calls[|calls| - 1];
      assert forall i, j :: 0 <= i < j < |init| ==> init[i] == calls[i] && init[j] == calls[j];
      CountsCalls(init, key);
      SweepKeepsOrDrops(Plain(Run(init), c), c.window, c.now, key);
      assert init != [] ==> init[|init| - 1].now <= c.now;
    }
  }

  lemma SweepKeepsOrDrops(buckets: Buckets, window: nat, now: int, key: string)
    ensures var after := Sweep(buckets, window, now); key in after ==> key in buckets && after[key] == buckets[key]
  {
  }

  /** A call is refused only after as many earlier calls of the key within its window as its limit allows. */
  lemma RefusedOnlyWhenSpent(calls: seq<Call>, c: Call)
    requires Nondecreasing(calls) && !Allowed(Run(calls), c)
    ensures CallsFrom(calls, c.key, c.now - c.window) >= c.limit
  {
    hide Run;
    CountsCalls(calls, c.key);
    if c.key in Run(calls) && !Expired(Run(calls)[c.key], c.window, c.now) {
      CallsFromMonotone(calls, c.key, c.now - c.window, Run(calls)[c.key].start);
    }
  }

  function Burst(n: nat, c: Call): seq<Call> { seq(n, _ => c) }

  lemma ChargeOnce(c: Call, bucket: Bucket)
    requires !Expired(bucket, c.window, c.now) && bucket.count < c.limit
    ensures Step(map[c.key := bucket], c) == map[c.key := Bucket(bucket.start, bucket.count + 1)]
    ensures Allowed(map[c.key := bucket], c)
  {
    assert |map[c.key := Bucket(bucket.start, bucket.count + 1)]| == 1;
  }

  lemma BurstSnoc(calls: seq<Call>, n: nat, c: Call)
    ensures calls + Burst(n + 1, c) == calls + Burst(n, c) + [c] && calls + Burst(0, c) == calls
  {
  }

  lemma {:induction false} BurstCharges(calls: seq<Call>, n: nat, c: Call, bucket: Bucket, low: int, high: int)
    requires Run(calls) == map[c.key := bucket] && !Expired(bucket, c.window, c.now) && bucket.count + n <= c.limit
    ensures var all := calls + Burst(n, c);
            && Run(all) == map[c.key := Bucket(bucket.start, bucket.count + n)]
            && CountIn(Admissions(all, c.key), low, high)
               == CountIn(Admissions(calls, c.key), low, high) + if low <= c.now <= high then n else 0
  {
    hide Admissions, Allowed, Burst, CountIn, Run, Step;
    if n > 0 {
      BurstCharges(calls, n - 1, c, bucket, low, high);
      OneMore(calls + Burst(n - 1, c), c, c.key, low, high);
      ChargeOnce(c, Bucket(bucket.start, bucket.count + n - 1));
      BurstSnoc(calls, n - 1, c);
    } else {
      BurstSnoc(calls, 0, c);
    }
  }

  lemma OneMore(calls: seq<Call>, c: Call, key: string, low: int, high: int)
    ensures Run(calls + [c]) == Step(Run(calls), c)
    ensures CountIn(Admissions(calls + [c], key), low, high)
         == CountIn(Admissions(calls, key), low, high)
            + if c.key == key && Allowed(Run(calls), c) && low <= c.now <= high then 1 else 0
  {
    assert (calls + [c])[..|calls|] == calls;
    var log, last := Admissions(calls, key), Admitted(Run(calls), c, key);
    if last == [] { assert log + last == log; } else { assert (log + last)[..|log|] == log; }
  }

  /**
   No smaller bound holds, for any limit and window: one call, the rest of the limit as the window
   ends, a new limit after it.
   */
  lemma BoundIsReached(limit: nat, window: nat)
    requires limit > 0 && window > 0
    ensures var calls := [Call("k", limit, window, 0)] + Burst(limit - 1, Call("k", limit, window, window))
                         + [Call("k", limit, window, window + 1)]
                         + Burst(limit - 1, Call("k", limit, window, window + 1));
            CountIn(Admissions(calls, "k"), 1, 1 + window) == MostIn(limit)
  {
    hide Admissions, Burst, CountIn, Run;
    var first, end := Call("k", limit, window, 0), Call("k", limit, window, window);
    var anew := Call("k", limit, window, window + 1);
    EmptyRun(1, 1 + window);
    OneMore([], first, "k", 1, 1 + window);
    assert [] + [first] == [first] && Run([first]) == map["k" := Bucket(0, 1)];
    BurstCharges([first], limit - 1, end, Bucket(0, 1), 1, 1 + window);
    var spent := [first] + Burst(limit - 1, end);
    OneMore(spent, anew, "k", 1, 1 + window);
    assert Run(spent + [anew]) == map["k" := Bucket(window + 1, 1)];
    BurstCharges(spent + [anew], limit - 1, anew, Bucket(window + 1, 1), 1, 1 + window);
  }

  lemma EmptyRun(low: int, high: int)
    ensures Run([]) == map[] && CountIn(Admissions([], "k"), low, high) == 0
  {
  }

  // ----- A shorter window of another key -----

  /** Names of distinct lengths are distinct keys. */
  function Name(n: nat): string { seq(n, _ => 'k') }

  function Crowd(n: nat): seq<Call> {
    if n == 0 then [] else Crowd(n - 1) + [Call(Name(n - 1), 1, 100, 0)]
  }

  lemma CrowdSnoc(n: nat)
    requires n > 0
    ensures Run(Crowd(n)) == Step(Run(Crowd(n - 1)), Call(Name(n - 1), 1, 100, 0))
    ensures PlainRun(Crowd(n)) == Plain(PlainRun(Crowd(n - 1)), Call(Name(n - 1), 1, 100, 0))
  {
    CrowdLength(n - 1);
    CrowdLength(n);
    assert Crowd(n)[..n - 1] == Crowd(n - 1);
  }

  ghost predicate Crowded(buckets: Buckets, n: nat) {
    && |buckets| == n
    && (forall k :: k in buckets <==> |k| < n && k == Name(|k|))
    && (forall k :: k in buckets ==> buckets[k] == Bucket(0, 1))
  }

  lemma NameLength(n: nat)
    ensures |Name(n)| == n
  {
  }

  lemma CrowdGrows(buckets: Buckets, n: nat)
    requires Crowded(buckets, n)
    ensures Crowded(Plain(buckets, Call(Name(n), 1, 100, 0)), n + 1)
  {
    hide Name;
    NameLength(n);
    var c := Call(Name(n), 1, 100, 0);
    assert c.key !in buckets;
    CrowdAdds(buckets, Name(n), n);
    assert Plain(buckets, c) == buckets[Name(n) := Bucket(0, 1)];
  }

  lemma CrowdAdds(buckets: Buckets, name: string, n: nat)
    requires Crowded(buckets, n) && name !in buckets && name == Name(n) && |name| == n
    ensures Crowded(buckets[name := Bucket(0, 1)], n + 1)
  {
    hide Name;
    var after := buckets[name := Bucket(0, 1)];
    assert after.Keys == buckets.Keys + {name} && |after.Keys| == |buckets.Keys| + 1;
    forall k
      ensures k in after <==> |k| < n + 1 && k == Name(|k|)
    {
      assert k in after <==> k in buckets || k == name;
    }
  }

  lemma {:induction false} CrowdFills(n: nat)
    requires n <= SWEEP_ABOVE
    ensures Crowded(Run(Crowd(n)), n) && PlainRun(Crowd(n)) == Run(Crowd(n))
  {
    hide Crowd, Crowded, Name, Plain, PlainRun, Run, Step;
    if n > 0 {
      var before, c := Run(Crowd(n - 1)), Call(Name(n - 1), 1, 100, 0);
      CrowdFills(n - 1);
      CrowdSnoc(n);
      CrowdGrows(before, n - 1);
      NotYetSwept(before, c, n);
    } else {
      EmptyCrowd();
    }
  }

  lemma EmptyCrowd()
    ensures Crowded(map[], 0) && Run(Crowd(0)) == PlainRun(Crowd(0)) == map[]
  {
  }

  lemma NotYetSwept(buckets: Buckets, c: Call, n: nat)
    requires Crowded(Plain(buckets, c), n) && n <= SWEEP_ABOVE
    ensures Step(buckets, c) == Plain(buckets, c)
  {
  }

  lemma {:induction false} CrowdLength(n: nat)
    ensures |Crowd(n)| == n
  {
    if n == 0 {
    } else {
      CrowdLength(n - 1);
    }
  }

  /**
   Mixed windows: one more key, called with a window of one second, sweeps away a counter whose
   own window still runs, so a spent key is admitted again where an unswept limiter refuses.
   */
  lemma ShorterWindowForgets()
    ensures var calls := Crowd(10_000) + [Call(Name(10_000), 1, 1, 2)];
            var again := Call(Name(0), 1, 100, 3);
            Allowed(Run(calls), again) && !Allowed(PlainRun(calls), again)
  {
    hide Crowd;
    var calls, c := Crowd(SWEEP_ABOVE), Call(Name(SWEEP_ABOVE), 1, 1, 2);
    CrowdFills(SWEEP_ABOVE);
    assert (calls + [c])[..|calls|] == calls;
    var before := Run(calls);
    assert |Name(0)| == 0 && |Name(SWEEP_ABOVE)| == SWEEP_ABOVE;
    assert Name(0) in before && before[Name(0)] == Bucket(0, 1);
    assert c.key !in before;
    assert Plain(before, c).Keys == before.Keys + {c.key};
    assert |Plain(before, c)| == SWEEP_ABOVE + 1;
  }
}
