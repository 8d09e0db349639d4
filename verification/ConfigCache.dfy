/**
 A configuration value behind caches: the database, one shared store per data centre, a memo in
 every isolate, and the admin path's own memo on top. Times are milliseconds. The database is
 its whole timeline, a function of time; updates and invalidations may fall anywhere.
 */
module ConfigCache {
  import opened Wrappers

  const MEM_TTL_MS := 30_000

  function Min(a: int, b: int): int { if a < b then a else b }

  function Max(a: int, b: int): int { if a > b then a else b }

  /** The seconds asked for, 60 when none, within 10 and 300. */
  function TtlSec(asked: int): (ttl: int)
    ensures 10 <= ttl <= 300
    ensures ttl == if asked == 0 then 60 else if asked < 10 then 10 else if asked > 300 then 300 else asked
  {
    Max(10, Min(300, if asked == 0 then 60 else asked))
  }

  function MemTtlMs(ttlSec: int): int { Min(MEM_TTL_MS, Max(1000, ttlSec * 1000)) }

  // ----- One isolate, one call at a time -----

  /** A value and when it expires, in a memo or in the store. */
  datatype Kept = Kept(value: string, expiresAt: int)

  predicate Fresh(entries: map<string, Kept>, key: string, now: int) {
    key in entries && now < entries[key].expiresAt
  }

  /** What a call meets on its way: the clock at each stage, and how each awaited operation ends. */
  datatype Weather = Weather(start: int, matchedAt: int, keptAt: int, putAt: int,
                             hasStore: bool, matchWorks: bool, putWorks: bool, loaded: string)

  class SharedConfig {
    var mem: map<string, Kept>
    var store: map<string, Kept>

    constructor ()
      ensures mem == map[] && store == map[]
    {
      mem, store := map[], map[];
    }

    method MemGet(key: string, now: int) returns (value: Option<string>)
      modifies `mem
      ensures value == if Fresh(old(mem), key, now) then Some(old(mem)[key].value) else None
      ensures mem == if value.Some? then old(mem) else old(mem) - {key}
    {
      if key !in mem {
        assert mem - {key} == mem;
        return None;
      }
      if mem[key].expiresAt <= now {
        mem := mem - {key};
        return None;
      }
      return Some(mem[key].value);
    }

    method MemSet(key: string, value: string, ttlSec: int, now: int)
      modifies `mem
      ensures mem == old(mem)[key := Kept(value, now + MemTtlMs(ttlSec))]
    {
      mem := mem[key := Kept(value, now + MemTtlMs(ttlSec))];
    }

    /** The memo answers, then the store, then the loader; each answer is kept on the way back. */
    method ReadSharedConfig(key: string, askedSec: int, w: Weather) returns (value: string)
      modifies this
      ensures Fresh(old(mem), key, w.start) ==>
                value == old(mem)[key].value && mem == old(mem) && store == old(store)
      ensures !Fresh(old(mem), key, w.start) ==>
                mem == old(mem)[key := Kept(value, w.keptAt + MemTtlMs(TtlSec(askedSec)))]
      ensures !Fresh(old(mem), key, w.start) && w.hasStore && w.matchWorks && Fresh(old(store), key, w.matchedAt) ==>
                value == old(store)[key].value && store == old(store)
      ensures !Fresh(old(mem), key, w.start) && !(w.hasStore && w.matchWorks && Fresh(old(store), key, w.matchedAt)) ==>
                && value == w.loaded
                && store == if w.hasStore && w.putWorks
                            then old(store)[key := Kept(value, w.putAt + 1000 * TtlSec(askedSec))] else old(store)
    {
      var ttl := TtlSec(askedSec);
      var memo := MemGet(key, w.start);
      if memo.Some? {
        return memo.value;
      }
      if w.hasStore && w.matchWorks && key in store && w.matchedAt < store[key].expiresAt {
        MemSet(key, store[key].value, ttl, w.keptAt);
        return store[key].value;
      }
      MemSet(key, w.loaded, ttl, w.keptAt);
      if w.hasStore && w.putWorks {
        store := store[key := Kept(w.loaded, w.putAt + 1000 * ttl)];
      }
      return w.loaded;
    }

    method InvalidateSharedConfig(key: string, hasStore: bool, deleteWorks: bool)
      modifies this
      ensures mem == old(mem) - {key}
      ensures store == if hasStore && deleteWorks then old(store) - {key} else old(store)
    {
      mem := mem - {key};
      if hasStore && deleteWorks {
        store := store - {key};
      }
    }
  }

  /** The admin path's own memo. */
  class AdminPath {
    var kept: Option<Kept>

    constructor ()
      ensures kept == None
    {
      kept := None;
    }

    /** `now` is read before the path is resolved, and the lifetime counts from it. */
    method ResolveAdminPath(ttlMs: nat, now: int, resolved: string) returns (value: string)
      modifies this
      ensures var hit := ttlMs > 0 && old(kept).Some? && old(kept).value.value != "" && now < old(kept).value.expiresAt;
              && value == (if hit then old(kept).value.value else resolved)
              && kept == if hit then old(kept) else Some(Kept(resolved, now + ttlMs))
    {
      if ttlMs > 0 && kept.Some? && kept.value.value != "" && kept.value.expiresAt > now {
        return kept.value.value;
      }
      kept := Some(Kept(resolved, now + ttlMs));
      return resolved;
    }
  }

  // ----- All isolates, for one key -----

  /** A cached value, until when it counts as fresh, and when the database last held it for sure. */
  datatype Entry = Entry(value: string, until: int, read: int)

  /** How far a request has come: each step between two of them is one awaited operation. */
  datatype Phase =
    | Asking
    | Hit(value: string, read: int, at: int)
    | Loading
    | Loaded(value: string, read: int)
    | Putting(value: string, read: int)
    | Answered(answer: Answer)

  datatype Answer = Answer(value: string, read: int, at: int)

  /** `admin` is when the admin path's memo was found wanting, if the request is on its behalf. */
  datatype Request = Request(isolate: nat, site: nat, admin: Option<int>, phase: Phase)

  datatype System = System(
    now: int,
    mem: map<nat, Entry>,
    store: map<nat, Entry>,
    adminMemo: map<nat, Entry>,
    requests: seq<Request>,
    adminAnswers: seq<Answer>)

  /** The settings: both lifetimes, and the longest a load (with its store) and a hit take. */
  datatype Timing = Timing(ttlSec: int, adminTtlMs: nat, load: nat, handling: nat)

  datatype Move =
    | Arrive(isolate: nat, site: nat, now: int)
    | ArriveAdmin(isolate: nat, site: nat, now: int)
    | LookUp(i: nat, usable: bool, now: int)
    | KeepHit(i: nat, now: int)
    | LoadValue(i: nat, now: int)
    | KeepLoaded(i: nat, now: int)
    | StoreLoaded(i: nat, stored: bool, now: int)
    | DropMem(isolate: nat, now: int)
    | DropStore(site: nat, now: int)

  function FreshIn(entries: map<nat, Entry>, k: nat, now: int): Option<Entry> {
    if k in entries && now < entries[k].until then Some(entries[k]) else None
  }

  /** A request's answer, kept by the admin path's memo if it asked, counted from when it asked. */
  function Finish(s: System, i: nat, value: string, read: int, t: Timing): System
    requires i < |s.requests|
  {
    var r := s.requests[i];
    var answer := Answer(value, read, s.now);
    var answered := s.(requests := s.requests[i := r.(phase := Answered(answer))]);
    match r.admin
    case None => answered
    case Some(since) =>
      answered.(adminMemo := s.adminMemo[r.isolate := Entry(value, since + t.adminTtlMs, read)],
                adminAnswers := s.adminAnswers + [answer])
  }

  /** Reading the shared configuration begins with the isolate's memo. */
  function Begin(s: System, isolate: nat, site: nat, admin: Option<int>, t: Timing): System {
    var begun := s.(requests := s.requests + [Request(isolate, site, admin, Asking)]);
    match FreshIn(s.mem, isolate, s.now)
    case Some(entry) => Finish(begun, |s.requests|, entry.value, entry.read, t)
    case None => begun
  }

  function Step(before: System, m: Move, t: Timing, db: int -> string): System {
    var s := before.(now := m.now);
    match m
    case Arrive(isolate, site, _) => Begin(s, isolate, site, None, t)
    case ArriveAdmin(isolate, site, _) =>
      (match FreshIn(s.adminMemo, isolate, s.now)
       case Some(entry) => s.(adminAnswers := s.adminAnswers + [Answer(entry.value, entry.read, s.now)])
       case None => Begin(s, isolate, site, Some(s.now), t))
    case LookUp(i, usable, _) =>
      if i < |s.requests| && s.requests[i].phase.Asking? then
        var r := s.requests[i];
        var hit := FreshIn(s.store, r.site, s.now);
        var phase := if usable && hit.Some? then Hit(hit.value.value, hit.value.read, s.now) else Loading;
        s.(requests := s.requests[i := r.(phase := phase)])
      else s
    case KeepHit(i, _) =>
      if i < |s.requests| && s.requests[i].phase.Hit? then
        var r := s.requests[i];
        var entry := Entry(r.phase.value, s.now + MemTtlMs(t.ttlSec), r.phase.read);
        Finish(s.(mem := s.mem[r.isolate := entry]), i, r.phase.value, r.phase.read, t)
      else s
    case LoadValue(i, _) =>
      if i < |s.requests| && s.requests[i].phase.Loading? then
        s.(requests := s.requests[i := s.requests[i].(phase := Loaded(db(s.now), s.now))])
      else s
    case KeepLoaded(i, _) =>
      if i < |s.requests| && s.requests[i].phase.Loaded? then
        var r := s.requests[i];
        var entry := Entry(r.phase.value, s.now + MemTtlMs(t.ttlSec), r.phase.read);
        s.(mem := s.mem[r.isolate := entry], requests := s.requests[i := r.(phase := Putting(r.phase.value, r.phase.read))])
      else s
    case StoreLoaded(i, stored, _) =>
      if i < |s.requests| && s.requests[i].phase.Putting? then
        var r := s.requests[i];
        var entry := Entry(r.phase.value, s.now + 1000 * t.ttlSec, r.phase.read);
        Finish(if stored then s.(store := s.store[r.site := entry]) else s, i, r.phase.value, r.phase.read, t)
      else s
    case DropMem(isolate, _) => s.(mem := s.mem - {isolate})
    case DropStore(site, _) => s.(store := s.store - {site})
  }

  /** Time does not go back, and no awaited operation takes longer than allowed. */
  predicate InTime(s: System, m: Move, t: Timing) {
    && s.now <= m.now
    && forall r <- s.requests ::
         match r.phase
         case Hit(_, _, at) => m.now <= at + t.handling
         case Loaded(_, read) => m.now <= read + t.load
         case Putting(_, read) => m.now <= read + t.load
         case Asking => true
         case Loading => true
         case Answered(_) => true
  }

  function Run(moves: seq<Move>, t: Timing, db: int -> string): System {
    if moves == [] then System(0, map[], map[], map[], [], [])
    else Step(Run(moves[..|moves| - 1], t, db), moves[|moves| - 1], t, db)
  }

  predicate AllInTime(moves: seq<Move>, t: Timing, db: int -> string) {
    moves == [] ||
    (AllInTime(moves[..|moves| - 1], t, db) && InTime(Run(moves[..|moves| - 1], t, db), moves[|moves| - 1], t))
  }

  // ----- How old an answer can be -----

  /** Store lifetime, memo lifetime, and the time of one load and one hit. */
  function Bound(t: Timing): int { 1000 * t.ttlSec + MemTtlMs(t.ttlSec) + t.load + t.handling }

  /** The database held the value at `read`, and an answer at `at` is not older than `bound`. */
  ghost predicate Witnessed(value: string, read: int, at: int, bound: int, db: int -> string) {
    db(read) == value && read <= at <= read + bound
  }

  /** The same of an entry, at any time it still counts as fresh. */
  ghost predicate EntryOk(e: Entry, now: int, bound: int, db: int -> string) {
    db(e.read) == e.value && e.read <= now && e.until <= e.read + bound
  }

  ghost predicate RequestOk(r: Request, now: int, t: Timing, db: int -> string) {
    && (r.admin.Some? ==> r.admin.value <= now)
    && match r.phase
       case Hit(value, read, at) =>
         db(read) == value && read <= at <= now && at < read + 1000 * t.ttlSec + t.load
         && (r.admin.Some? ==> r.admin.value <= at)
       case Loaded(value, read) => db(read) == value && read <= now && (r.admin.Some? ==> r.admin.value <= read)
       case Putting(value, read) => db(read) == value && read <= now && (r.admin.Some? ==> r.admin.value <= read)
       case Answered(answer) => Witnessed(answer.value, answer.read, answer.at, Bound(t), db)
       case Asking => true
       case Loading => true
  }

  ghost predicate Inv(s: System, t: Timing, db: int -> string) {
    && (forall k :: k in s.mem ==> EntryOk(s.mem[k], s.now, Bound(t), db))
    && (forall k :: k in s.store ==> EntryOk(s.store[k], s.now, 1000 * t.ttlSec + t.load, db))
    && (forall k :: k in s.adminMemo ==> EntryOk(s.adminMemo[k], s.now, Bound(t) + t.adminTtlMs, db))
    && (forall r <- s.requests :: RequestOk(r, s.now, t, db))
    && (forall a <- s.adminAnswers :: Witnessed(a.value, a.read, a.at, Bound(t) + t.adminTtlMs, db))
  }

  lemma LaterInv(s: System, now: int, t: Timing, db: int -> string)
    requires Inv(s, t, db) && s.now <= now
    ensures Inv(s.(now := now), t, db)
  {
  }

  lemma FinishKeepsInv(s: System, i: nat, value: string, read: int, t: Timing, db: int -> string)
    requires Inv(s, t, db) && i < |s.requests| && Witnessed(value, read, s.now, Bound(t), db)
    ensures Inv(Finish(s, i, value, read, t), t, db)
  {
    assert RequestOk(s.requests[i], s.now, t, db);
  }

  lemma BeginKeepsInv(s: System, isolate: nat, site: nat, admin: Option<int>, t: Timing, db: int -> string)
    requires Inv(s, t, db) && (admin.Some? ==> admin.value == s.now)
    ensures Inv(Begin(s, isolate, site, admin, t), t, db)
  {
    var begun := s.(requests := s.requests + [Request(isolate, site, admin, Asking)]);
    assert Inv(begun, t, db);
    if FreshIn(s.mem, isolate, s.now).Some? {
      FinishKeepsInv(begun, |s.requests|, s.mem[isolate].value, s.mem[isolate].read, t, db);
    }
  }

  lemma PhaseKeepsInv(s: System, i: nat, phase: Phase, t: Timing, db: int -> string)
    requires Inv(s, t, db) && i < |s.requests| && RequestOk(s.requests[i].(phase := phase), s.now, t, db)
    ensures Inv(s.(requests := s.requests[i := s.requests[i].(phase := phase)]), t, db)
  {
  }

  lemma MemKeepsInv(s: System, isolate: nat, entry: Entry, t: Timing, db: int -> string)
    requires Inv(s, t, db) && EntryOk(entry, s.now, Bound(t), db)
    ensures Inv(s.(mem := s.mem[isolate := entry]), t, db)
  {
  }

  lemma StoreKeepsInv(s: System, site: nat, entry: Entry, t: Timing, db: int -> string)
    requires Inv(s, t, db) && EntryOk(entry, s.now, 1000 * t.ttlSec + t.load, db)
    ensures Inv(s.(store := s.store[site := entry]), t, db)
  {
  }

  lemma DropKeepsInv(s: System, k: nat, t: Timing, db: int -> string)
    requires Inv(s, t, db)
    ensures Inv(s.(mem := s.mem - {k}), t, db) && Inv(s.(store := s.store - {k}), t, db)
  {
  }

  lemma StepKeepsInv(before: System, m: Move, t: Timing, db: int -> string)
    requires Inv(before, t, db) && InTime(before, m, t) && t.ttlSec >= 10
    ensures Inv(Step(before, m, t, db), t, db)
  {
    hide Begin, EntryOk, Finish, FreshIn, Inv, RequestOk;
    LaterInv(before, m.now, t, db);
    var s := before.(now := m.now);
    match m
    case Arrive(isolate, site, _) => BeginKeepsInv(s, isolate, site, None, t, db);
    case ArriveAdmin(isolate, site, _) => AdminKeepsInv(s, isolate, site, t, db);
    case LookUp(i, usable, _) => LookUpKeepsInv(s, m, t, db);
    case KeepHit(i, _) => KeepHitKeepsInv(s, m, t, db);
    case LoadValue(i, _) => LoadKeepsInv(s, m, t, db);
    case KeepLoaded(i, _) => KeepLoadedKeepsInv(s, m, t, db);
    case StoreLoaded(i, stored, _) => StoreLoadedKeepsInv(s, m, t, db);
    case DropMem(isolate, _) => DropKeepsInv(s, isolate, t, db);
    case DropStore(site, _) => DropKeepsInv(s, site, t, db);
  }

  lemma RequestIsOk(s: System, i: nat, t: Timing, db: int -> string)
    requires Inv(s, t, db) && i < |s.requests|
    ensures RequestOk(s.requests[i], s.now, t, db)
  {
  }

  lemma AdminKeepsInv(s: System, isolate: nat, site: nat, t: Timing, db: int -> string)
    requires Inv(s, t, db)
    ensures Inv(Step(s, ArriveAdmin(isolate, site, s.now), t, db), t, db)
  {
    BeginKeepsInv(s, isolate, site, Some(s.now), t, db);
  }

  lemma LookUpKeepsInv(s: System, m: Move, t: Timing, db: int -> string)
    requires Inv(s, t, db) && m.LookUp? && m.now == s.now
    ensures Inv(Step(s, m, t, db), t, db)
  {
    if m.i < |s.requests| && s.requests[m.i].phase.Asking? {
      var r := s.requests[m.i];
      assert RequestOk(r, s.now, t, db);
      var hit := FreshIn(s.store, r.site, s.now);
      PhaseKeepsInv(s, m.i, if m.usable && hit.Some? then Hit(hit.value.value, hit.value.read, s.now) else Loading, t, db);
    }
  }

  lemma LoadKeepsInv(s: System, m: Move, t: Timing, db: int -> string)
    requires Inv(s, t, db) && m.LoadValue? && m.now == s.now
    ensures Inv(Step(s, m, t, db), t, db)
  {
    if m.i < |s.requests| && s.requests[m.i].phase.Loading? {
      assert RequestOk(s.requests[m.i], s.now, t, db);
      PhaseKeepsInv(s, m.i, Loaded(db(s.now), s.now), t, db);
    }
  }

  lemma KeepHitKeepsInv(s: System, m: Move, t: Timing, db: int -> string)
    requires Inv(s, t, db) && m.KeepHit? && m.now == s.now && InTime(s, m, t) && t.ttlSec >= 10
    ensures Inv(Step(s, m, t, db), t, db)
  {
    hide Finish, Inv;
    if m.i < |s.requests| && s.requests[m.i].phase.Hit? {
      var r := s.requests[m.i];
      RequestIsOk(s, m.i, t, db);
      var entry := Entry(r.phase.value, s.now + MemTtlMs(t.ttlSec), r.phase.read);
      MemKeepsInv(s, r.isolate, entry, t, db);
      FinishKeepsInv(s.(mem := s.mem[r.isolate := entry]), m.i, r.phase.value, r.phase.read, t, db);
    }
  }

  lemma KeepLoadedKeepsInv(s: System, m: Move, t: Timing, db: int -> string)
    requires Inv(s, t, db) && m.KeepLoaded? && m.now == s.now && InTime(s, m, t) && t.ttlSec >= 10
    ensures Inv(Step(s, m, t, db), t, db)
  {
    if m.i < |s.requests| && s.requests[m.i].phase.Loaded? {
      var r := s.requests[m.i];
      assert RequestOk(r, s.now, t, db);
      MemKeepsInv(s, r.isolate, Entry(r.phase.value, s.now + MemTtlMs(t.ttlSec), r.phase.read), t, db);
      PhaseKeepsInv(Step(s, m, t, db).(requests := s.requests), m.i, Putting(r.phase.value, r.phase.read), t, db);
    }
  }

  lemma StoreLoadedKeepsInv(s: System, m: Move, t: Timing, db: int -> string)
    requires Inv(s, t, db) && m.StoreLoaded? && m.now == s.now && InTime(s, m, t) && t.ttlSec >= 10
    ensures Inv(Step(s, m, t, db), t, db)
  {
    hide Finish, Inv;
    if m.i < |s.requests| && s.requests[m.i].phase.Putting? {
      var r := s.requests[m.i];
      RequestIsOk(s, m.i, t, db);
      var entry := Entry(r.phase.value, s.now + 1000 * t.ttlSec, r.phase.read);
      StoreKeepsInv(s, r.site, entry, t, db);
      FinishKeepsInv(if m.stored then s.(store := s.store[r.site := entry]) else s, m.i, r.phase.value, r.phase.read, t, db);
    }
  }

  lemma {:induction false} RunKeepsInv(moves: seq<Move>, t: Timing, db: int -> string)
    requires AllInTime(moves, t, db) && t.ttlSec >= 10
    ensures Inv(Run(moves, t, db), t, db)
  {
    if moves == [] {
    } else {
      RunKeepsInv(moves[..|moves| - 1], t, db);
      StepKeepsInv(Run(moves[..|moves| - 1], t, db), moves[|moves| - 1], t, db);
    }
  }

  /**
   Bounded staleness: however many isolates and sites there are, and however updates,
   invalidations, evictions and loads race, an answer was the database's value at some instant
   no longer before it than the store's lifetime, the memo's, one load and one hit.
   */
  lemma {:induction false} BoundedStaleness(moves: seq<Move>, t: Timing, db: int -> string, i: nat)
    requires AllInTime(moves, t, db) && t.ttlSec >= 10
    requires i < |Run(moves, t, db).requests| && Run(moves, t, db).requests[i].phase.Answered?
    ensures var a := Run(moves, t, db).requests[i].phase.answer;
            db(a.read) == a.value
            && 0 <= a.at - a.read <= 1000 * t.ttlSec + Min(30_000, 1000 * t.ttlSec) + t.load + t.handling
  {
    RunKeepsInv(moves, t, db);
    assert RequestOk(Run(moves, t, db).requests[i], Run(moves, t, db).now, t, db);
  }

  /** The admin path's memo adds at most its own lifetime, though it starts counting before it asks. */
  lemma {:induction false} AdminStaleness(moves: seq<Move>, t: Timing, db: int -> string, i: nat)
    requires AllInTime(moves, t, db) && t.ttlSec >= 10
    requires i < |Run(moves, t, db).adminAnswers|
    ensures var a := Run(moves, t, db).adminAnswers[i];
            db(a.read) == a.value && 0 <= a.at - a.read <= Bound(t) + t.adminTtlMs
  {
    RunKeepsInv(moves, t, db);
    assert Run(moves, t, db).adminAnswers[i] in Run(moves, t, db).adminAnswers;
  }

  // ----- The bound is reached -----

  /** One isolate loads and stores; another hits the store at its last moment and answers at its memo's last. */
  function LateMoves(t: Timing): seq<Move> { LateHitMoves(t) + [Arrive(1, 0, Bound(t) - 2)] }

  lemma RunSnoc(moves: seq<Move>, m: Move, t: Timing, db: int -> string)
    ensures Run(moves + [m], t, db) == Step(Run(moves, t, db), m, t, db)
    ensures AllInTime(moves + [m], t, db) == (AllInTime(moves, t, db) && InTime(Run(moves, t, db), m, t))
  {
    assert (moves + [m])[..|moves|] == moves;
  }

  /** After the load the store holds the value read at 0. */
  lemma LateLoad(t: Timing, db: int -> string)
    requires t.ttlSec >= 10
    ensures var moves := [] + [Arrive(0, 0, 0)] + [LookUp(0, true, 0)] + [LoadValue(0, 0)] + [KeepLoaded(0, t.load)]
                         + [StoreLoaded(0, true, t.load)];
            && AllInTime(moves, t, db)
            && Run(moves, t, db) == System(
                 t.load, map[0 := Entry(db(0), t.load + MemTtlMs(t.ttlSec), 0)],
                 map[0 := Entry(db(0), t.load + 1000 * t.ttlSec, 0)], map[],
                 [Request(0, 0, None, Answered(Answer(db(0), 0, t.load)))], [])
  {
    hide AllInTime, MemTtlMs, Run;
    assert Run([], t, db) == System(0, map[], map[], map[], [], []) && AllInTime([], t, db) by { RunNone(t, db); }
    RunSnoc([], Arrive(0, 0, 0), t, db);
    RunSnoc([] + [Arrive(0, 0, 0)], LookUp(0, true, 0), t, db);
    RunSnoc([] + [Arrive(0, 0, 0)] + [LookUp(0, true, 0)], LoadValue(0, 0), t, db);
    RunSnoc([] + [Arrive(0, 0, 0)] + [LookUp(0, true, 0)] + [LoadValue(0, 0)], KeepLoaded(0, t.load), t, db);
    RunSnoc([] + [Arrive(0, 0, 0)] + [LookUp(0, true, 0)] + [LoadValue(0, 0)] + [KeepLoaded(0, t.load)],
            StoreLoaded(0, true, t.load), t, db);
  }

  lemma RunNone(t: Timing, db: int -> string)
    ensures Run([], t, db) == System(0, map[], map[], map[], [], []) && AllInTime([], t, db)
  {
  }

  /** The bound is met to within two milliseconds: a value lives on for both lifetimes. */
  lemma BoundIsReached(t: Timing, db: int -> string)
    requires t.ttlSec >= 10
    ensures AllInTime(LateMoves(t), t, db) && |Run(LateMoves(t), t, db).requests| == 3
    ensures Run(LateMoves(t), t, db).requests[2].phase
         == Answered(Answer(db(0), 0, 1000 * t.ttlSec + Min(30_000, 1000 * t.ttlSec) + t.load + t.handling - 2))
  {
    hide AllInTime, Run;
    LateHit(t, db);
    RunSnoc(LateHitMoves(t), Arrive(1, 0, Bound(t) - 2), t, db);
  }

  function LateHitMoves(t: Timing): seq<Move> {
    var hitAt := t.load + 1000 * t.ttlSec - 1;
    [] + [Arrive(0, 0, 0)] + [LookUp(0, true, 0)] + [LoadValue(0, 0)] + [KeepLoaded(0, t.load)]
    + [StoreLoaded(0, true, t.load)]
    + [Arrive(1, 0, hitAt)] + [LookUp(1, true, hitAt)] + [KeepHit(1, hitAt + t.handling)]
  }

  /** After the hit the other isolate's memo holds the value read at 0, to within two milliseconds of the bound. */
  lemma LateHit(t: Timing, db: int -> string)
    requires t.ttlSec >= 10
    ensures var s := Run(LateHitMoves(t), t, db);
            && AllInTime(LateHitMoves(t), t, db) && s.now <= Bound(t) - 2 && |s.requests| == 2
            && (forall r <- s.requests :: r.phase.Answered?)
            && 1 in s.mem && s.mem[1] == Entry(db(0), Bound(t) - 1, 0)
            && s.adminMemo == map[] && s.adminAnswers == []
  {
    hide AllInTime, Run;
    LateLoad(t, db);
    var hitAt := t.load + 1000 * t.ttlSec - 1;
    var moves := [] + [Arrive(0, 0, 0)] + [LookUp(0, true, 0)] + [LoadValue(0, 0)] + [KeepLoaded(0, t.load)]
                 + [StoreLoaded(0, true, t.load)];
    RunSnoc(moves, Arrive(1, 0, hitAt), t, db);
    RunSnoc(moves + [Arrive(1, 0, hitAt)], LookUp(1, true, hitAt), t, db);
    RunSnoc(moves + [Arrive(1, 0, hitAt)] + [LookUp(1, true, hitAt)], KeepHit(1, hitAt + t.handling), t, db);
  }

  /** And the admin path's memo adds its lifetime, less another millisecond. */
  lemma AdminBoundIsReached(t: Timing, db: int -> string)
    requires t.ttlSec >= 10 && t.adminTtlMs > 0
    ensures var moves := LateHitMoves(t) + [ArriveAdmin(1, 0, Bound(t) - 2)]
                         + [ArriveAdmin(1, 0, Bound(t) - 3 + t.adminTtlMs)];
            && AllInTime(moves, t, db)
            && Run(moves, t, db).adminAnswers
               == [Answer(db(0), 0, Bound(t) - 2), Answer(db(0), 0, Bound(t) - 3 + t.adminTtlMs)]
  {
    hide AllInTime, Bound, Run;
    LateHit(t, db);
    var moves := LateHitMoves(t);
    RunSnoc(moves, ArriveAdmin(1, 0, Bound(t) - 2), t, db);
    RunSnoc(moves + [ArriveAdmin(1, 0, Bound(t) - 2)], ArriveAdmin(1, 0, Bound(t) - 3 + t.adminTtlMs), t, db);
  }

  // ----- Invalidation -----

  /**
   Invalidated where it is asked for, and with no other request on its way there, the value is read
   again: from any state, the next request of the isolate answers with what the database holds when
   it loads.
   */
  lemma InvalidatedIsReread(s: System, isolate: nat, site: nat, t: Timing, db: int -> string, at: int, read: int, usable: bool)
    ensures var i := |s.requests|;
            var dropped := Step(Step(s, DropMem(isolate, at), t, db), DropStore(site, at), t, db);
            var asked := Step(Step(dropped, Arrive(isolate, site, at), t, db), LookUp(i, usable, at), t, db);
            var loaded := Step(Step(asked, LoadValue(i, read), t, db), KeepLoaded(i, read), t, db);
            var after := Step(loaded, StoreLoaded(i, false, read), t, db);
            && after.requests[i].phase == Answered(Answer(db(read), read, read))
            && isolate in after.mem && after.mem[isolate].value == db(read)
  {
  }
}
