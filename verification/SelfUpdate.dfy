/**
 Self-update and rollback as operations on the files of the installation, one file operation
 at a time. Any operation may report an error. A crash is an operation that is not performed any
 more, nor any after it: each call is given how many it still performs, so what is said of the
 files for every such number holds after every single operation.
 */
module SelfUpdate {
  import opened Strings
  import opened AgentVersion
  import opened Wrappers

  const UPDATE_PENDING_CONFIRM_WINDOW_SEC := 1800
  const UPDATE_WATCHDOG_POLLS := 36   // 180 seconds, every 5

  /** Where an executable can be: the installed name, `.bak`, `.failed`, and the download. */
  datatype Slot = Current | Backup | Failed | Download

  /** `image` stands for the bytes; `reports` is what running it with `--version` prints. */
  datatype Program = Program(complete: bool, image: nat, reports: string)

  type Programs = map<Slot, Program>

  /**
   The path the operating system gives for a running image: where its file is by now, or where
   it was deleted.
   */
  datatype Path = At(slot: Slot) | Deleted(slot: Slot)

  /** `recorded` is the time in the marker, 0 when the text is not readable. */
  datatype Marker = Marker(recorded: nat, oversized: bool)

  /** A complete executable can be found under the installed name or as the backup. */
  predicate Safe(p: Programs) {
    (Current in p && p[Current].complete) || (Backup in p && p[Backup].complete)
  }

  /** No file but the download is ever torn. */
  predicate Whole(p: Programs) {
    && (Current in p ==> p[Current].complete)
    && (Backup in p ==> p[Backup].complete)
    && (Failed in p ==> p[Failed].complete)
  }

  predicate SameAt(p: Programs, q: Programs, slot: Slot) {
    (slot in p <==> slot in q) && (slot in p ==> p[slot] == q[slot])
  }

  predicate SameExceptDownload(p: Programs, q: Programs) {
    SameAt(p, q, Current) && SameAt(p, q, Backup) && SameAt(p, q, Failed)
  }

  function Moved(p: Programs, from: Slot, target: Slot): Programs
    requires from in p
  {
    (p - {from})[target := p[from]]
  }

  /** A running image's file is followed through renames; what is renamed over is deleted. */
  function Follow(path: Path, from: Slot, target: Slot): Path {
    if path == At(from) then At(target) else if path == At(target) then Deleted(target) else path
  }

  function Less(left: nat): nat { if left == 0 then 0 else left - 1 }

  /**
   The `.bak` path the installer derives from the running image's path. The name of a deleted
   file ends in ` (deleted)`, which takes the place of an extension, if there is one.
   */
  function BackupOf(exe: Path): Option<Slot> {
    if exe == Deleted(Current) then None else Some(Backup)
  }

  /** What the download and its checks gave before any file is touched. */
  datatype Fetch = Fetch(lockFree: bool, https: bool, hashShapeOk: bool, manifestMatches: bool,
                         assetListed: bool, binaryMatches: bool, binary: Program, probeSucceeds: bool)

  predicate Verified(f: Fetch) {
    f.lockFree && f.https && f.hashShapeOk && f.manifestMatches && f.assetListed && f.binaryMatches
  }

  /** All checks pass, and no file operation before the backup is touched reports an error. */
  predicate PastChecks(version: string, fetch: Fetch, fails: nat -> bool) {
    && Verified(fetch) && fetch.probeSucceeds && fetch.binary.reports == version
    && !fails(0) && !fails(1) && !fails(2) && !fails(4) && !fails(5)
  }

  /** The inputs of an update decision. */
  datatype Check = Check(policy: Policy, official: Option<string>, privilegedUpdater: bool, telemetryRole: bool,
                         managerActive: bool, taskRunning: bool)

  // ----- When the last copy is lost -----

  /**
   Installing with nothing installed: the backup is removed, and at most the running image's own
   file, if that is the one a rollback set aside, takes its place and stays there.
   */
  predicate ReplaceLoses(p: Programs, exe: Path, fails: nat -> bool, left: nat) {
    && Current !in p && Backup in p && BackupOf(exe).Some? && !fails(6) && left >= 1
    && !(exe == At(Failed) && Failed in p && !fails(8) && left >= 2 && !(fails(9) && !fails(10) && left >= 4))
  }

  predicate InstallLoses(p: Programs, exe: Path, version: string, fetch: Fetch, fails: nat -> bool, left: nat) {
    PastChecks(version, fetch, fails) && left >= 3 && ReplaceLoses(p, exe, fails, left - 3)
  }

  /** The installed program has become the backup, and nothing has taken its place. */
  predicate ReplaceInterrupted(p: Programs, exe: Path, fails: nat -> bool, left: nat) {
    var removal := if Backup in p then 1 else 0;
    && Current in p && exe == At(Current) && (Backup in p ==> !fails(6)) && !fails(8) && left >= removal + 1
    && (fails(9) || left < removal + 2) && (fails(10) || left < removal + 3)
  }

  predicate InstallInterrupted(p: Programs, exe: Path, version: string, fetch: Fetch, fails: nat -> bool, left: nat) {
    PastChecks(version, fetch, fails) && left >= 3 && ReplaceInterrupted(p, exe, fails, left - 3)
  }

  // ----- When an operation of the installed program succeeds -----

  /** All checks pass, and each move of programs is performed without error. */
  predicate ReplaceSucceeds(p: Programs, fails: nat -> bool, left: nat) {
    && Current in p && (Backup in p ==> !fails(6)) && !fails(8) && !fails(9)
    && left >= if Backup in p then 3 else 2
  }

  predicate InstallSucceeds(p: Programs, version: string, fetch: Fetch, fails: nat -> bool, left: nat) {
    PastChecks(version, fetch, fails) && left >= 3 && ReplaceSucceeds(p, fails, left - 3)
  }

  predicate SwapSucceeds(p: Programs, fails: nat -> bool, left: nat) {
    Current in p && Backup in p && !fails(3) && !fails(6) && left >= if Failed in p then 3 else 2
  }

  /** The window of the update is over without a report, and all that is asked for is done. */
  predicate RollbackSucceeds(
      p: Programs, marker: Option<Marker>, now: nat, symlinked: bool, fails: nat -> bool, left: nat)
  {
    && marker.Some? && !symlinked
    && (marker.value.oversized || marker.value.recorded == 0 || now > marker.value.recorded + 1800)
    && var rest := if marker.value.oversized then Less(left) else left;
    && SwapSucceeds(p, fails, rest)
    && ((marker.value.oversized && left > 0 && !fails(0))
        || (rest >= (if Failed in p then 4 else 3) && !fails(5) && !fails(9)))
  }

  predicate ConfirmLoses(p: Programs, marker: Option<Marker>, fails: nat -> bool, left: nat) {
    Current !in p && Backup in p && marker.Some? && !fails(0) && !fails(2) && !fails(1) && left >= 2
  }

  /** Swapping with nothing installed: a process that runs the backup moves it away, or one moves it over itself. */
  predicate SwapLoses(p: Programs, exe: Path, fails: nat -> bool, left: nat) {
    var removal := if Failed in p then 1 else 0;
    && Current !in p && Backup in p
    && ((exe == At(Backup) && !fails(3) && left > removal && (fails(4) || left < removal + 3))
        || (exe == At(Failed) && Failed in p && fails(2) && !fails(3) && !fails(6) && left >= 3))
  }

  predicate RollbackLoses(
      p: Programs, marker: Option<Marker>, exe: Path, now: nat, symlinked: bool, fails: nat -> bool, left: nat)
  {
    && marker.Some? && Stale(marker.value, now) && !symlinked
    && SwapLoses(p, exe, fails, if marker.value.oversized then Less(left) else left)
  }

  predicate WatchdogLoses(p: Programs, expected: string, seen: nat -> Option<string>, fails: nat -> bool, left: nat) {
    Current !in p && Backup in p && Confirmed(expected, seen) && !fails(0) && left >= 2
  }

  /** Past the window, or nothing readable recorded. A clock that went back does not age a marker. */
  predicate Stale(m: Marker, now: nat) {
    m.oversized || m.recorded == 0 || now > m.recorded + UPDATE_PENDING_CONFIRM_WINDOW_SEC
  }

  predicate Confirms(content: Option<string>, expected: string) {
    content.Some? && Trim(content.value, IsWhitespace) == expected
  }

  /** The watchdog accepts the version it is to expect, and one of its polls finds it. */
  predicate Confirmed(expected: string, seen: nat -> Option<string>) {
    CanonicalVersion(expected).Some? &&
    exists n :: 0 <= n < UPDATE_WATCHDOG_POLLS && Confirms(seen(n), CanonicalVersion(expected).value)
  }

  /** One thing that happens to an installation; `fails` answers for its file operations. */
  datatype Action =
    | Update(running: string, check: Check, now: nat, fetch: Fetch)
    | Report
    | Restart(now: nat, symlinked: bool)
    | Watch(expected: string, seen: nat -> Option<string>, symlinked: bool)
    | ManagerRollback(symlinked: bool)

  /** By a process whose image is at `exe`, cut off after `cut` file operations. */
  datatype Operation = Operation(action: Action, exe: Path, fails: nat -> bool, cut: nat)

  predicate WellFormed(op: Operation) {
    op.action.Update? && Verified(op.action.fetch) ==> op.action.fetch.binary.complete
  }

  datatype Files = Files(programs: Programs, marker: Option<Marker>)

  /** The operation leaves no executable under either name, though there was one. */
  predicate Loses(op: Operation, f: Files) {
    match op.action
    case Update(running, check, now, fetch) =>
      var decision := Decide(check, running);
      decision.Install? && InstallLoses(f.programs, op.exe, decision.version, fetch, op.fails, op.cut)
    case Report => ConfirmLoses(f.programs, f.marker, op.fails, op.cut)
    case Restart(now, symlinked) => RollbackLoses(f.programs, f.marker, op.exe, now, symlinked, op.fails, op.cut)
    case Watch(expected, seen, _) => WatchdogLoses(f.programs, expected, seen, op.fails, op.cut)
    case ManagerRollback(_) => false
  }

  /** The operation may put back an older program. */
  predicate MayRollBack(op: Operation, f: Files) {
    match op.action
    case Update(_, _, _, _) => false
    case Report => false
    case Restart(now, _) => f.marker.Some? && Stale(f.marker.value, now)
    case Watch(expected, seen, _) => !Confirmed(expected, seen)
    case ManagerRollback(_) => true
  }

  /** A process that updates the installed program runs it. */
  predicate OwnVersion(op: Operation, f: Files) {
    op.action.Update? && op.exe == At(Current) && Current in f.programs ==>
      op.action.running == f.programs[Current].reports
  }

  /** What is installed is still the same, or strictly newer. */
  predicate Advances(before: Programs, after: Programs) {
    && Current in before && Current in after
    && (after[Current] == before[Current]
        || IsNewer(after[Current].reports, before[Current].reports) == Some(true))
  }

  /** Without a rollback, what is installed before and after an operation only ever gets newer. */
  predicate Progress(op: Operation, f: Files, g: Files) {
    !MayRollBack(op, f) && OwnVersion(op, f) && Current in f.programs && Current in g.programs ==>
      Advances(f.programs, g.programs)
  }

  function Decide(check: Check, running: string): Decision {
    CheckForUpdate(check.policy, check.official, running, check.privilegedUpdater,
                   check.telemetryRole, check.managerActive, check.taskRunning)
  }

  datatype RollbackResult = RolledBack | NotNeeded | RollbackError

  class Installation {
    var programs: Programs
    var marker: Option<Marker>
    var confirmation: Option<string>
    /** Where the file of the running process is by now. */
    var exe: Path
    /** The file operations still performed before a crash. */
    var left: nat

    ghost function Value(): Files
      reads this
    {
      Files(programs, marker)
    }

    constructor (current: Program)
      ensures programs == map[Current := current] && marker == None && confirmation == None
      ensures exe == At(Current) && left == 0
    {
      programs, marker, confirmation, exe, left := map[Current := current], None, None, At(Current), 0;
    }

    /** A process whose image is at `path` goes on, with this many operations to go. */
    method Boot(path: Path, operations: nat)
      modifies `exe, `left
      ensures exe == path && left == operations
    {
      exe, left := path, operations;
    }

    // ----- Single file operations -----

    method Rename(from: Slot, target: Slot, fails: bool) returns (ok: bool)
      modifies `programs, `exe, `left
      ensures ok == (old(left) > 0 && !fails && from in old(programs))
      ensures programs == if ok then Moved(old(programs), from, target) else old(programs)
      ensures exe == if ok then Follow(old(exe), from, target) else old(exe)
      ensures left == Less(old(left))
    {
      ok := left > 0 && !fails && from in programs;
      if ok {
        programs, exe := Moved(programs, from, target), Follow(exe, from, target);
      }
      left := Less(left);
    }

    /** Renaming the file a path names; the path of a deleted file names none. */
    method RenamePath(from: Path, target: Slot, fails: bool) returns (ok: bool)
      modifies `programs, `exe, `left
      ensures ok == (old(left) > 0 && !fails && from.At? && from.slot in old(programs))
      ensures programs == if ok then Moved(old(programs), from.slot, target) else old(programs)
      ensures exe == if ok then Follow(old(exe), from.slot, target) else old(exe)
      ensures left == Less(old(left))
    {
      if from.Deleted? {
        left := Less(left);
        return false;
      }
      ok := Rename(from.slot, target, fails);
    }

    method Remove(slot: Slot, fails: bool) returns (ok: bool)
      modifies `programs, `exe, `left
      ensures ok == (old(left) > 0 && !fails && slot in old(programs))
      ensures programs == if ok then old(programs) - {slot} else old(programs)
      ensures exe == if ok && old(exe) == At(slot) then Deleted(slot) else old(exe)
      ensures left == Less(old(left))
    {
      ok := left > 0 && !fails && slot in programs;
      if ok {
        programs := programs - {slot};
        exe := if exe == At(slot) then Deleted(slot) else exe;
      }
      left := Less(left);
    }

    /** Writing the download takes two operations: it is torn before it is whole. */
    method WriteDownload(binary: Program, fails: bool) returns (ok: bool)
      modifies `programs, `left
      ensures ok == (!fails && old(left) >= 2)
      ensures programs == if old(left) == 0 then old(programs)
                          else old(programs)[Download := binary.(complete := binary.complete && ok)]
      ensures left == Less(Less(old(left)))
    {
      if left > 0 {
        programs := programs[Download := binary.(complete := false)];
      }
      ok := !fails && left >= 2;
      if ok {
        programs := programs[Download := binary];
      }
      left := Less(Less(left));
    }

    /** The marker is written aside and renamed; an error after the rename leaves it in place. */
    method WriteMarker(now: nat, fails: bool, failsAfterRename: bool) returns (ok: bool)
      modifies `marker, `left
      ensures ok == (old(left) > 0 && !fails && !failsAfterRename)
      ensures marker == if fails || old(left) == 0 then old(marker) else Some(Marker(now, false))
      ensures left == Less(old(left))
    {
      var written := left > 0 && !fails;
      left := Less(left);
      if !written { return false; }
      marker := Some(Marker(now, false));
      ok := !failsAfterRename;
    }

    /** Unlinking a marker and syncing its directory; an error of the sync leaves it unlinked. */
    method RemoveMarker(fails: bool, failsAfterRemoval: bool) returns (ok: bool)
      modifies `marker, `left
      ensures ok == (old(marker) == None || (marker == None && !failsAfterRemoval))
      ensures marker == if fails || old(left) == 0 then old(marker) else None
      ensures left == Less(old(left))
    {
      ok := marker == None;
      if left > 0 && !fails {
        ok := ok || !failsAfterRemoval;
        marker := None;
      }
      left := Less(left);
    }

    // ----- Installing an update -----

    /** Everything up to a download that is complete, executable, and reports the right version. */
    method Prepare(version: string, fetch: Fetch, fails: nat -> bool) returns (ready: bool)
      requires exe.slot != Download
      modifies `programs, `exe, `left
      ensures SameExceptDownload(programs, old(programs))
      ensures ready ==> programs == old(programs)[Download := fetch.binary] && left == old(left) - 2
      ensures exe == old(exe)
      ensures ready == (fetch.lockFree && fetch.https && fetch.hashShapeOk && fetch.manifestMatches
                        && fetch.assetListed && fetch.binaryMatches && !fails(0) && !fails(1) && !fails(2)
                        && fetch.probeSucceeds && fetch.binary.reports == version && old(left) >= 2)
    {
      if !fetch.lockFree { return false; }
      if !fetch.https || !fetch.hashShapeOk { return false; }
      if !fetch.manifestMatches || !fetch.assetListed || !fetch.binaryMatches { return false; }
      var written := WriteDownload(fetch.binary, fails(0));
      if !written || fails(1) || fails(2) {          // sync, set executable
        return false;
      }
      if !fetch.probeSucceeds || fetch.binary.reports != version {
        var _ := Remove(Download, fails(3));
        return false;
      }
      return true;
    }

    /** A hash-checked download is complete. */
    method Install(version: string, now: nat, fetch: Fetch, fails: nat -> bool) returns (ok: bool)
      requires exe.slot != Download
      requires Verified(fetch) ==> fetch.binary.complete
      requires Whole(programs) && Safe(programs)
      modifies this
      ensures confirmation == old(confirmation) && Whole(programs)
      // After any number of its operations an executable is left, except in exactly this case.
      ensures Safe(programs) <==> !InstallLoses(old(programs), old(exe), version, fetch, fails, old(left))
      ensures Current in old(programs) && Current !in programs <==>
              InstallInterrupted(old(programs), old(exe), version, fetch, fails, old(left))
      ensures Current in old(programs) && Current !in programs ==>
                && Backup in programs && programs[Backup] == old(programs)[Current] && (left == 0 || fails(10))
                && marker == if fails(11) || old(left) < (if Backup in old(programs) then 8 else 7)
                             then Some(Marker(now, false)) else None
      ensures ok ==>
                && old(exe).At? && old(exe).slot in old(programs) && old(exe).slot in programs
                && programs[old(exe).slot] == fetch.binary && fetch.binary.reports == version
                && marker == Some(Marker(now, false))
      ensures old(exe) == At(Current) ==> (ok <==> InstallSucceeds(old(programs), version, fetch, fails, old(left)))
      ensures ok && old(exe) == At(Current) ==> Backup in programs && programs[Backup] == old(programs)[Current]
      ensures Current in old(programs) && Current in programs && !(ok && old(exe) == At(Current)) ==>
                programs[Current] == old(programs)[Current]
    {
      var path := exe;
      var ready := Prepare(version, fetch, fails);
      if !ready { return false; }
      var marked := WriteMarker(now, fails(4), fails(5));
      if !marked { return false; }
      ok := Replace(path, fails);
    }

    /** The old backup goes, the running program becomes the backup, and the download takes its place. */
    method Replace(path: Path, fails: nat -> bool) returns (ok: bool)
      requires path.slot != Download && Download in programs && programs[Download].complete
      requires Whole(programs) && Safe(programs)
      modifies this
      ensures confirmation == old(confirmation) && Whole(programs)
      ensures Safe(programs) <==> !ReplaceLoses(old(programs), path, fails, old(left))
      ensures Current in old(programs) && Current !in programs <==> ReplaceInterrupted(old(programs), path, fails, old(left))
      ensures Current in old(programs) && Current !in programs ==>
                && Backup in programs && programs[Backup] == old(programs)[Current] && (left == 0 || fails(10))
                && marker == if fails(11) || old(left) < (if Backup in old(programs) then 5 else 4)
                             then old(marker) else None
      ensures ok ==>
                && path.At? && path.slot in old(programs) && path.slot in programs
                && programs[path.slot] == old(programs)[Download] && marker == old(marker)
      ensures path == At(Current) ==> (ok <==> ReplaceSucceeds(old(programs), fails, old(left)))
      ensures ok && path == At(Current) ==> Backup in programs && programs[Backup] == old(programs)[Current]
      ensures Current in old(programs) && Current in programs && !(ok && path == At(Current)) ==>
                programs[Current] == old(programs)[Current]
    {
      hide Follow;
      if BackupOf(path) == Some(Backup) && Backup in programs {
        var removed := Remove(Backup, fails(6));
        if !removed { return false; }
      }
      var kept := RenamePath(path, Backup, fails(8));
      if !kept { return false; }
      ok := Rename(Download, path.slot, fails(9));
      if !ok {
        var _ := Rename(Backup, path.slot, fails(10));
        var _ := RemoveMarker(fails(11), fails(12));
      }
    }

    /** One update check by a process that runs version `running`: decide, then install. */
    method UpdateOnce(running: string, check: Check, now: nat, fetch: Fetch, fails: nat -> bool) returns (installed: bool)
      requires exe.slot != Download
      requires Verified(fetch) ==> fetch.binary.complete
      requires Whole(programs) && Safe(programs)
      modifies this
      ensures Whole(programs)
      ensures Safe(programs) <==>
              !(Decide(check, running).Install?
                && InstallLoses(old(programs), old(exe), Decide(check, running).version, fetch, fails, old(left)))
      ensures old(exe) == At(Current) ==>
                (installed <==> Decide(check, running).Install?
                                && InstallSucceeds(old(programs), Decide(check, running).version, fetch, fails, old(left)))
      ensures installed ==>
                && old(exe).slot in programs && programs[old(exe).slot] == fetch.binary
                && IsNewer(fetch.binary.reports, running) == Some(true)
      ensures !(installed && old(exe) == At(Current)) && Current in old(programs) && Current in programs ==>
                programs[Current] == old(programs)[Current]
      ensures Current in old(programs) && Current !in programs <==>
              Decide(check, running).Install?
              && InstallInterrupted(old(programs), old(exe), Decide(check, running).version, fetch, fails, old(left))
      ensures Current in old(programs) && Current !in programs ==> left == 0 || fails(10)
    {
      var decision := Decide(check, running);
      installed := false;
      if decision.Install? {
        InstallsOnlyNewer(check.policy, check.official, running, check.privilegedUpdater,
                          check.telemetryRole, check.managerActive, check.taskRunning);
        installed := Install(decision.version, now, fetch, fails);
      }
    }

    // ----- Confirming and rolling back -----

    /** The first successful report: the marker goes, and then the backup. */
    method Confirm(fails: nat -> bool) returns (ok: bool)
      requires Whole(programs) && Safe(programs)
      modifies this
      ensures Whole(programs)
      ensures Safe(programs) <==> !ConfirmLoses(old(programs), old(marker), fails, old(left))
      ensures SameAt(programs, old(programs), Current) && SameAt(programs, old(programs), Failed)
      ensures ok ==> marker == None
      ensures ok <==> old(marker) == None || (!fails(0) && !fails(2) && old(left) > 0)
      ensures old(marker) == None ==> ok && programs == old(programs)
      ensures old(marker).Some? && !fails(0) && !fails(2) && !fails(1) && old(left) >= 2 ==> ok && Backup !in programs
      // An error of the removal or its sync keeps the backup, though the marker may be gone.
      ensures old(marker).Some? && (fails(0) || fails(2)) ==>
                !ok && programs == old(programs) && (marker == None <==> !fails(0) && old(left) > 0)
    {
      if marker == None { return true; }
      ok := RemoveMarker(fails(0), fails(2));
      if ok && Backup in programs {
        var _ := Remove(Backup, fails(1));
      }
    }

    /** At start: restore the backup when the marker is unreadable or its window is over. */
    method RollbackStale(now: nat, symlinked: bool, fails: nat -> bool) returns (result: RollbackResult)
      requires exe.slot != Download
      requires Whole(programs) && Safe(programs)
      modifies this
      ensures Whole(programs)
      ensures Safe(programs) <==> !RollbackLoses(old(programs), old(marker), old(exe), now, symlinked, fails, old(left))
      ensures result == RolledBack ==>
                && old(marker).Some? && Stale(old(marker).value, now) && marker == None
                && Backup in old(programs) && Backup !in programs
                && old(exe).At? && old(exe).slot in programs && programs[old(exe).slot] == old(programs)[Backup]
      ensures old(exe) == At(Current) ==>
                (result == RolledBack
                 <==> RollbackSucceeds(old(programs), old(marker), now, symlinked, fails, old(left)))
      ensures result == RolledBack && old(exe) == At(Current) ==>
                && Current in old(programs) && Failed in programs && programs[Failed] == old(programs)[Current]
                && exe == At(Failed)
      // A report within half an hour of the installation is waited for.
      ensures old(marker) == None
              || (!old(marker).value.oversized && 0 < old(marker).value.recorded && now <= old(marker).value.recorded + 1800) ==>
                result == NotNeeded && programs == old(programs) && marker == old(marker) && exe == old(exe)
      ensures Current in old(programs) && Current !in programs ==> Backup in programs && (left == 0 || fails(4))
    {
      if marker == None { return NotNeeded; }
      var recorded := marker.value.recorded;
      if marker.value.oversized {
        var _ := RemoveMarker(fails(0), fails(7));
        recorded := 0;
      }
      var age := if now >= recorded then now - recorded else 0;
      if recorded > 0 && age <= UPDATE_PENDING_CONFIRM_WINDOW_SEC {
        return NotNeeded;
      }
      if Backup !in programs || symlinked {
        var removed := RemoveMarker(fails(1), fails(8));
        return if removed then NotNeeded else RollbackError;
      }
      var restored := SwapBack(exe, fails);
      if !restored { return RollbackError; }
      var removed := RemoveMarker(fails(5), fails(9));
      return if removed then RolledBack else RollbackError;
    }

    /** The failed program is set aside, the backup takes its place; the first step is undone on error. */
    method SwapBack(path: Path, fails: nat -> bool) returns (ok: bool)
      requires path.slot != Download
      requires Whole(programs) && Backup in programs
      modifies `programs, `exe, `left
      ensures Whole(programs)
      ensures Safe(programs) <==> !SwapLoses(old(programs), path, fails, old(left))
      ensures ok ==>
                && path.At? && path.slot in programs && programs[path.slot] == old(programs)[Backup] && Backup !in programs
      ensures ok && path == At(Current) ==>
                && Current in old(programs) && Failed in programs && programs[Failed] == old(programs)[Current]
                && (old(exe) == At(Current) ==> exe == At(Failed))
      ensures path == At(Current) ==> (ok <==> SwapSucceeds(old(programs), fails, old(left)))
      ensures ok && path == At(Current) ==> left == old(left) - if Failed in old(programs) then 3 else 2
      ensures !ok && path == At(Current) ==> Backup in programs && programs[Backup] == old(programs)[Backup]
      ensures !ok && Current in old(programs) && Current in programs ==> programs[Current] == old(programs)[Current]
      ensures Current in old(programs) && Current !in programs ==> Backup in programs && (left == 0 || fails(4))
    {
      if Failed in programs {
        var _ := Remove(Failed, fails(2));
      }
      ok := RenamePath(path, Failed, fails(3));
      if ok {
        ok := Rename(Backup, path.slot, fails(6));
        if !ok {
          var _ := Rename(Failed, path.slot, fails(4));
        }
      }
    }

    /**
     The start of a program, up to where it goes on: after a rollback it executes the path of its
     own running image, and that file was just set aside as the failed one.
     */
    method Start(now: nat, symlinked: bool, fails: nat -> bool) returns (rolledBack: bool, goesOn: Path)
      requires exe.slot != Download
      requires Whole(programs) && Safe(programs)
      modifies this
      ensures goesOn == exe
      ensures old(exe) == At(Current) ==>
                (rolledBack <==> RollbackSucceeds(old(programs), old(marker), now, symlinked, fails, old(left)))
      ensures rolledBack && old(exe) == At(Current) ==>
                && goesOn == At(Failed) && Failed in programs && Current in programs
                && Current in old(programs) && Backup in old(programs)
                && programs[Failed] == old(programs)[Current] && programs[Current] == old(programs)[Backup]
      // So the previous program runs again exactly if it is the same as the one rolled back.
      ensures rolledBack && old(exe) == At(Current) ==>
                (programs[goesOn.slot] == old(programs)[Backup] <==> old(programs)[Current] == old(programs)[Backup])
      ensures !rolledBack && old(marker) == None ==> goesOn == old(exe)
    {
      var result := RollbackStale(now, symlinked, fails);
      rolledBack, goesOn := result == RolledBack, exe;
    }

    /** The manager's rollback: it refuses unless both programs are there. */
    method RollbackFailed(symlinked: bool, fails: nat -> bool) returns (ok: bool)
      requires Whole(programs) && Safe(programs)
      modifies this
      ensures Whole(programs) && Safe(programs)
      ensures ok ==>
                && Current in old(programs) && Backup in old(programs) && !symlinked
                && Current in programs && programs[Current] == old(programs)[Backup]
                && Failed in programs && programs[Failed] == old(programs)[Current]
      ensures ok <==> (Failed in old(programs) ==> !fails(1)) && !symlinked
                      && SwapSucceeds(old(programs), fails, old(left))
      ensures symlinked || Current !in old(programs) || Backup !in old(programs) ==>
                !ok && programs == old(programs)
      ensures Current in old(programs) && Current !in programs ==> Backup in programs && (left == 0 || fails(4))
    {
      if Current !in programs || Backup !in programs || symlinked { return false; }
      if Failed in programs {
        var removed := Remove(Failed, fails(1));
        if !removed { return false; }
      }
      ok := SwapBack(At(Current), fails);
      if ok && !fails(5) && left > 0 {
        confirmation := None;
      }
    }

    /**
     The watchdog polls for the new version's confirmation; `seen(n)` is what the file holds at the
     n-th poll. Without one in time the previous program is restored. A version it cannot put into
     canonical form is refused at once.
     */
    method RunWatchdog(expected: string, seen: nat -> Option<string>, symlinked: bool, fails: nat -> bool)
      returns (confirmed: bool)
      requires Whole(programs) && Safe(programs)
      modifies this
      ensures Whole(programs)
      ensures Safe(programs) <==> !WatchdogLoses(old(programs), expected, seen, fails, old(left))
      ensures confirmed <==> Confirmed(expected, seen)
      ensures confirmed <==> (CanonicalVersion(expected).Some?
                              && exists n :: 0 <= n < 36 && Confirms(seen(n), CanonicalVersion(expected).value))
      ensures confirmed ==> SameAt(programs, old(programs), Current)
      ensures CanonicalVersion(expected) == None ==> programs == old(programs)
      ensures CanonicalVersion(expected).Some? && !confirmed && Current in old(programs) && Backup in old(programs)
              && !symlinked && !fails(1) && !fails(3) && !fails(6) && old(left) >= 3 ==>
                Current in programs && programs[Current] == old(programs)[Backup]
      ensures Current in old(programs) && Current !in programs ==> Backup in programs && (left == 0 || fails(4))
    {
      var canonical := CanonicalVersion(expected);
      if canonical == None {
        return false;
      }
      for n := 0 to UPDATE_WATCHDOG_POLLS
        invariant programs == old(programs) && left == old(left)
        invariant forall m :: 0 <= m < n ==> !Confirms(seen(m), canonical.value)
      {
        if Confirms(seen(n), canonical.value) {
          if left > 0 && !fails(7) { confirmation := None; }
          left := Less(left);
          if Backup in programs {
            var _ := Remove(Backup, fails(0));
          }
          return true;
        }
      }
      var _ := RollbackFailed(symlinked, fails);
      return false;
    }

    /** One operation, by a process wherever its image is, cut off anywhere. */
    method Perform(op: Operation)
      requires op.exe.slot != Download && WellFormed(op)
      requires Whole(programs) && Safe(programs)
      modifies this
      ensures Whole(programs)
      ensures Safe(programs) <==> !Loses(op, old(Value()))
      ensures Progress(op, old(Value()), Value())
      ensures Current in old(programs) && Current !in programs ==> left == 0 || op.fails(4) || op.fails(10)
    {
      Boot(op.exe, op.cut);
      match op.action {
        case Update(running, check, now, fetch) => var _ := UpdateOnce(running, check, now, fetch, op.fails);
        case Report => var _ := Confirm(op.fails);
        case Restart(now, symlinked) => var _ := RollbackStale(now, symlinked, op.fails);
        case Watch(expected, seen, symlinked) => var _ := RunWatchdog(expected, seen, symlinked, op.fails);
        case ManagerRollback(symlinked) => var _ := RollbackFailed(symlinked, op.fails);
      }
    }

    /**
     Any sequence of operations with any errors, each cut off anywhere and the next going on from
     what it left: an executable is there after every one, up to the first that loses it, and which
     one that is can be told beforehand. `trace` records the files before each operation.
     */
    method Lifecycle(ops: seq<Operation>) returns (done: nat, ghost trace: seq<Files>)
      requires forall op <- ops :: op.exe.slot != Download && WellFormed(op)
      requires Whole(programs) && Safe(programs)
      modifies this
      ensures Whole(programs) && done <= |ops| && |trace| == done + 1
      ensures trace[0] == old(Value()) && trace[done] == Value()
      ensures forall i :: 0 <= i < done ==>
                && Whole(trace[i].programs) && Safe(trace[i].programs)
                && (Safe(trace[i + 1].programs) <==> !Loses(ops[i], trace[i]))
      ensures done == |ops| || !Safe(programs)
      // While nothing is rolled back, what is installed only ever gets newer.
      ensures forall i, j :: 0 <= i < j <= done && Forward(trace, ops, i, j) ==>
                Advances(trace[i].programs, trace[j].programs)
    {
      hide Loses, Progress, WellFormed;
      done, trace := 0, [Value()];
      while done < |ops| && (Current in programs || Backup in programs)
        invariant done <= |ops| && |trace| == done + 1
        invariant Whole(programs) && trace[0] == old(Value()) && trace[done] == Value()
        invariant forall i :: 0 <= i < done ==>
                    && Whole(trace[i].programs) && Safe(trace[i].programs)
                    && (Safe(trace[i + 1].programs) <==> !Loses(ops[i], trace[i]))
        invariant forall i :: 0 <= i < done ==> Progress(ops[i], trace[i], trace[i + 1])
      {
        assert ops[done] in ops;
        Perform(ops[done]);
        trace := trace + [Value()];
        done := done + 1;
      }
      forall i, j | 0 <= i < j <= done && Forward(trace, ops, i, j)
        ensures Advances(trace[i].programs, trace[j].programs)
      {
        ForwardAdvances(trace, ops, i, j);
      }
    }
  }

  /** From the i-th to the j-th point of a trace something is installed, and no operation rolls back. */
  ghost predicate Forward(trace: seq<Files>, ops: seq<Operation>, i: nat, j: nat)
    requires j < |trace| && j <= |ops|
  {
    && (forall k :: i <= k <= j ==> Current in trace[k].programs)
    && (forall k :: i <= k < j ==> !MayRollBack(ops[k], trace[k]) && OwnVersion(ops[k], trace[k]))
  }

  lemma {:induction false} ForwardAdvances(trace: seq<Files>, ops: seq<Operation>, i: nat, j: nat)
    requires i < j < |trace| && j <= |ops| && Forward(trace, ops, i, j)
    requires forall k :: i <= k < j ==> Progress(ops[k], trace[k], trace[k + 1])
    ensures Advances(trace[i].programs, trace[j].programs)
    decreases j
  {
    hide MayRollBack, OwnVersion, IsNewer;
    assert Progress(ops[j - 1], trace[j - 1], trace[j - 1 + 1]);
    if i == j - 1 {
    } else {
      ForwardAdvances(trace, ops, i, j - 1);
      AdvancesTransitive(trace[i].programs, trace[j - 1].programs, trace[j].programs);
    }
  }

  lemma AdvancesTransitive(a: Programs, b: Programs, c: Programs)
    requires Advances(a, b) && Advances(b, c)
    ensures Advances(a, c)
  {
    hide ParseVersion;
    if a[Current] != b[Current] && b[Current] != c[Current] {
      NewerChainAscends([a[Current].reports, b[Current].reports, c[Current].reports], 0, 2);
    }
  }

  /** While a program is installed, no operation can lose the last copy, wherever it is cut off. */
  lemma InstalledIsSafe(op: Operation, f: Files)
    requires Current in f.programs
    ensures !Loses(op, f)
  {
  }

  /**
   Two failed renames in a row leave only the backup, and the running image is then the backup.
   The next attempt removes it: after it no complete executable is left under either name.
   */
  method SecondAttemptDeletesTheLastCopy(previous: Program, next: Program, version: string, now: nat) returns (i: Installation)
    requires previous.complete && next.complete && next.reports == version
    ensures !Safe(i.programs)
  {
    i := new Installation(previous);
    var fetch := Fetch(true, true, true, true, true, true, next, true);
    i.Boot(At(Current), 100);
    var _ := i.Install(version, now, fetch, n => n == 9 || n == 10);
    i.Boot(At(Backup), 100);
    var _ := i.Install(version, now, fetch, n => false);
  }

  /**
   An installation cut off between its two renames, by a crash or by another process being faster,
   and then a report by a process that still runs: no operation fails, and no executable is left.
   */
  method ReportAfterCrashDeletesTheLastCopy(previous: Program, next: Program, version: string, now: nat)
    returns (i: Installation)
    requires previous.complete && next.complete && next.reports == version
    ensures !Safe(i.programs)
  {
    i := new Installation(previous);
    var fetch := Fetch(true, true, true, true, true, true, next, true);
    i.Boot(At(Current), 4);
    var _ := i.Install(version, now, fetch, n => false);
    i.Boot(At(Backup), 2);
    var _ := i.Confirm(n => false);
  }

  // ----- The two ways to name the backup -----

  /** A file name without its extension: a leading dot does not start one. */
  function FileStem(name: string): string {
    var dot := LastDot(name, |name|);
    if dot <= 0 then name else name[..dot]
  }

  /** The position of the last dot before `end`, or -1. */
  function LastDot(name: string, end: nat): (i: int)
    requires end <= |name|
    ensures -1 <= i < end
    ensures i >= 0 ==> name[i] == '.'
    ensures forall k :: i < k < end ==> name[k] != '.'
  {
    if end == 0 then -1 else if name[end - 1] == '.' then end - 1 else LastDot(name, end - 1)
  }

  function WithExtension(name: string, extension: string): string {
    FileStem(name) + "." + extension
  }

  const BACKUP_FILE_NAME := "nie-sla-agent.bak"

  lemma LastDotUnique(name: string, i: int)
    requires -1 <= i < |name| && (i >= 0 ==> name[i] == '.')
    requires forall k :: i < k < |name| ==> name[k] != '.'
    ensures LastDot(name, |name|) == i
  {
  }

  /** Deriving the backup of the backup gives the backup itself. */
  lemma BackupOfBackupIsItself(name: string)
    requires FileStem(name) != []
    ensures WithExtension(WithExtension(name, "bak"), "bak") == WithExtension(name, "bak")
  {
    var backup := WithExtension(name, "bak");
    LastDotUnique(backup, |FileStem(name)|);
    assert FileStem(backup) == FileStem(name);
  }

  /** Install and rollback mean the same backup exactly for an executable of the default name. */
  lemma BackupNamesAgree(name: string)
    ensures WithExtension(name, "bak") == BACKUP_FILE_NAME <==> FileStem(name) == "nie-sla-agent"
  {
    var stem := FileStem(name);
    if stem + "." + "bak" == BACKUP_FILE_NAME {
      assert |stem| == 13;
      assert stem == (stem + "." + "bak")[..13] == BACKUP_FILE_NAME[..13];
      assert BACKUP_FILE_NAME[..13] == "nie-sla-agent";
    } else {
      assert "nie-sla-agent" + "." + "bak" == BACKUP_FILE_NAME;
    }
  }
}
