/** The agent's own version numbers and the decision to install an update. */
module AgentVersion {
  import opened Strings
  import opened Wrappers

  datatype Version = Version(major: nat, minor: nat, patch: nat)

  const U64_MAX: nat := 0xFFFF_FFFF_FFFF_FFFF

  /** White space and any number of leading `v`s are dropped; three unsigned parts must remain. */
  function ParseVersion(text: string): Option<Version> {
    var parts := Split(TrimStart(Trim(text, IsWhitespace), c => c == 'v'), '.');
    if |parts| != 3 then None
    else
      match (ParseUnsigned(parts[0], U64_MAX), ParseUnsigned(parts[1], U64_MAX), ParseUnsigned(parts[2], U64_MAX))
      case (Some(major), Some(minor), Some(patch)) => Some(Version(major, minor, patch))
      case _ => None
  }

  predicate IsNumber(part: string) { AllDigits(part) && DigitsValue(part) <= U64_MAX }

  /** Three groups of digits within 64 bits are read as their numbers, with or without leading `v`s. */
  lemma ReadsWritten(parts: seq<string>, prefix: string)
    requires |parts| == 3 && IsNumber(parts[0]) && IsNumber(parts[1]) && IsNumber(parts[2])
    requires forall i :: 0 <= i < |prefix| ==> prefix[i] == 'v'
    ensures ParseVersion(prefix + Join(parts, '.'))
         == Some(Version(DigitsValue(parts[0]), DigitsValue(parts[1]), DigitsValue(parts[2])))
  {
    hide Join, Split, Trim, TrimStart;
    var text := Join(parts, '.');
    SplitJoin(parts, '.');
    DottedEnds(parts);
    NothingToTrim(prefix + text);
    WithoutPrefix(prefix, text);
  }

  lemma DottedEnds(parts: seq<string>)
    requires |parts| == 3 && IsNumber(parts[0]) && IsNumber(parts[1]) && IsNumber(parts[2])
    ensures var text := Join(parts, '.'); text != [] && IsDigit(text[0]) && IsDigit(text[|text| - 1])
  {
    var text := Join(parts, '.');
    assert text[0] == parts[0][0];
    assert Join(parts[1..], '.') == parts[1] + ['.'] + parts[2];
    assert text[|text| - 1] == parts[2][|parts[2]| - 1];
  }

  lemma NothingToTrim(text: string)
    requires text != [] && !IsWhitespace(text[0]) && !IsWhitespace(text[|text| - 1])
    ensures Trim(text, IsWhitespace) == text
  {
  }

  lemma {:induction false} WithoutPrefix(prefix: string, text: string)
    requires text != [] && IsDigit(text[0])
    requires forall i :: 0 <= i < |prefix| ==> prefix[i] == 'v'
    ensures TrimStart(prefix + text, c => c == 'v') == text
  {
    if prefix != [] {
      WithoutPrefix(prefix[1..], text);
      assert (prefix + text)[1..] == prefix[1..] + text;
    } else {
      assert prefix + text == text;
    }
  }

  predicate Later(a: Version, b: Version) {
    a.major > b.major || (a.major == b.major && (a.minor > b.minor || (a.minor == b.minor && a.patch > b.patch)))
  }

  /** `None` stands for the error on text that is not a version. */
  function IsNewer(candidate: string, current: string): Option<bool> {
    match (ParseVersion(candidate), ParseVersion(current))
    case (Some(a), Some(b)) => Some(Later(a, b))
    case _ => None
  }

  /** Digit groups, each within 64 bits, of a version. */
  predicate IsVersion(parts: seq<string>) {
    |parts| == 3 && IsNumber(parts[0]) && IsNumber(parts[1]) && IsNumber(parts[2])
  }

  predicate OnlyVs(prefix: string) { forall i :: 0 <= i < |prefix| ==> prefix[i] == 'v' }

  /** At the first group whose numbers differ, `a` has the larger. */
  predicate LargerAt(a: seq<string>, b: seq<string>, i: int)
    requires IsVersion(a) && IsVersion(b)
  {
    0 <= i < 3 && (forall k :: 0 <= k < i ==> DigitsValue(a[k]) == DigitsValue(b[k])) && DigitsValue(a[i]) > DigitsValue(b[i])
  }

  /** Newer means the larger number in the first group that differs, whatever the groups' lengths. */
  lemma NewerIff(a: seq<string>, b: seq<string>, prefix: string, other: string)
    requires IsVersion(a) && IsVersion(b) && OnlyVs(prefix) && OnlyVs(other)
    ensures IsNewer(prefix + Join(a, '.'), other + Join(b, '.')) == Some(exists i :: LargerAt(a, b, i))
  {
    hide DigitsValue, Join, ParseVersion;
    ReadsWritten(a, prefix);
    ReadsWritten(b, other);
    var x := Version(DigitsValue(a[0]), DigitsValue(a[1]), DigitsValue(a[2]));
    var y := Version(DigitsValue(b[0]), DigitsValue(b[1]), DigitsValue(b[2]));
    if Later(x, y) {
      assert LargerAt(a, b, if x.major != y.major then 0 else if x.minor != y.minor then 1 else 2);
    }
  }

  /** What is read as a version is three groups, each an optional plus sign and digits; nothing else is compared. */
  lemma ReadsOnlyVersions(text: string) returns (parts: seq<string>)
    requires ParseVersion(text).Some?
    ensures TrimStart(Trim(text, IsWhitespace), c => c == 'v') == Join(parts, '.') && |parts| == 3
    ensures forall i :: 0 <= i < 3 ==> IsNumber(parts[i]) || (parts[i] != "" && parts[i][0] == '+' && IsNumber(parts[i][1..]))
  {
    hide DigitsValue, Join, Split, Trim, TrimStart;
    var inner := TrimStart(Trim(text, IsWhitespace), c => c == 'v');
    parts := Split(inner, '.');
    JoinSplit(inner, '.');
  }

  /** Versions that are successively newer never come back to an earlier one. */
  lemma {:induction false} NewerChainAscends(versions: seq<string>, i: nat, j: nat)
    requires forall k :: 0 <= k < |versions| - 1 ==> IsNewer(versions[k + 1], versions[k]) == Some(true)
    requires i < j < |versions|
    ensures IsNewer(versions[j], versions[i]) == Some(true)
    decreases j
  {
    if i + 1 < j {
      NewerChainAscends(versions, i, j - 1);
      assert IsNewer(versions[j - 1 + 1], versions[j - 1]) == Some(true);
    } else {
      assert IsNewer(versions[i + 1], versions[i]) == Some(true);
    }
  }

  datatype Policy = Policy(autoUpdate: bool, latestVersion: string)

  /** The official channel takes over only when the instance has nothing newer to offer. */
  function EffectivePolicy(policy: Policy, official: Option<string>, running: string): Policy {
    if policy.autoUpdate && IsNewer(policy.latestVersion, running) == Some(false) && official.Some?
       && IsNewer(official.value, running) == Some(true) then
      Policy(true, if official.value != [] && official.value[0] == 'v' then official.value else "v" + official.value)
    else policy
  }

  datatype Decision =
    | BadVersion | UpToDate | Managed | PrivilegedRecovery | AvailableManual | TaskRunning | Install(version: string)

  function CheckForUpdate(
      policy: Policy, official: Option<string>, running: string,
      privilegedUpdater: bool, telemetryRole: bool, managerActive: bool, taskRunning: bool): Decision
  {
    var effective := EffectivePolicy(policy, official, running);
    match IsNewer(effective.latestVersion, running)
    case None => BadVersion
    case Some(newer) =>
      if !newer then UpToDate
      else if effective.autoUpdate && privilegedUpdater && telemetryRole && (!telemetryRole || managerActive) then Managed
      else if effective.autoUpdate && privilegedUpdater && telemetryRole then PrivilegedRecovery
      else if !effective.autoUpdate then AvailableManual
      else if taskRunning then TaskRunning
      else Install(effective.latestVersion)
  }

  /** Whatever the instance or the official channel says, only a strictly newer version is installed. */
  lemma InstallsOnlyNewer(
      policy: Policy, official: Option<string>, running: string,
      privilegedUpdater: bool, telemetryRole: bool, managerActive: bool, taskRunning: bool)
    ensures var decision :=
              CheckForUpdate(policy, official, running, privilegedUpdater, telemetryRole, managerActive, taskRunning);
            decision.Install? ==>
              IsNewer(decision.version, running) == Some(true) && policy.autoUpdate && !taskRunning
              && !(privilegedUpdater && telemetryRole)
  {
  }

  /** The text an official version is installed by. */
  function Prefixed(version: string): string { if version != [] && version[0] == 'v' then version else "v" + version }

  /**
   When a version is installed, and which: the instance's if it is newer than the running one, the
   official one if that is newer and the instance's is not; with updates on, no job running, and
   nobody with more rights to do it.
   */
  lemma InstallsIff(
      policy: Policy, official: Option<string>, running: string,
      privilegedUpdater: bool, telemetryRole: bool, managerActive: bool, taskRunning: bool, version: string)
    ensures CheckForUpdate(policy, official, running, privilegedUpdater, telemetryRole, managerActive, taskRunning)
            == Install(version)
            <==>
            && policy.autoUpdate && !taskRunning && !(privilegedUpdater && telemetryRole)
            && IsNewer(version, running) == Some(true)
            && (if IsNewer(policy.latestVersion, running) == Some(true) then version == policy.latestVersion
                else
                  && IsNewer(policy.latestVersion, running) == Some(false)
                  && official.Some? && IsNewer(official.value, running) == Some(true)
                  && version == Prefixed(official.value))
  {
    hide IsNewer;
  }

  /** The form the watchdog compares: one optional leading `v`, three digit groups. */
  function CanonicalVersion(text: string): Option<string> {
    var normalized := if text != [] && text[0] == 'v' then text[1..] else text;
    var parts := Split(normalized, '.');
    if DigitGroups(parts) then Some("v" + normalized) else None
  }

  /** A version the watchdog accepts is one optional `v` and three groups of digits; it then expects exactly one `v`. */
  lemma CanonicalIff(text: string, canonical: string)
    ensures CanonicalVersion(text) == Some(canonical) <==>
            exists parts :: DigitGroups(parts) && canonical == "v" + Join(parts, '.')
                            && (text == Join(parts, '.') || text == "v" + Join(parts, '.'))
  {
    hide AllDigits, Join, Split;
    var normalized := if text != [] && text[0] == 'v' then text[1..] else text;
    JoinSplit(normalized, '.');
    assert CanonicalVersion(text).Some? ==> DigitGroups(Split(normalized, '.'));
    forall parts | DigitGroups(parts) && (text == Join(parts, '.') || text == "v" + Join(parts, '.'))
      ensures CanonicalVersion(text) == Some("v" + Join(parts, '.'))
    {
      GroupsSplit(parts);
      assert ("v" + Join(parts, '.'))[1..] == Join(parts, '.');
    }
  }

  predicate DigitGroups(parts: seq<string>) {
    |parts| == 3 && forall i :: 0 <= i < 3 ==> AllDigits(parts[i])
  }

  lemma GroupsSplit(parts: seq<string>)
    requires DigitGroups(parts)
    ensures Split(Join(parts, '.'), '.') == parts && Join(parts, '.') != [] && Join(parts, '.')[0] != 'v'
  {
    SplitJoin(parts, '.');
    assert Join(parts, '.')[0] == parts[0][0];
  }
}
