/**
 The Worker's version comparison, and the order of section 11 of Semantic Versioning 2.0.0 that
 it is meant to be. JavaScript's numbers are a parameter: how a natural number rounds to one,
 and how one prints.
 */
module SemVer {
  import opened Strings
  import opened Wrappers

  const MAX_SAFE_INTEGER: nat := 0x1F_FFFF_FFFF_FFFF

  datatype Numbers = Numbers(round: nat -> int, show: int -> string)

  /** Rounding never reverses an order, and is exact for safe integers. */
  ghost predicate Rounds(js: Numbers) {
    && (forall a: nat, b: nat {:trigger js.round(a), js.round(b)} :: a <= b ==> js.round(a) <= js.round(b))
    && (forall n: nat {:trigger js.round(n)} ::
         if n <= MAX_SAFE_INTEGER then js.round(n) == n else js.round(n) > MAX_SAFE_INTEGER)
  }

  datatype Version = Version(core: seq<int>, prerelease: seq<string>)

  // ----- Reading a version -----

  /** White space and line ends, as JavaScript's `trim` removes them. */
  predicate IsJsWhitespace(c: char) { (IsWhitespace(c) && c != '\U{0085}') || c == '\U{FEFF}' }

  predicate IsIdChar(c: char) { IsDigit(c) || 'A' <= c <= 'Z' || 'a' <= c <= 'z' || c == '-' }

  predicate IsIdentifier(s: string) { s != [] && forall i :: 0 <= i < |s| ==> IsIdChar(s[i]) }

  function Trimmed(text: string): string {
    var trimmed := Trim(text, IsJsWhitespace);
    if trimmed != [] && (trimmed[0] == 'v' || trimmed[0] == 'V') then trimmed[1..] else trimmed
  }

  /** Digits that print back as they were written. */
  predicate Canonical(js: Numbers, part: string) {
    AllDigits(part) && js.show(js.round(DigitsValue(part))) == part
  }

  predicate GoodIdentifier(js: Numbers, part: string) {
    IsIdentifier(part) && (AllDigits(part) ==> Canonical(js, part))
  }

  predicate GoodCorePart(js: Numbers, part: string) {
    AllDigits(part) && js.round(DigitsValue(part)) <= MAX_SAFE_INTEGER
  }

  function FirstDash(s: string): (at: nat)
    ensures at <= |s| && '-' !in s[..at] && (at < |s| ==> s[at] == '-')
  {
    if s == [] || s[0] == '-' then 0
    else
      var at := 1 + FirstDash(s[1..]);
      assert s[..at] == [s[0]] + s[1..][..at - 1];
      at
  }

  function ParseCore(js: Numbers, text: string): Option<seq<int>> {
    var parts := Split(text, '.');
    if |parts| == 3 && forall i :: 0 <= i < 3 ==> GoodCorePart(js, parts[i])
    then Some([js.round(DigitsValue(parts[0])), js.round(DigitsValue(parts[1])), js.round(DigitsValue(parts[2]))])
    else None
  }

  function ParsePrerelease(js: Numbers, text: string): Option<seq<string>> {
    var parts := Split(text, '.');
    if forall i :: 0 <= i < |parts| ==> GoodIdentifier(js, parts[i]) then Some(parts) else None
  }

  /** Numbers in the core cannot hold a dash, so the first one begins the prerelease. */
  function ParseSemver(js: Numbers, text: string): Option<Version> {
    var s := Trimmed(text);
    var at := FirstDash(s);
    match ParseCore(js, s[..at])
    case None => None
    case Some(core) =>
      if at == |s| then Some(Version(core, []))
      else
        match ParsePrerelease(js, s[at + 1..])
        case None => None
        case Some(prerelease) => Some(Version(core, prerelease))
  }

  ghost predicate Parsed(js: Numbers, v: Version) {
    && |v.core| == 3
    && forall i :: 0 <= i < |v.prerelease| ==> GoodIdentifier(js, v.prerelease[i])
  }

  lemma ParseGivesParsed(js: Numbers, text: string)
    ensures ParseSemver(js, text).Some? ==> Parsed(js, ParseSemver(js, text).value)
  {
  }

  // ----- Comparing -----

  /** JavaScript's order of strings, and of ASCII. */
  predicate TextLess(a: string, b: string) {
    b != [] && (a == [] || a[0] < b[0] || (a[0] == b[0] && TextLess(a[1..], b[1..])))
  }

  /** Two identifiers that differ. */
  function CompareIdentifiers(js: Numbers, a: string, b: string): int {
    if AllDigits(a) && AllDigits(b) then if js.round(DigitsValue(a)) > js.round(DigitsValue(b)) then 1 else -1
    else if AllDigits(a) != AllDigits(b) then if AllDigits(a) then -1 else 1
    else if TextLess(b, a) then 1 else -1
  }

  function CompareLists(js: Numbers, a: seq<string>, b: seq<string>): int {
    if a == [] && b == [] then 0
    else if a == [] || b == [] then if a == [] then -1 else 1
    else if a[0] == b[0] then CompareLists(js, a[1..], b[1..])
    else CompareIdentifiers(js, a[0], b[0])
  }

  function ComparePrereleases(js: Numbers, a: seq<string>, b: seq<string>): int {
    if a == [] || b == [] then if |a| == |b| then 0 else if a != [] then -1 else 1
    else CompareLists(js, a, b)
  }

  function CompareCores(a: seq<int>, b: seq<int>): int
    requires |a| == |b|
  {
    if a == [] then 0
    else if a[0] != b[0] then if a[0] > b[0] then 1 else -1
    else CompareCores(a[1..], b[1..])
  }

  function Compare(js: Numbers, a: Version, b: Version): int
    requires |a.core| == |b.core|
  {
    if CompareCores(a.core, b.core) != 0 then CompareCores(a.core, b.core)
    else ComparePrereleases(js, a.prerelease, b.prerelease)
  }

  method ComparePrerelease(js: Numbers, a: seq<string>, b: seq<string>) returns (order: int)
    ensures order == ComparePrereleases(js, a, b)
  {
    if a == [] || b == [] {
      return if |a| == |b| then 0 else if a != [] then -1 else 1;
    }
    var index := 0;
    while index < (if |a| > |b| then |a| else |b|)
      invariant index <= |a| && index <= |b|
      invariant ComparePrereleases(js, a, b) == CompareLists(js, a[index..], b[index..])
    {
      if index == |a| || index == |b| {
        return if index == |a| then -1 else 1;
      }
      if a[index] != b[index] {
        return CompareIdentifiers(js, a[index], b[index]);
      }
      assert a[index..][1..] == a[index + 1..] && b[index..][1..] == b[index + 1..];
      index := index + 1;
    }
    return 0;
  }

  /** `None` is the error on text that is not a version. */
  method CompareAppVersions(js: Numbers, left: string, right: string) returns (order: Option<int>)
    ensures order.Some? <==> ParseSemver(js, left).Some? && ParseSemver(js, right).Some?
    ensures order.Some? ==> order.value == Compare(js, ParseSemver(js, left).value, ParseSemver(js, right).value)
  {
    ParseGivesParsed(js, left);
    ParseGivesParsed(js, right);
    var a, b := ParseSemver(js, left), ParseSemver(js, right);
    if a.None? || b.None? {
      return None;
    }
    var x, y := a.value.core, b.value.core;
    for index := 0 to 3
      invariant CompareCores(x, y) == CompareCores(x[index..], y[index..])
    {
      if x[index] != y[index] {
        return Some(if x[index] > y[index] then 1 else -1);
      }
      assert x[index..][1..] == x[index + 1..] && y[index..][1..] == y[index + 1..];
    }
    var last := ComparePrerelease(js, a.value.prerelease, b.value.prerelease);
    return Some(last);
  }

  // ----- Section 11 of Semantic Versioning 2.0.0 -----

  /** 11.4.1 to 11.4.3: numbers by value, below words; words in ASCII order. */
  ghost predicate IdentifierBelow(a: string, b: string) {
    if AllDigits(a) then !AllDigits(b) || DigitsValue(a) < DigitsValue(b)
    else !AllDigits(b) && AsciiBelow(a, b)
  }

  ghost predicate AsciiBelow(a: string, b: string) {
    exists k :: AsciiBelowAt(a, b, k)
  }

  predicate AsciiBelowAt(a: string, b: string, k: int) {
    0 <= k <= |a| && k < |b| && a[..k] == b[..k] && (k == |a| || a[k] < b[k])
  }

  /** 11.4: the first difference decides; 11.4.4: of two lists that agree, the longer is higher. */
  ghost predicate ListBelow(a: seq<string>, b: seq<string>) {
    exists k :: ListBelowAt(a, b, k)
  }

  ghost predicate ListBelowAt(a: seq<string>, b: seq<string>, k: int) {
    0 <= k <= |a| && k < |b| && a[..k] == b[..k] && (k == |a| || (a[k] != b[k] && IdentifierBelow(a[k], b[k])))
  }

  ghost predicate CoreBelow(a: seq<int>, b: seq<int>) {
    exists k :: CoreBelowAt(a, b, k)
  }

  predicate CoreBelowAt(a: seq<int>, b: seq<int>, k: int) {
    0 <= k < |a| == |b| && a[..k] == b[..k] && a[k] < b[k]
  }

  /** 11.2: numbers first; 11.3: a version with a prerelease is below the one without. */
  ghost predicate Below(a: Version, b: Version) {
    || CoreBelow(a.core, b.core)
    || (a.core == b.core && a.prerelease != [] && (b.prerelease == [] || ListBelow(a.prerelease, b.prerelease)))
  }

  lemma SameBehindHead<T>(a: seq<T>, b: seq<T>, k: nat)
    requires 0 < k <= |a| && k <= |b| && a[..k] == b[..k]
    ensures a[0] == b[0] && a[1..][..k - 1] == b[1..][..k - 1]
  {
    assert a[0] == a[..k][0] && b[0] == b[..k][0];
    assert a[1..][..k - 1] == a[..k][1..] && b[1..][..k - 1] == b[..k][1..];
  }

  lemma {:induction false} TextLessIsAscii(a: string, b: string)
    ensures TextLess(a, b) <==> AsciiBelow(a, b)
  {
    if a != [] && b != [] {
      TextLessIsAscii(a[1..], b[1..]);
      if a[0] < b[0] { assert AsciiBelowAt(a, b, 0); }
      if a[0] == b[0] {
        if k :| AsciiBelowAt(a[1..], b[1..], k) {
          assert a[..k + 1] == [a[0]] + a[1..][..k] && b[..k + 1] == [b[0]] + b[1..][..k];
          assert AsciiBelowAt(a, b, k + 1);
        }
      }
      if k :| AsciiBelowAt(a, b, k) {
        if k > 0 {
          SameBehindHead(a, b, k);
          assert AsciiBelowAt(a[1..], b[1..], k - 1);
        }
      }
    } else if b != [] {
      assert AsciiBelowAt(a, b, 0);
    }
  }

  lemma {:induction false} TextLessTotal(a: string, b: string)
    ensures TextLess(a, b) || a == b || TextLess(b, a)
    ensures !(TextLess(a, b) && (a == b || TextLess(b, a)))
  {
    if a != [] && b != [] {
      TextLessTotal(a[1..], b[1..]);
      assert a == [a[0]] + a[1..] && b == [b[0]] + b[1..];
    }
  }

  lemma {:induction false} TextLessTransitive(a: string, b: string, c: string)
    requires TextLess(a, b) && TextLess(b, c)
    ensures TextLess(a, c)
  {
    if a != [] && a[0] == b[0] && b[0] == c[0] { TextLessTransitive(a[1..], b[1..], c[1..]); }
  }

  /** Because accepted numbers print back as written, different ones stay apart when rounded. */
  lemma NumbersKeepOrder(js: Numbers, a: string, b: string)
    requires Rounds(js) && Canonical(js, a) && Canonical(js, b) && a != b
    ensures js.round(DigitsValue(a)) > js.round(DigitsValue(b)) <==> DigitsValue(a) > DigitsValue(b)
    ensures DigitsValue(a) != DigitsValue(b)
  {
  }

  lemma IdentifiersAgree(js: Numbers, a: string, b: string)
    requires Rounds(js) && GoodIdentifier(js, a) && GoodIdentifier(js, b) && a != b
    ensures CompareIdentifiers(js, a, b) == if IdentifierBelow(a, b) then -1 else 1
    ensures IdentifierBelow(a, b) <==> !IdentifierBelow(b, a)
  {
    if AllDigits(a) && AllDigits(b) {
      NumbersKeepOrder(js, a, b);
    } else if !AllDigits(a) && !AllDigits(b) {
      TextLessTotal(a, b);
      TextLessIsAscii(a, b);
      TextLessIsAscii(b, a);
    }
  }

  lemma ListBelowCons(a: seq<string>, b: seq<string>)
    requires a != [] && b != [] && a[0] == b[0]
    ensures ListBelow(a, b) <==> ListBelow(a[1..], b[1..])
  {
    if k :| ListBelowAt(a[1..], b[1..], k) {
      assert a[..k + 1] == [a[0]] + a[1..][..k] && b[..k + 1] == [b[0]] + b[1..][..k];
      assert ListBelowAt(a, b, k + 1);
    }
    if k :| ListBelowAt(a, b, k) {
      assert k > 0;
      SameBehindHead(a, b, k);
      assert ListBelowAt(a[1..], b[1..], k - 1);
    }
  }

  lemma HeadsSame(a: seq<string>, b: seq<string>, k: int)
    requires ListBelowAt(a, b, k) && k > 0
    ensures a[0] == b[0]
  {
    assert a[..k][0] == b[..k][0];
  }

  lemma ListBelowFirst(a: seq<string>, b: seq<string>)
    requires a == [] || b == [] || a[0] != b[0]
    ensures ListBelow(a, b) <==> b != [] && (a == [] || IdentifierBelow(a[0], b[0]))
  {
    if b != [] && (a == [] || IdentifierBelow(a[0], b[0])) {
      assert ListBelowAt(a, b, 0);
    }
    if k :| ListBelowAt(a, b, k) {
      if k > 0 {
        HeadsSame(a, b, k);
        assert false;
      }
    }
  }

  ghost predicate AllGood(js: Numbers, list: seq<string>) {
    forall i :: 0 <= i < |list| ==> GoodIdentifier(js, list[i])
  }

  lemma {:induction false} ListsAgree(js: Numbers, a: seq<string>, b: seq<string>)
    requires Rounds(js) && AllGood(js, a) && AllGood(js, b)
    ensures CompareLists(js, a, b) == if a == b then 0 else if ListBelow(a, b) then -1 else 1
    ensures a == b ==> !ListBelow(a, b)
    ensures a != b ==> (ListBelow(a, b) <==> !ListBelow(b, a))
    decreases |a|
  {
    if a != [] && b != [] && a[0] == b[0] {
      ListsAgree(js, a[1..], b[1..]);
      ListBelowCons(a, b);
      ListBelowCons(b, a);
      assert a == [a[0]] + a[1..] && b == [b[0]] + b[1..];
    } else {
      ListBelowFirst(a, b);
      ListBelowFirst(b, a);
      if a != [] && b != [] { IdentifiersAgree(js, a[0], b[0]); }
    }
  }

  lemma CoreBelowCons(a: seq<int>, b: seq<int>)
    requires a != [] && |a| == |b|
    ensures CoreBelow(a, b) <==> a[0] < b[0] || (a[0] == b[0] && CoreBelow(a[1..], b[1..]))
  {
    if a[0] < b[0] { assert CoreBelowAt(a, b, 0); }
    if a[0] == b[0] {
      if k :| CoreBelowAt(a[1..], b[1..], k) {
        assert a[..k + 1] == [a[0]] + a[1..][..k] && b[..k + 1] == [b[0]] + b[1..][..k];
        assert CoreBelowAt(a, b, k + 1);
      }
    }
    if k :| CoreBelowAt(a, b, k) {
      if k > 0 {
        SameBehindHead(a, b, k);
        assert CoreBelowAt(a[1..], b[1..], k - 1);
      }
    }
  }

  lemma {:induction false} CoresAgree(a: seq<int>, b: seq<int>)
    requires |a| == |b|
    ensures CompareCores(a, b) == if a == b then 0 else if CoreBelow(a, b) then -1 else 1
    ensures a == b ==> !CoreBelow(a, b)
    ensures a != b ==> (CoreBelow(a, b) <==> !CoreBelow(b, a))
    decreases |a|
  {
    if a == [] {
    } else {
      CoresAgree(a[1..], b[1..]);
      CoreBelowCons(a, b);
      CoreBelowCons(b, a);
      assert a == [a[0]] + a[1..] && b == [b[0]] + b[1..];
    }
  }

  /**
   The comparison is the order of section 11, and calls two versions equal exactly when their
   numbers and prereleases are the same.
   */
  lemma AgreesWithSection11(js: Numbers, a: Version, b: Version)
    requires Rounds(js) && Parsed(js, a) && Parsed(js, b)
    ensures Compare(js, a, b) == -1 <==> Below(a, b)
    ensures Compare(js, a, b) == 1 <==> Below(b, a)
    ensures Compare(js, a, b) == 0 <==> a == b
  {
    CoresAgree(a.core, b.core);
    CoresAgree(b.core, a.core);
    ListsAgree(js, a.prerelease, b.prerelease);
    ListsAgree(js, b.prerelease, a.prerelease);
  }

  lemma Antisymmetric(js: Numbers, a: Version, b: Version)
    requires Rounds(js) && Parsed(js, a) && Parsed(js, b)
    ensures Compare(js, a, b) == -Compare(js, b, a)
  {
    AgreesWithSection11(js, a, b);
    AgreesWithSection11(js, b, a);
    CoresAgree(a.core, b.core);
    CoresAgree(b.core, a.core);
    ListsAgree(js, a.prerelease, b.prerelease);
    ListsAgree(js, b.prerelease, a.prerelease);
  }

  // ----- Transitivity -----

  lemma IdentifierTransitive(a: string, b: string, c: string)
    requires IdentifierBelow(a, b) && IdentifierBelow(b, c)
    ensures IdentifierBelow(a, c)
  {
    if !AllDigits(a) {
      TextLessIsAscii(a, b);
      TextLessIsAscii(b, c);
      TextLessIsAscii(a, c);
      TextLessTransitive(a, b, c);
    }
  }

  lemma {:induction false} ListTransitive(a: seq<string>, b: seq<string>, c: seq<string>)
    requires ListBelow(a, b) && ListBelow(b, c)
    ensures ListBelow(a, c)
    decreases |b|
  {
    if a != [] && b != [] && a[0] == b[0] {
      ListBelowCons(a, b);
      if c != [] && b[0] == c[0] {
        ListBelowCons(b, c);
        ListTransitive(a[1..], b[1..], c[1..]);
        ListBelowCons(a, c);
      } else {
        ListBelowFirst(b, c);
        ListBelowFirst(a, c);
      }
    } else {
      ListBelowFirst(a, b);
      if c != [] && b[0] == c[0] {
        ListBelowFirst(a, c);
      } else {
        ListBelowFirst(b, c);
        if a == [] {
          ListBelowFirst(a, c);
        } else {
          IdentifierTransitive(a[0], b[0], c[0]);
          DifferentHeads(a, c);
        }
      }
    }
  }

  lemma DifferentHeads(a: seq<string>, c: seq<string>)
    requires a != [] && c != [] && IdentifierBelow(a[0], c[0])
    ensures ListBelow(a, c)
  {
    IdentifierIrreflexive(a[0]);
    ListBelowFirst(a, c);
  }

  lemma IdentifierIrreflexive(a: string)
    ensures !IdentifierBelow(a, a)
  {
    TextLessTotal(a, a);
    TextLessIsAscii(a, a);
  }

  lemma {:induction false} CoreTransitive(a: seq<int>, b: seq<int>, c: seq<int>)
    requires CoreBelow(a, b) && CoreBelow(b, c)
    ensures CoreBelow(a, c)
    decreases |a|
  {
    CoreBelowCons(a, b);
    CoreBelowCons(b, c);
    if a[0] == b[0] && b[0] == c[0] { CoreTransitive(a[1..], b[1..], c[1..]); }
    CoreBelowCons(a, c);
  }

  /** The order is transitive across numbers, words, shorter lists and releases. */
  lemma Transitive(js: Numbers, a: Version, b: Version, c: Version)
    requires Rounds(js) && Parsed(js, a) && Parsed(js, b) && Parsed(js, c)
    requires Compare(js, a, b) <= 0 && Compare(js, b, c) <= 0
    ensures Compare(js, a, c) <= 0
    ensures Compare(js, a, b) < 0 || Compare(js, b, c) < 0 ==> Compare(js, a, c) < 0
  {
    SignsOnly(js, a, b);
    SignsOnly(js, b, c);
    SignsOnly(js, a, c);
    AgreesWithSection11(js, a, b);
    AgreesWithSection11(js, b, c);
    AgreesWithSection11(js, a, c);
    if Below(a, b) && Below(b, c) { BelowTransitive(a, b, c); }
  }

  lemma SignsOnly(js: Numbers, a: Version, b: Version)
    requires Rounds(js) && Parsed(js, a) && Parsed(js, b)
    ensures Compare(js, a, b) in {-1, 0, 1}
  {
    CoresAgree(a.core, b.core);
    ListsAgree(js, a.prerelease, b.prerelease);
  }

  lemma BelowTransitive(a: Version, b: Version, c: Version)
    requires Below(a, b) && Below(b, c)
    ensures Below(a, c)
  {
    if CoreBelow(a.core, b.core) && CoreBelow(b.core, c.core) { CoreTransitive(a.core, b.core, c.core); }
    if ListBelow(a.prerelease, b.prerelease) && ListBelow(b.prerelease, c.prerelease) {
      ListTransitive(a.prerelease, b.prerelease, c.prerelease);
    }
  }

  // ----- Every version that is written is read -----

  function Written(core: seq<string>, prerelease: seq<string>): string {
    Join(core, '.') + if prerelease == [] then "" else "-" + Join(prerelease, '.')
  }

  /** A version text is its numbers and identifiers, and is read as them. */
  lemma ReadsWritten(js: Numbers, core: seq<string>, prerelease: seq<string>)
    requires |core| == 3 && GoodCorePart(js, core[0]) && GoodCorePart(js, core[1]) && GoodCorePart(js, core[2])
    requires AllGood(js, prerelease) && Rounds(js)
    ensures ParseSemver(js, Written(core, prerelease))
         == Some(Version([DigitsValue(core[0]), DigitsValue(core[1]), DigitsValue(core[2])], prerelease))
  {
    hide Canonical, FirstDash, Join, ParseSemver, Split, Trimmed;
    var before, after := Join(core, '.'), if prerelease == [] then "" else "-" + Join(prerelease, '.');
    CoreText(core);
    SplitJoin(core, '.');
    if prerelease != [] {
      IdText(js, prerelease);
      SplitJoin(prerelease, '.');
      assert after[1..] == Join(prerelease, '.');
    }
    Untrimmed(before + after);
    DashAt(before, after);
    ReadsParts(js, before, after);
  }

  /** And nothing else is read: behind white space and one `v` stands exactly such a text. */
  lemma ReadsOnlyWritten(js: Numbers, text: string) returns (core: seq<string>)
    requires ParseSemver(js, text).Some? && Rounds(js)
    ensures var v := ParseSemver(js, text).value;
            && Trimmed(text) == Written(core, v.prerelease) && AllGood(js, v.prerelease)
            && |core| == 3 && GoodCorePart(js, core[0]) && GoodCorePart(js, core[1]) && GoodCorePart(js, core[2])
            && v.core == [DigitsValue(core[0]), DigitsValue(core[1]), DigitsValue(core[2])]
  {
    hide Canonical, IsIdChar, Join, Split, Trimmed;
    var s := Trimmed(text);
    var at := FirstDash(s);
    core := Split(s[..at], '.');
    JoinSplit(s[..at], '.');
    if at < |s| {
      JoinSplit(s[at + 1..], '.');
      assert s == s[..at] + "-" + s[at + 1..];
    } else {
      assert s == s[..at] + "";
    }
  }

  lemma ReadsParts(js: Numbers, before: string, after: string)
    requires Trimmed(before + after) == before + after && FirstDash(before + after) == |before|
    ensures ParseSemver(js, before + after)
         == match ParseCore(js, before)
            case None => None
            case Some(core) =>
              if after == [] then Some(Version(core, []))
              else
                match ParsePrerelease(js, after[1..])
                case None => None
                case Some(prerelease) => Some(Version(core, prerelease))
  {
    var s := before + after;
    assert s[..|before|] == before;
    if after != [] { assert s[|before| + 1..] == after[1..]; }
  }

  lemma {:induction false} DashAt(before: string, after: string)
    requires '-' !in before && (after == [] || after[0] == '-')
    ensures FirstDash(before + after) == |before|
  {
    if before != [] {
      assert (before + after)[1..] == before[1..] + after;
      DashAt(before[1..], after);
    } else {
      assert before + after == after;
    }
  }

  lemma {:induction false} JoinChars(parts: seq<string>, separator: char, c: char)
    requires c in Join(parts, separator)
    ensures c == separator || exists i :: 0 <= i < |parts| && c in parts[i]
  {
    if |parts| > 1 && c !in parts[0] && c != separator { JoinChars(parts[1..], separator, c); }
  }

  predicate Plain(c: char) { IsIdChar(c) || c == '.' }

  lemma CoreText(core: seq<string>)
    requires |core| == 3 && forall i :: 0 <= i < 3 ==> AllDigits(core[i])
    ensures var s := Join(core, '.'); s != [] && IsDigit(s[0]) && '-' !in s && forall c <- s :: Plain(c)
  {
    var s := Join(core, '.');
    assert s[0] == core[0][0];
    forall c | c in s ensures Plain(c) && c != '-' { JoinChars(core, '.', c); }
  }

  lemma IdText(js: Numbers, prerelease: seq<string>)
    requires prerelease != [] && AllGood(js, prerelease)
    ensures forall c <- Join(prerelease, '.') :: Plain(c)
  {
    forall c | c in Join(prerelease, '.') ensures Plain(c) { JoinChars(prerelease, '.', c); }
  }

  lemma Untrimmed(s: string)
    requires s != [] && IsDigit(s[0]) && forall c <- s :: Plain(c)
    ensures Trimmed(s) == s
  {
    assert !IsJsWhitespace(s[0]) && s[|s| - 1] in s;
  }
}
