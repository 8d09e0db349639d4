/** String helpers that several components share: splitting, trimming, and decimal numbers. */
module Strings {
  import opened Wrappers

  function Split<T(==)>(s: seq<T>, separator: T): (parts: seq<seq<T>>)
    ensures |parts| > 0
  {
    if s == [] then [[]]
    else
      var rest := Split(s[1..], separator);
      if s[0] == separator then [[]] + rest else [[s[0]] + rest[0]] + rest[1..]
  }

  function Join<T>(parts: seq<seq<T>>, separator: T): seq<T> {
    if parts == [] then []
    else if |parts| == 1 then parts[0]
    else parts[0] + [separator] + Join(parts[1..], separator)
  }

  /** Splitting loses nothing. */
  lemma {:induction false} JoinSplit(s: string, separator: char)
    ensures Join(Split(s, separator), separator) == s
  {
    if s == [] {
    } else {
      JoinSplit(s[1..], separator);
      var rest := Split(s[1..], separator);
      if s[0] == separator {
        assert ([[]] + rest)[1..] == rest;
      } else if |rest| > 1 {
        assert ([[s[0]] + rest[0]] + rest[1..])[1..] == rest[1..];
      }
    }
  }

  lemma {:induction false} SplitWord(word: string, separator: char)
    requires separator !in word
    ensures Split(word, separator) == [word]
  {
    if word == [] {
    } else {
      SplitWord(word[1..], separator);
      assert [word[0]] + word[1..] == word;
    }
  }

  lemma {:induction false} SplitAfter(word: string, rest: string, separator: char)
    requires separator !in word
    ensures Split(word + [separator] + rest, separator) == [word] + Split(rest, separator)
  {
    var s := word + [separator] + rest;
    if word == [] {
      assert s[1..] == rest;
    } else {
      SplitAfter(word[1..], rest, separator);
      assert s[1..] == word[1..] + [separator] + rest;
      var tail := [word[1..]] + Split(rest, separator);
      assert tail[1..] == Split(rest, separator) && [word[0]] + word[1..] == word;
    }
  }

  /** Joining parts that do not hold the separator loses nothing. */
  lemma {:induction false} SplitJoin(parts: seq<string>, separator: char)
    requires parts != [] && forall i :: 0 <= i < |parts| ==> separator !in parts[i]
    ensures Split(Join(parts, separator), separator) == parts
  {
    if |parts| == 1 {
      SplitWord(parts[0], separator);
    } else {
      SplitJoin(parts[1..], separator);
      SplitAfter(parts[0], Join(parts[1..], separator), separator);
    }
  }

  predicate IsDigit(c: char) { '0' <= c <= '9' }

  predicate AllDigits(s: string) {
    s != [] && forall i :: 0 <= i < |s| ==> IsDigit(s[i])
  }

  function DigitValue(c: char): nat
    requires IsDigit(c)
  {
    c as int - '0' as int
  }

  function DigitsValue(s: string): nat
    requires forall i :: 0 <= i < |s| ==> IsDigit(s[i])
  {
    if s == [] then 0 else DigitsValue(s[..|s| - 1]) * 10 + DigitValue(s[|s| - 1])
  }

  /** How Rust reads an unsigned integer: an optional plus sign, digits, and a bound. */
  function ParseUnsigned(s: string, limit: nat): Option<nat> {
    var digits := if |s| > 1 && s[0] == '+' then s[1..] else s;
    if AllDigits(digits) && DigitsValue(digits) <= limit then Some(DigitsValue(digits)) else None
  }

  /** Unicode white space, as Rust's `trim` removes it. */
  predicate IsWhitespace(c: char) {
    || '\t' <= c <= '\r' || c == ' ' || c == '\U{0085}' || c == '\U{00A0}' || c == '\U{1680}'
    || '\U{2000}' <= c <= '\U{200A}' || c == '\U{2028}' || c == '\U{2029}' || c == '\U{202F}'
    || c == '\U{205F}' || c == '\U{3000}'
  }

  function TrimStart(s: string, drop: char -> bool): string {
    if s != [] && drop(s[0]) then TrimStart(s[1..], drop) else s
  }

  function TrimEnd(s: string, drop: char -> bool): string {
    if s != [] && drop(s[|s| - 1]) then TrimEnd(s[..|s| - 1], drop) else s
  }

  function Trim(s: string, drop: char -> bool): string {
    TrimEnd(TrimStart(s, drop), drop)
  }

  /** Trimming takes off what is dropped at either end, and stops there. */
  lemma {:induction false} TrimPadded(front: string, core: string, back: string, drop: char -> bool)
    requires core != [] && !drop(core[0]) && !drop(core[|core| - 1])
    requires (forall c <- front :: drop(c)) && (forall c <- back :: drop(c))
    ensures Trim(front + core + back, drop) == core
  {
    TrimStartPadded(front, core + back, drop);
    assert front + core + back == front + (core + back) && (core + back)[0] == core[0];
    TrimEndPadded(core, back, drop);
  }

  lemma {:induction false} TrimStartPadded(front: string, rest: string, drop: char -> bool)
    requires rest != [] && !drop(rest[0]) && forall c <- front :: drop(c)
    ensures TrimStart(front + rest, drop) == rest
  {
    if front == [] {
      assert front + rest == rest;
    } else {
      TrimStartPadded(front[1..], rest, drop);
      assert (front + rest)[1..] == front[1..] + rest;
    }
  }

  lemma {:induction false} TrimEndPadded(core: string, back: string, drop: char -> bool)
    requires core != [] && !drop(core[|core| - 1]) && forall c <- back :: drop(c)
    ensures TrimEnd(core + back, drop) == core
  {
    if back == [] {
      assert core + back == core;
    } else {
      var all, init := core + back, back[..|back| - 1];
      assert back[|back| - 1] in back && forall c <- init :: c in back;
      TrimEndPadded(core, init, drop);
      assert all[..|all| - 1] == core + init && all[|all| - 1] == back[|back| - 1];
    }
  }
}
