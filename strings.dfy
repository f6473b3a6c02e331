/**
 * String operations the source takes from JavaScript's standard library:
 * `Number#toString` on non-negative integers, `String#split` on one
 * character, `String#trim`, `String#startsWith` (`IsPrefix`) and an ASCII
 * `toUpperCase`.
 */
module Strings {

  // ---------------------------------------------------------------------
  // Decimal digits

  predicate IsDigit(c: char) {
    '0' <= c <= '9'
  }

  predicate AllDigits(s: string) {
    forall i :: 0 <= i < |s| ==> IsDigit(s[i])
  }

  function DigitChar(d: nat): (c: char)
    requires d < 10
    ensures IsDigit(c) && c as int - '0' as int == d
  {
    ('0' as int + d) as char
  }

  function DigitValue(c: char): (d: nat)
    requires IsDigit(c)
    ensures d < 10
  {
    c as int - '0' as int
  }

  /** The decimal string of `n`, as `n.toString()` writes it. */
  function NatToString(n: nat): (s: string)
    ensures s != [] && AllDigits(s)
    ensures |s| > 1 ==> s[0] != '0'
    decreases n
  {
    if n < 10 then [DigitChar(n)] else NatToString(n / 10) + [DigitChar(n % 10)]
  }

  /** The number a string of decimal digits denotes. */
  function DigitsValue(s: string): nat
    requires AllDigits(s)
    decreases |s|
  {
    if s == [] then 0 else DigitsValue(s[..|s| - 1]) * 10 + DigitValue(s[|s| - 1])
  }

  /** Reading back the decimal string of `n` gives `n`. */
  lemma {:induction false} NatToStringRoundTrip(n: nat)
    ensures DigitsValue(NatToString(n)) == n
    decreases n
  {
    if n >= 10 {
      var s := NatToString(n);
      assert s[..|s| - 1] == NatToString(n / 10);
      NatToStringRoundTrip(n / 10);
    }
  }

  /** `d` written with exactly two digits, as the fractional part of `toFixed(2)`. */
  function TwoDigits(d: nat): (s: string)
    requires d < 100
    ensures |s| == 2 && AllDigits(s) && DigitsValue(s) == d
  {
    var s := [DigitChar(d / 10), DigitChar(d % 10)];
    assert s[..1][..0] == [];
    assert DigitsValue(s[..1]) == d / 10;
    s
  }

  // ---------------------------------------------------------------------
  // Prefixes and character counts

  predicate IsPrefix(p: string, s: string) {
    |p| <= |s| && s[..|p|] == p
  }

  function Count(c: char, s: string): (n: nat)
    ensures n <= |s|
    ensures n == 0 <==> c !in s
  {
    if s == [] then 0 else (if s[0] == c then 1 else 0) + Count(c, s[1..])
  }

  lemma CountAppend(c: char, a: string, b: string)
    ensures Count(c, a + b) == Count(c, a) + Count(c, b)
  {
    if a != [] {
      assert (a + b)[1..] == a[1..] + b;
      CountAppend(c, a[1..], b);
    } else {
      assert a + b == b;
    }
  }

  // ---------------------------------------------------------------------
  // String#split with a one-character separator, and its inverse

  /**
   * `s.split(sep)`: the maximal pieces of `s` between occurrences of `sep`;
   * there is always at least one piece, and none contains `sep`.
   */
  function Split(s: string, sep: char): (parts: seq<string>)
    ensures |parts| == Count(sep, s) + 1
    ensures forall i :: 0 <= i < |parts| ==> sep !in parts[i]
    decreases |s|
  {
    if s == [] then [""]
    else
      var rest := Split(s[1..], sep);
      if s[0] == sep then [""] + rest
      else [[s[0]] + rest[0]] + rest[1..]
  }

  /** `parts.join(sep)`. */
  function Join(parts: seq<string>, sep: char): string
    requires |parts| >= 1
    decreases |parts|
  {
    if |parts| == 1 then parts[0] else parts[0] + [sep] + Join(parts[1..], sep)
  }

  function Last<T>(s: seq<T>): T
    requires |s| >= 1
  {
    s[|s| - 1]
  }

  /** Joining the pieces of a split with the same separator gives back the string. */
  lemma {:induction false} JoinSplit(s: string, sep: char)
    ensures Join(Split(s, sep), sep) == s
    decreases |s|
  {
    if s != [] {
      var rest := Split(s[1..], sep);
      JoinSplit(s[1..], sep);
      if s[0] == sep {
        assert Split(s, sep)[1..] == rest;
      } else {
        var parts := Split(s, sep);
        if |rest| == 1 {
          assert parts == [[s[0]] + rest[0]];
        } else {
          assert parts[1..] == rest[1..];
          assert Join(rest, sep) == rest[0] + [sep] + Join(rest[1..], sep);
        }
      }
    }
  }

  /** A string without the separator splits into itself alone. */
  lemma {:induction false} SplitNoSeparator(s: string, sep: char)
    requires sep !in s
    ensures Split(s, sep) == [s]
    decreases |s|
  {
    if s != [] {
      assert sep !in s[1..];
      SplitNoSeparator(s[1..], sep);
      assert [s[0]] + s[1..] == s;
    }
  }

  /** Splitting `a + sep + b` where `a` has no separator puts `a` first. */
  lemma {:induction false} SplitAfterFirst(a: string, sep: char, b: string)
    requires sep !in a
    ensures Split(a + [sep] + b, sep) == [a] + Split(b, sep)
    decreases |a|
  {
    if a == [] {
      assert a + [sep] + b == [sep] + b;
      assert ([sep] + b)[1..] == b;
    } else {
      assert (a + [sep] + b)[1..] == a[1..] + [sep] + b;
      assert sep !in a[1..];
      SplitAfterFirst(a[1..], sep, b);
      assert [a[0]] + a[1..] == a;
    }
  }

  /** Splitting a join of separator-free pieces gives back the pieces. */
  lemma {:induction false} SplitJoin(parts: seq<string>, sep: char)
    requires |parts| >= 1
    requires forall i :: 0 <= i < |parts| ==> sep !in parts[i]
    ensures Split(Join(parts, sep), sep) == parts
    decreases |parts|
  {
    if |parts| == 1 {
      SplitNoSeparator(parts[0], sep);
    } else {
      SplitJoin(parts[1..], sep);
      SplitAfterFirst(parts[0], sep, Join(parts[1..], sep));
    }
  }

  /** The last piece of `a + sep + b` is the last piece of `b`. */
  lemma {:induction false} SplitLastAfterSeparator(a: string, sep: char, b: string)
    ensures Last(Split(a + [sep] + b, sep)) == Last(Split(b, sep))
    decreases |a|
  {
    if a == [] {
      assert a + [sep] + b == [sep] + b;
      SplitLastCons(sep, b, sep);
    } else {
      var tail := a[1..] + [sep] + b;
      assert a + [sep] + b == [a[0]] + tail;
      assert tail[|a| - 1] == sep;
      assert Count(sep, tail) >= 1;
      SplitLastCons(a[0], tail, sep);
      SplitLastAfterSeparator(a[1..], sep, b);
    }
  }

  /** A leading character changes the last piece only when no separator follows it. */
  lemma SplitLastCons(c: char, t: string, sep: char)
    requires c == sep || |Split(t, sep)| >= 2
    ensures Last(Split([c] + t, sep)) == Last(Split(t, sep))
  {
    var rest := Split(t, sep);
    var parts := Split([c] + t, sep);
    assert ([c] + t)[0] == c && ([c] + t)[1..] == t;
    if c == sep {
      assert parts == [""] + rest;
      assert parts[|parts| - 1] == rest[|rest| - 1];
    } else {
      assert parts == [[c] + rest[0]] + rest[1..];
      assert parts[|parts| - 1] == rest[1..][|rest| - 2] == rest[|rest| - 1];
    }
  }

  // ---------------------------------------------------------------------
  // String#trim

  /** The characters ECMAScript's `String.prototype.trim` removes: white space and line terminators. */
  predicate IsJsWhitespace(c: char) {
    || c == ' ' || c == '\t' || c == '\n' || c == '\r' || c == '\U{B}' || c == '\U{C}'
    || c == '\U{A0}' || c == '\U{1680}' || ('\U{2000}' <= c <= '\U{200A}')
    || c == '\U{2028}' || c == '\U{2029}' || c == '\U{202F}' || c == '\U{205F}'
    || c == '\U{3000}' || c == '\U{FEFF}'
  }

  /** Neither end of `s` is white space. */
  predicate Trimmed(s: string) {
    s == [] || (!IsJsWhitespace(s[0]) && !IsJsWhitespace(s[|s| - 1]))
  }

  /** Where the text of `s` starts: the length of its leading white space. */
  function TextStart(s: string): (n: nat)
    ensures n <= |s|
    ensures forall k :: 0 <= k < n ==> IsJsWhitespace(s[k])
    ensures n < |s| ==> !IsJsWhitespace(s[n])
    decreases |s|
  {
    if s == [] || !IsJsWhitespace(s[0]) then 0
    else
      var n := 1 + TextStart(s[1..]);
      assert forall k :: 1 <= k < n ==> s[k] == s[1..][k - 1];
      n
  }

  /** Where the text of `s[lo..hi]` ends: `hi` less its trailing white space. */
  function TextEnd(s: string, lo: nat, hi: nat): (m: nat)
    requires lo <= hi <= |s|
    ensures lo <= m <= hi
    ensures forall k :: m <= k < hi ==> IsJsWhitespace(s[k])
    ensures m > lo ==> !IsJsWhitespace(s[m - 1])
    decreases hi - lo
  {
    if hi == lo || !IsJsWhitespace(s[hi - 1]) then hi else TextEnd(s, lo, hi - 1)
  }

  /**
   * `s.trim()`: the slice of `s` left after cutting white space from both
   * ends; it neither starts nor ends with white space.
   */
  function Trim(s: string): (r: string)
    ensures Trimmed(r)
    ensures exists i, j :: 0 <= i <= j <= |s| && r == s[i..j]
                           && (forall k :: 0 <= k < i ==> IsJsWhitespace(s[k]))
                           && (forall k :: j <= k < |s| ==> IsJsWhitespace(s[k]))
  {
    var i := TextStart(s);
    var j := TextEnd(s, i, |s|);
    var r := s[i..j];
    assert r != [] ==> r[0] == s[i] && r[|r| - 1] == s[j - 1];
    r
  }

  /** Trimming a trimmed string changes nothing, so `trim` is idempotent. */
  lemma TrimTrimmed(s: string)
    requires Trimmed(s)
    ensures Trim(s) == s
  {
  }

  lemma TrimIdempotent(s: string)
    ensures Trim(Trim(s)) == Trim(s)
  {
    TrimTrimmed(Trim(s));
  }

  // ---------------------------------------------------------------------
  // Upper case

  function UpperChar(c: char): (u: char)
    ensures 'a' <= c <= 'z' ==> u as int == c as int - 32
    ensures !('a' <= c <= 'z') ==> u == c
  {
    if 'a' <= c <= 'z' then (c as int - 32) as char else c
  }

  /** `s.toUpperCase()` restricted to ASCII letters. */
  function ToUpper(s: string): (r: string)
    ensures |r| == |s|
    ensures forall i :: 0 <= i < |s| ==> r[i] == UpperChar(s[i])
  {
    seq(|s|, i requires 0 <= i < |s| => UpperChar(s[i]))
  }
}
