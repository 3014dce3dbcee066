/**
 * The few pieces of Python's string behaviour that the backend relies on:
 * `str(int)` for amounts and ids, `str.split(sep)` and `str.startswith`,
 * and the code-point order that `<` and `sorted` use on strings.
 */
module Strings {

  predicate IsDigit(c: char) {
    '0' <= c <= '9'
  }

  predicate AllDigits(s: string) {
    forall i :: 0 <= i < |s| ==> IsDigit(s[i])
  }

  function DigitChar(d: nat): (c: char)
    requires d < 10
    ensures IsDigit(c) && c as int - '0' as int == d
  {
    ('0' as int + d) as char
  }

  /** A decimal numeral as Python's `str` writes one: digits only, no leading zero except in `0` itself. */
  predicate CanonicalNat(s: string) {
    |s| >= 1 && AllDigits(s) && (s[0] == '0' ==> |s| == 1)
  }

  /** `str` of an integer: a canonical numeral, with a minus sign in front of a non-zero one for a negative number. */
  predicate CanonicalInt(s: string) {
    |s| >= 1 && if s[0] == '-' then CanonicalNat(s[1..]) && s[1..] != "0" else CanonicalNat(s)
  }

  /** Python `str(n)` for a non-negative integer: its decimal digits, without leading zeros. */
  function NatToString(n: nat): (s: string)
    ensures CanonicalNat(s)
    ensures s[0] == '0' ==> n == 0
    decreases n
  {
    if n < 10 then [DigitChar(n)] else NatToString(n / 10) + [DigitChar(n % 10)]
  }

  /** Python `str(n)` for any integer: a minus sign in front of the digits of a negative number. */
  function IntToString(n: int): (s: string)
    ensures |s| >= 1
    ensures n >= 0 <==> s[0] != '-'
  {
    if n < 0 then "-" + NatToString(-n) else NatToString(n)
  }

  /** The value of a string of decimal digits (Python `int(s)` on such a string). */
  function ParseNat(s: string): nat
    requires AllDigits(s)
  {
    if s == [] then 0 else ParseNat(s[..|s| - 1]) * 10 + (s[|s| - 1] as int - '0' as int)
  }

  /** Python `int(s)` on the strings `str` produces. */
  function ParseInt(s: string): int
    requires |s| >= 1
    requires s[0] == '-' ==> AllDigits(s[1..])
    requires s[0] != '-' ==> AllDigits(s)
  {
    if s[0] == '-' then -(ParseNat(s[1..]) as int) else ParseNat(s)
  }

  lemma {:induction false} ParseNatToString(n: nat)
    ensures ParseNat(NatToString(n)) == n
    decreases n
  {
    var s := NatToString(n);
    if n >= 10 {
      ParseNatToString(n / 10);
      assert s[..|s| - 1] == NatToString(n / 10);
    }
  }

  /** `str` is injective on integers: the rendering is a canonical numeral that `int` reads back as the number. */
  lemma IntToStringRoundTrip(n: int)
    ensures CanonicalInt(IntToString(n)) && ParseInt(IntToString(n)) == n
  {
    var s := IntToString(n);
    if n < 0 {
      assert s[1..] == NatToString(-n);
      ParseNatToString(-n);
      assert ParseNat("0") == 0;
    } else {
      ParseNatToString(n);
    }
  }

  /** A numeral without a leading zero has a positive value. */
  lemma {:induction false} ParseNatPositive(s: string)
    requires |s| >= 1 && AllDigits(s) && s[0] != '0'
    ensures ParseNat(s) >= 1
    decreases |s|
  {
    if |s| > 1 {
      ParseNatPositive(s[..|s| - 1]);
    }
  }

  /** Every canonical numeral is what `str` writes for its value. */
  lemma {:induction false} NatToStringOnto(s: string)
    requires CanonicalNat(s)
    ensures NatToString(ParseNat(s)) == s
    decreases |s|
  {
    var n := |s| - 1;
    var d := s[n] as int - '0' as int;
    if n == 0 {
      assert s[..0] == [];
      assert ParseNat(s) == d;
      assert DigitChar(d) == s[0];
    } else {
      var init := s[..n];
      NatToStringOnto(init);
      ParseNatPositive(init);
      var v := ParseNat(s);
      assert v == ParseNat(init) * 10 + d;
      assert v / 10 == ParseNat(init) && v % 10 == d;
      assert DigitChar(d) == s[n];
      assert s == init + [s[n]];
    }
  }

  /** `str` writes exactly the canonical integer numerals: each is the rendering of the number it denotes. */
  lemma IntToStringOnto(s: string)
    requires CanonicalInt(s)
    ensures IntToString(ParseInt(s)) == s
  {
    if s[0] == '-' {
      var digits := s[1..];
      NatToStringOnto(digits);
      ParseNatPositive(digits);
      assert s == "-" + digits;
    } else {
      NatToStringOnto(s);
    }
  }

  /** The number of occurrences of `c` in `s` (Python `s.count(c)`). */
  function CountChar(s: string, c: char): nat {
    if s == [] then 0 else (if s[0] == c then 1 else 0) + CountChar(s[1..], c)
  }

  lemma {:induction false} CountCharAppend(a: string, b: string, c: char)
    ensures CountChar(a + b, c) == CountChar(a, c) + CountChar(b, c)
    decreases |a|
  {
    if a != [] {
      assert (a + b)[0] == a[0];
      assert (a + b)[1..] == a[1..] + b;
      CountCharAppend(a[1..], b, c);
    } else {
      assert a + b == b;
    }
  }

  lemma {:induction false} CountCharAbsent(s: string, c: char)
    requires c !in s
    ensures CountChar(s, c) == 0
    decreases |s|
  {
    if s != [] {
      assert s[0] != c;
      CountCharAbsent(s[1..], c);
    }
  }

  predicate StartsWith(s: string, prefix: string) {
    |prefix| <= |s| && s[..|prefix|] == prefix
  }

  predicate EndsWith(s: string, suffix: string) {
    |suffix| <= |s| && s[|s| - |suffix|..] == suffix
  }

  /** Python `sub in s`. */
  predicate Occurs(sub: string, s: string) {
    exists i :: 0 <= i <= |s| && StartsWith(s[i..], sub)
  }

  /**
   * Python `s.split(sep)` for a non-empty separator: the pieces between the
   * non-overlapping occurrences of `sep`, found left to right.
   */
  function Split(s: string, sep: string): (parts: seq<string>)
    requires |sep| > 0
    ensures |parts| >= 1
    decreases |s|
  {
    if |s| < |sep| then [s]
    else if s[..|sep|] == sep then [""] + Split(s[|sep|..], sep)
    else
      var rest := Split(s[1..], sep);
      [[s[0]] + rest[0]] + rest[1..]
  }

  /** Python `sep.join(parts)`. */
  function Join(parts: seq<string>, sep: string): string
    requires |parts| >= 1
  {
    if |parts| == 1 then parts[0] else parts[0] + sep + Join(parts[1..], sep)
  }

  /** Joining one more piece appends the separator and that piece. */
  lemma {:induction false} JoinSnoc(parts: seq<string>, p: string, sep: string)
    requires |parts| >= 1
    ensures Join(parts + [p], sep) == Join(parts, sep) + sep + p
    decreases |parts|
  {
    var all := parts + [p];
    if |parts| == 1 {
      assert all[1..] == [p];
    } else {
      assert all[1..] == parts[1..] + [p];
      JoinSnoc(parts[1..], p, sep);
    }
  }

  /** Joining after glueing a character to the first piece glues it to the joined string. */
  lemma JoinConsChar(c: char, parts: seq<string>, sep: string)
    requires |parts| >= 1
    ensures Join([[c] + parts[0]] + parts[1..], sep) == [c] + Join(parts, sep)
  {
    var glued := [[c] + parts[0]] + parts[1..];
    if |parts| > 1 {
      assert glued[1..] == parts[1..];
    }
  }

  /** Splitting loses nothing: joining the pieces with the separator gives the string back. */
  lemma {:induction false} JoinSplit(s: string, sep: string)
    requires |sep| > 0
    ensures Join(Split(s, sep), sep) == s
    decreases |s|
  {
    if |s| < |sep| {
    } else if s[..|sep|] == sep {
      var tail := Split(s[|sep|..], sep);
      JoinSplit(s[|sep|..], sep);
      var parts := [""] + tail;
      assert Split(s, sep) == parts;
      assert parts[1..] == tail;
      assert Join(parts, sep) == "" + sep + Join(tail, sep);
      assert s == sep + s[|sep|..];
    } else {
      var rest := Split(s[1..], sep);
      JoinSplit(s[1..], sep);
      assert Split(s, sep) == [[s[0]] + rest[0]] + rest[1..];
      JoinConsChar(s[0], rest, sep);
      assert s == [s[0]] + s[1..];
    }
  }

  /** A string in which the separator does not occur splits into itself alone. */
  lemma {:induction false} SplitNoOccurrence(s: string, sep: string)
    requires |sep| > 0 && !Occurs(sep, s)
    ensures Split(s, sep) == [s]
    decreases |s|
  {
    if |s| >= |sep| {
      assert s[0..] == s;
      assert !StartsWith(s[0..], sep);
      assert !Occurs(sep, s[1..]) by {
        forall i | 0 <= i <= |s[1..]| ensures !StartsWith(s[1..][i..], sep) {
          assert s[1..][i..] == s[i + 1..];
        }
      }
      SplitNoOccurrence(s[1..], sep);
      assert [s[0]] + s[1..] == s;
    }
  }

  /**
   * `s.split(c)[-1]`: the last piece is the suffix of `s` after its last `c`,
   * or all of `s` when it holds no `c`; with more than one piece it is a
   * proper suffix.
   */
  lemma {:induction false} SplitLastPiece(s: string, c: char)
    ensures var p := Split(s, [c]); var last := p[|p| - 1];
      && EndsWith(s, last)
      && (|last| == |s| || s[|s| - |last| - 1] == c)
      && (|p| > 1 ==> |last| < |s|)
    decreases |s|
  {
    var p := Split(s, [c]);
    if |p| == 1 {
      JoinSplit(s, [c]);
    } else {
      var q := Split(s[1..], [c]);
      SplitLastPiece(s[1..], c);
      SplitTailLast(s, c);
      SuffixOfTail(s, q[|q| - 1]);
      if |q[|q| - 1]| == |s| - 1 {
        assert s[..1] == [c];
      }
    }
  }

  /** With at least one character, `s.split(c)` ends with the same piece as `s[1:].split(c)`. */
  lemma SplitTailLast(s: string, c: char)
    requires |Split(s, [c])| > 1
    ensures |s| >= 1
    ensures var p := Split(s, [c]); var q := Split(s[1..], [c]);
      p[|p| - 1] == q[|q| - 1] && (|q| == 1 ==> s[..1] == [c])
  {
  }

  /** A suffix of `s[1..]` is a suffix of `s`, preceded there by the same character. */
  lemma SuffixOfTail<T>(s: seq<T>, last: seq<T>)
    requires |s| >= 1 && |last| <= |s| - 1 && s[1..][|s| - 1 - |last|..] == last
    ensures s[|s| - |last|..] == last
    ensures |last| < |s| - 1 ==> s[|s| - |last| - 1] == s[1..][|s| - 1 - |last| - 1]
    ensures |last| == |s| - 1 ==> s[|s| - |last| - 1] == s[0]
  {
    assert s[|s| - |last|..] == s[1..][|s| - 1 - |last|..];
  }

  /** Splitting on one character leaves that character in none of the pieces. */
  lemma {:induction false} SplitOnCharParts(s: string, c: char)
    ensures forall i :: 0 <= i < |Split(s, [c])| ==> c !in Split(s, [c])[i]
    decreases |s|
  {
    if |s| < 1 {
    } else if s[..1] == [c] {
      SplitOnCharParts(s[1..], c);
    } else {
      SplitOnCharParts(s[1..], c);
      assert s[0] != c by { assert s[..1] == [s[0]]; }
    }
  }

  /** Python's `a < b` on strings: lexicographic comparison by code point, a proper prefix first. */
  predicate Less(a: string, b: string)
    decreases |a|
  {
    if |b| == 0 then false
    else if |a| == 0 then true
    else if a[0] != b[0] then a[0] < b[0]
    else Less(a[1..], b[1..])
  }

  lemma {:induction false} LessIrreflexive(a: string)
    ensures !Less(a, a)
    decreases |a|
  {
    if |a| > 0 {
      LessIrreflexive(a[1..]);
    }
  }

  lemma {:induction false} LessTransitive(a: string, b: string, c: string)
    requires Less(a, b) && Less(b, c)
    ensures Less(a, c)
    decreases |a|
  {
    if |a| > 0 && a[0] == b[0] && b[0] == c[0] {
      LessTransitive(a[1..], b[1..], c[1..]);
    }
  }

  /** Any two different strings are ordered one way or the other. */
  lemma {:induction false} LessTotal(a: string, b: string)
    requires a != b
    ensures Less(a, b) || Less(b, a)
    decreases |a|
  {
    if |a| > 0 && |b| > 0 && a[0] == b[0] {
      assert a == [a[0]] + a[1..] && b == [b[0]] + b[1..];
      LessTotal(a[1..], b[1..]);
    }
  }
}
