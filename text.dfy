/**
 * String helpers that stand for the few Python string operations the core uses:
 * str() of an integer, int() of a decimal string, str.split/str.join on a
 * one-character separator, ASCII lower()/upper(), strip(), str.endswith and
 * the first occurrence of a substring.
 */
module Text {
  import opened Wrappers

  // ---------------------------------------------------------------- decimals

  function DigitChar(d: nat): char
    requires d < 10
  {
    "0123456789"[d]
  }

  predicate IsDigit(c: char) {
    '0' <= c <= '9'
  }

  predicate AllDigits(s: string) {
    forall i :: 0 <= i < |s| ==> IsDigit(s[i])
  }

  /** The decimal digits of a natural number, most significant first. */
  function NatToString(n: nat): (s: string)
    ensures |s| >= 1 && AllDigits(s)
    decreases n
  {
    if n < 10 then [DigitChar(n)] else NatToString(n / 10) + [DigitChar(n % 10)]
  }

  /** Python's str() of an int: a minus sign, then the digits of the magnitude. */
  function IntToString(n: int): string {
    if n < 0 then "-" + NatToString(-n) else NatToString(n)
  }

  /** The value of a string of decimal digits (the empty string is 0). */
  function DigitsValue(s: string): nat
    requires AllDigits(s)
  {
    if s == [] then 0
    else DigitsValue(s[..|s| - 1]) * 10 + (s[|s| - 1] as int - '0' as int)
  }

  /** int() of a string: an optional minus sign then at least one digit, else None. */
  function ParseInt(s: string): Option<int> {
    if |s| >= 2 && s[0] == '-' && AllDigits(s[1..]) then Some(-(DigitsValue(s[1..]) as int))
    else if |s| >= 1 && AllDigits(s) then Some(DigitsValue(s))
    else None
  }

  lemma {:induction false} NatToStringValue(n: nat)
    ensures DigitsValue(NatToString(n)) == n
    decreases n
  {
    if n >= 10 {
      NatToStringValue(n / 10);
      var s := NatToString(n);
      assert s[..|s| - 1] == NatToString(n / 10);
    }
  }

  lemma ParseDigits(s: string)
    requires |s| >= 1 && AllDigits(s)
    ensures ParseInt(s) == Some(DigitsValue(s))
  {
    assert IsDigit(s[0]);
  }

  lemma ParseNegative(d: string)
    requires |d| >= 1 && AllDigits(d)
    ensures ParseInt("-" + d) == Some(-(DigitsValue(d) as int))
  {
    assert ("-" + d)[1..] == d;
  }

  /** Reading back the decimal rendering of any integer gives the integer. */
  lemma IntToStringRoundTrip(n: int)
    ensures ParseInt(IntToString(n)) == Some(n)
  {
    if n < 0 {
      var k: nat := -n;
      assert IntToString(n) == "-" + NatToString(k);
      NegativeRoundTrip(k);
    } else {
      var k: nat := n;
      assert IntToString(n) == NatToString(k);
      NaturalRoundTrip(k);
    }
  }

  lemma NaturalRoundTrip(k: nat)
    ensures ParseInt(NatToString(k)) == Some(k)
  {
    NatToStringValue(k);
    ParseDigits(NatToString(k));
  }

  lemma NegativeRoundTrip(k: nat)
    ensures ParseInt("-" + NatToString(k)) == Some(-(k as int))
  {
    NatToStringValue(k);
    ParseNegative(NatToString(k));
  }

  // ---------------------------------------------------------- split and join

  /** str.split(sep) for a one-character separator: always at least one part. */
  function Split(s: string, sep: char): (parts: seq<string>)
    ensures |parts| >= 1
  {
    if s == [] then [""]
    else
      var rest := Split(s[1..], sep);
      if s[0] == sep then [""] + rest else [[s[0]] + rest[0]] + rest[1..]
  }

  /** No part of a split holds the separator. */
  lemma {:induction false} SplitPartsLackSep(s: string, sep: char)
    ensures forall i :: 0 <= i < |Split(s, sep)| ==> sep !in Split(s, sep)[i]
  {
    if s != [] {
      SplitPartsLackSep(s[1..], sep);
      var rest := Split(s[1..], sep);
      if s[0] != sep {
        assert sep !in [s[0]] + rest[0];
        var parts := [[s[0]] + rest[0]] + rest[1..];
        assert forall i :: 1 <= i < |parts| ==> parts[i] == rest[i];
      }
    }
  }

  /** sep.join(parts). */
  function Join(parts: seq<string>, sep: char): string {
    if parts == [] then ""
    else if |parts| == 1 then parts[0]
    else parts[0] + [sep] + Join(parts[1..], sep)
  }

  /** Joining the parts of a split gives the original string back. */
  lemma {:induction false} JoinSplit(s: string, sep: char)
    ensures Join(Split(s, sep), sep) == s
  {
    if s != [] {
      JoinSplit(s[1..], sep);
      var rest := Split(s[1..], sep);
      if s[0] == sep {
        JoinEmptyFirst(rest, sep);
      } else {
        JoinCons(s[0], rest, sep);
      }
      assert s == [s[0]] + s[1..];
    }
  }

  /** An empty first part contributes just the separator. */
  lemma JoinEmptyFirst(rest: seq<string>, sep: char)
    requires |rest| >= 1
    ensures Join([""] + rest, sep) == [sep] + Join(rest, sep)
  {
    assert ([""] + rest)[1..] == rest;
  }

  /** A character put in front of the first part is put in front of the joined text. */
  lemma JoinCons(c: char, rest: seq<string>, sep: char)
    requires |rest| >= 1
    ensures Join([[c] + rest[0]] + rest[1..], sep) == [c] + Join(rest, sep)
  {
    var parts := [[c] + rest[0]] + rest[1..];
    if |rest| > 1 {
      assert parts[1..] == rest[1..];
      assert Join(parts, sep) == ([c] + rest[0]) + [sep] + Join(rest[1..], sep);
    }
  }

  /** A string without the separator splits into itself alone. */
  lemma {:induction false} SplitNoSep(s: string, sep: char)
    requires sep !in s
    ensures Split(s, sep) == [s]
  {
    if s != [] {
      SplitNoSep(s[1..], sep);
      assert s == [s[0]] + s[1..];
    }
  }

  /** Splitting a text that starts with c: a new part when c is the separator, else c joins the first part. */
  lemma SplitCons(c: char, t: string, sep: char)
    ensures var rest := Split(t, sep);
      Split([c] + t, sep) == if c == sep then [""] + rest else [[c] + rest[0]] + rest[1..]
  {
    assert ([c] + t)[1..] == t;
  }

  /** Splitting at one separator occurrence splits the two sides independently. */
  lemma {:induction false} SplitAt(a: string, b: string, sep: char)
    ensures Split(a + [sep] + b, sep) == Split(a, sep) + Split(b, sep)
  {
    if a == [] {
      assert a + [sep] + b == [sep] + b;
      SplitCons(sep, b, sep);
    } else {
      SplitAt(a[1..], b, sep);
      SplitAtStep(a, b, sep);
    }
  }

  /** The inductive step of SplitAt: putting one more character in front of the left side. */
  lemma SplitAtStep(a: string, b: string, sep: char)
    requires a != []
    requires Split(a[1..] + [sep] + b, sep) == Split(a[1..], sep) + Split(b, sep)
    ensures Split(a + [sep] + b, sep) == Split(a, sep) + Split(b, sep)
  {
    var t := a[1..];
    var x := a + [sep] + b;
    assert x[0] == a[0];
    assert x[1..] == t + [sep] + b;
    SplitFront(x, Split(t, sep), Split(b, sep), sep);
    SplitFront(a, Split(t, sep), [], sep);
    assert Split(t, sep) + [] == Split(t, sep);
  }

  /** Splitting a non-empty text whose tail splits into rt + sb, with sb possibly empty. */
  lemma SplitFront(x: string, rt: seq<string>, sb: seq<string>, sep: char)
    requires x != [] && |rt| >= 1
    requires Split(x[1..], sep) == rt + sb
    ensures Split(x, sep) == (if x[0] == sep then [""] + rt else [[x[0]] + rt[0]] + rt[1..]) + sb
  {
    var r := rt + sb;
    if x[0] == sep {
      assert [""] + r == ([""] + rt) + sb;
    } else {
      assert r[0] == rt[0] && r[1..] == rt[1..] + sb;
      assert [[x[0]] + rt[0]] + (rt[1..] + sb) == ([[x[0]] + rt[0]] + rt[1..]) + sb;
    }
  }

  /** Index of the last occurrence of c in s, or -1. */
  function LastIndexOf(s: string, c: char): (r: int)
    ensures -1 <= r < |s|
    ensures r >= 0 ==> s[r] == c
    ensures forall j :: r < j < |s| ==> s[j] != c
  {
    if s == [] then -1
    else if s[|s| - 1] == c then |s| - 1
    else LastIndexOf(s[..|s| - 1], c)
  }

  /**
   * Dropping the last part of a split and joining again leaves everything before
   * the last separator, or the empty string when there is no separator.
   */
  lemma DropLastSegment(s: string, sep: char)
    ensures var parts := Split(s, sep);
      Join(parts[..|parts| - 1], sep) == if sep in s then s[..LastIndexOf(s, sep)] else ""
  {
    var k := LastIndexOf(s, sep);
    if sep in s {
      var a, b := s[..k], s[k + 1..];
      assert s == a + [sep] + b;
      assert sep !in b;
      SplitAt(a, b, sep);
      SplitNoSep(b, sep);
      var parts := Split(s, sep);
      assert parts[..|parts| - 1] == Split(a, sep);
      JoinSplit(a, sep);
    } else {
      SplitNoSep(s, sep);
    }
  }

  /** The last part of a split is the text after the last separator. */
  lemma LastSegment(s: string, sep: char)
    ensures var parts := Split(s, sep);
      parts[|parts| - 1] == s[LastIndexOf(s, sep) + 1..]
  {
    var k := LastIndexOf(s, sep);
    if sep in s {
      var a, b := s[..k], s[k + 1..];
      assert s == a + [sep] + b;
      assert sep !in b by {
        forall i | 0 <= i < |b| ensures b[i] != sep {
          assert b[i] == s[k + 1 + i];
        }
      }
      LastSegmentAt(a, b, sep);
    } else {
      SplitNoSep(s, sep);
      assert k == -1;
      assert s[k + 1..] == s;
    }
  }

  lemma LastSegmentAt(a: string, b: string, sep: char)
    requires sep !in b
    ensures var parts := Split(a + [sep] + b, sep);
      parts[|parts| - 1] == b
  {
    SplitAt(a, b, sep);
    SplitNoSep(b, sep);
  }

  // ------------------------------------------------------- character classes

  function LowerChar(c: char): char {
    if 'A' <= c <= 'Z' then (c as int + 32) as char else c
  }

  function UpperChar(c: char): char {
    if 'a' <= c <= 'z' then (c as int - 32) as char else c
  }

  /** str.lower() on ASCII text. */
  function Lower(s: string): (r: string)
    ensures |r| == |s|
  {
    seq(|s|, i requires 0 <= i < |s| => LowerChar(s[i]))
  }

  /** str.upper() on ASCII text. */
  function Upper(s: string): (r: string)
    ensures |r| == |s|
  {
    seq(|s|, i requires 0 <= i < |s| => UpperChar(s[i]))
  }

  /** Python's whitespace for str.strip(): space, \t, \n, \r, \v, \f. */
  predicate IsSpace(c: char) {
    c == ' ' || c == '\t' || c == '\n' || c == '\r' || c == '\U{B}' || c == '\U{C}'
  }

  /** How many whitespace characters s starts with. */
  function LeadingSpaces(s: string): (i: nat)
    ensures i <= |s| && (i == |s| || !IsSpace(s[i]))
    ensures forall j :: 0 <= j < i ==> IsSpace(s[j])
  {
    if s == [] || !IsSpace(s[0]) then 0 else 1 + LeadingSpaces(s[1..])
  }

  /** Where the whitespace that s ends with begins. */
  function TrailingStart(s: string): (k: nat)
    ensures k <= |s| && (k == 0 || !IsSpace(s[k - 1]))
    ensures forall j :: k <= j < |s| ==> IsSpace(s[j])
  {
    if s == [] || !IsSpace(s[|s| - 1]) then |s| else TrailingStart(s[..|s| - 1])
  }

  function StripLeft(s: string): string {
    s[LeadingSpaces(s)..]
  }

  function StripRight(s: string): string {
    s[..TrailingStart(s)]
  }

  /** str.strip(): the text with leading and trailing whitespace removed. */
  function Strip(s: string): (r: string)
    ensures r == "" || (!IsSpace(r[0]) && !IsSpace(r[|r| - 1]))
  {
    var t := StripRight(s);
    var r := StripLeft(t);
    assert r == "" || r[|r| - 1] == t[|t| - 1];
    r
  }

  /** The part of s strictly inside a window [i, j) whose outside is all whitespace. */
  lemma StripIsInfix(s: string)
    ensures exists i, j :: 0 <= i <= j <= |s| && Strip(s) == s[i..j]
                        && (forall m :: 0 <= m < i ==> IsSpace(s[m]))
                        && (forall m :: j <= m < |s| ==> IsSpace(s[m]))
  {
    var k := TrailingStart(s);
    var t := s[..k];
    var i := LeadingSpaces(t);
    assert t[i..] == s[i..k];
    assert forall m :: 0 <= m < i ==> t[m] == s[m];
    assert Strip(s) == s[i..k];
  }

  // ------------------------------------------------------------- substrings

  /** Index of the first occurrence of c in s, or None. */
  function FirstIndexOf(s: string, c: char): (r: Option<nat>)
    ensures r.Some? ==> r.value < |s| && s[r.value] == c && c !in s[..r.value]
    ensures r.None? ==> c !in s
  {
    if s == [] then None
    else if s[0] == c then Some(0)
    else match FirstIndexOf(s[1..], c)
      case None => None
      case Some(i) => assert s[..i + 1] == [s[0]] + s[1..][..i]; Some(i + 1)
  }

  predicate EndsWith(s: string, c: char) {
    |s| > 0 && s[|s| - 1] == c
  }

  predicate OccursAt(s: string, pat: string, i: nat) {
    i + |pat| <= |s| && s[i..i + |pat|] == pat
  }

  /** The first occurrence of pat in s at or after k. */
  function IndexFrom(s: string, pat: string, k: nat): (r: Option<nat>)
    ensures r.Some? ==> k <= r.value && OccursAt(s, pat, r.value)
                        && forall j :: k <= j < r.value ==> !OccursAt(s, pat, j)
    ensures r.None? ==> forall j :: k <= j ==> !OccursAt(s, pat, j)
    decreases |s| - k
  {
    if k + |pat| > |s| then None
    else if s[k..k + |pat|] == pat then Some(k)
    else IndexFrom(s, pat, k + 1)
  }

  /** `pat in s`, with the first index where it occurs. */
  function IndexOf(s: string, pat: string): (r: Option<nat>)
    ensures r.Some? ==> OccursAt(s, pat, r.value) && forall j :: 0 <= j < r.value ==> !OccursAt(s, pat, j)
    ensures r.None? ==> forall j :: !OccursAt(s, pat, j)
  {
    IndexFrom(s, pat, 0)
  }

  /**
   * s.split(pat)[1] for a non-empty pat that occurs in s: the text after the first
   * occurrence, up to the next occurrence or the end.
   */
  function SecondField(s: string, pat: string): (r: string)
    requires |pat| > 0 && IndexOf(s, pat).Some?
    ensures forall j :: !OccursAt(r, pat, j)
  {
    var i := IndexOf(s, pat).value;
    var rest := s[i + |pat|..];
    match IndexOf(rest, pat)
    case None => rest
    case Some(j) =>
      assert forall m: nat :: !OccursAt(rest[..j], pat, m) by {
        forall m: nat | OccursAt(rest[..j], pat, m) ensures false {
          assert rest[m..m + |pat|] == rest[..j][m..m + |pat|];
          assert m < j && OccursAt(rest, pat, m);
        }
      }
      rest[..j]
  }
}
