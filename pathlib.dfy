/**
 * The two library functions behind path sanitisation in cal9/app.py:
 * urllib.unquote (percent-decoding) and posixpath.normpath, as Python 2
 * defines them.
 */
module PathLib {
  import opened Text

  // ---------------------------------------------------------------- unquote

  predicate IsHex(c: char) {
    '0' <= c <= '9' || 'a' <= c <= 'f' || 'A' <= c <= 'F'
  }

  function HexValue(c: char): nat
    requires IsHex(c)
  {
    if '0' <= c <= '9' then c as nat - '0' as nat
    else if 'a' <= c <= 'f' then c as nat - 'a' as nat + 10
    else c as nat - 'A' as nat + 10
  }

  /**
   * unquote: every '%' followed by two hex digits becomes the character with
   * that code; any other '%' is kept. Decoded characters are not decoded again.
   */
  function Unquote(s: string): string {
    if s == [] then []
    else if |s| >= 3 && s[0] == '%' && IsHex(s[1]) && IsHex(s[2]) then
      [(HexValue(s[1]) * 16 + HexValue(s[2])) as char] + Unquote(s[3..])
    else [s[0]] + Unquote(s[1..])
  }

  /** A text without '%' is unchanged. */
  lemma {:induction false} UnquotePlain(s: string)
    requires '%' !in s
    ensures Unquote(s) == s
  {
    if s != [] {
      UnquotePlain(s[1..]);
      assert s == [s[0]] + s[1..];
    }
  }

  /** The result is never longer, and two characters shorter for each escape decoded. */
  lemma {:induction false} UnquoteShrinks(s: string)
    ensures |Unquote(s)| <= |s|
  {
    if s != [] {
      if |s| >= 3 && s[0] == '%' && IsHex(s[1]) && IsHex(s[2]) {
        UnquoteShrinks(s[3..]);
      } else {
        UnquoteShrinks(s[1..]);
      }
    }
  }

  // --------------------------------------------------------------- normpath

  /** Leading slashes normpath keeps: two exactly when there are exactly two. */
  function InitialSlashes(p: string): (k: nat)
    ensures k <= 2
  {
    if |p| >= 2 && p[..2] == "//" && !(|p| >= 3 && p[2] == '/') then 2
    else if |p| >= 1 && p[0] == '/' then 1
    else 0
  }

  function Slashes(k: nat): (s: string)
    ensures |s| == k && forall i :: 0 <= i < k ==> s[i] == '/'
  {
    if k == 0 then "" else Slashes(k - 1) + "/"
  }

  /** One step of the loop over the components: skip, append, or pop a '..'. */
  function NormStep(acc: seq<string>, comp: string, initial: nat): seq<string> {
    if comp == "" || comp == "." then acc
    else if comp != ".." || (initial == 0 && acc == []) || (acc != [] && acc[|acc| - 1] == "..") then acc + [comp]
    else if acc != [] then acc[..|acc| - 1]
    else acc
  }

  /** The component loop of normpath, over the components in order. */
  function NormComps(comps: seq<string>, initial: nat): seq<string> {
    if comps == [] then [] else NormStep(NormComps(comps[..|comps| - 1], initial), comps[|comps| - 1], initial)
  }

  /** posixpath.normpath. */
  function NormPath(p: string): string {
    if p == "" then "."
    else
      var initial := InitialSlashes(p);
      var path := Slashes(initial) + Join(NormComps(Split(p, '/'), initial), '/');
      if path == "" then "." else path
  }

  /**
   * Components normpath may keep: non-empty, without '/', never '.', and never
   * '..' below a leading slash; a relative path keeps only leading '..'s.
   */
  predicate Clean(comps: seq<string>, initial: nat) {
    && (forall i :: 0 <= i < |comps| ==> comps[i] != "" && comps[i] != "." && '/' !in comps[i])
    && (initial > 0 ==> forall i :: 0 <= i < |comps| ==> comps[i] != "..")
    && (forall i, j :: 0 <= i < j < |comps| && comps[j] == ".." ==> comps[i] == "..")
  }

  lemma {:induction false} NormCompsClean(comps: seq<string>, initial: nat)
    requires forall i :: 0 <= i < |comps| ==> '/' !in comps[i]
    ensures Clean(NormComps(comps, initial), initial)
  {
    if comps != [] {
      var m := |comps| - 1;
      NormCompsClean(comps[..m], initial);
      var acc := NormComps(comps[..m], initial);
      var c := comps[m];
      assert '/' !in c;
      if !(c == "" || c == ".") && !(c != ".." || (initial == 0 && acc == []) || (acc != [] && acc[|acc| - 1] == "..")) && acc != [] {
        var r := acc[..|acc| - 1];
        assert forall i :: 0 <= i < |r| ==> r[i] == acc[i];
      }
    }
  }

  /** Joined components end with the last one. */
  lemma {:induction false} JoinEndsWithLast(cs: seq<string>, sep: char)
    requires |cs| >= 1
    ensures var j := Join(cs, sep); |j| >= |cs[|cs| - 1]| && j[|j| - |cs[|cs| - 1]|..] == cs[|cs| - 1]
  {
    if |cs| > 1 {
      JoinEndsWithLast(cs[1..], sep);
      var rest := Join(cs[1..], sep);
      var j := Join(cs, sep);
      assert j == cs[0] + [sep] + rest;
      assert cs[1..][|cs[1..]| - 1] == cs[|cs| - 1];
      var l := cs[|cs| - 1];
      assert j[|j| - |l|..] == rest[|rest| - |l|..];
    }
  }

  /**
   * normpath gives ".", or its leading slashes followed by clean components
   * joined with single slashes.
   */
  lemma NormPathShape(p: string)
    ensures var n := NormPath(p);
      n == "." || exists k: nat, cs :: k <= 2 && Clean(cs, k) && n == Slashes(k) + Join(cs, '/')
  {
    if p != "" {
      var k := InitialSlashes(p);
      var cs := NormComps(Split(p, '/'), k);
      SplitPartsLackSep(p, '/');
      NormCompsClean(Split(p, '/'), k);
      var n := Slashes(k) + Join(cs, '/');
      if n != "" {
        assert NormPath(p) == Slashes(k) + Join(cs, '/');
      }
    }
  }

  /** normpath ends with '/' only when it is all slashes: "/" or "//". */
  lemma NormPathTrailingSlash(p: string)
    ensures EndsWith(NormPath(p), '/') <==> NormPath(p) == "/" || NormPath(p) == "//"
  {
    if p != "" {
      var k := InitialSlashes(p);
      var cs := NormComps(Split(p, '/'), k);
      SplitPartsLackSep(p, '/');
      NormCompsClean(Split(p, '/'), k);
      if cs != [] {
        ComponentsNoTrailing(k, cs);
      } else {
        OnlySlashes(k, cs);
      }
    }
  }

  /** Clean components joined after the leading slashes never end with '/'. */
  lemma ComponentsNoTrailing(k: nat, cs: seq<string>)
    requires cs != []
    requires forall i :: 0 <= i < |cs| ==> cs[i] != "" && '/' !in cs[i]
    ensures var n := Slashes(k) + Join(cs, '/'); n != "" && n[|n| - 1] != '/'
  {
    JoinEndsWithLast(cs, '/');
    var l := cs[|cs| - 1];
    var j := Join(cs, '/');
    var n := Slashes(k) + j;
    assert l[|l| - 1] != '/' by {
      assert l[|l| - 1] in l;
    }
    assert n[|n| - 1] == j[|j| - 1] == l[|l| - 1];
  }

  /** With no components, only the leading slashes remain. */
  lemma OnlySlashes(k: nat, cs: seq<string>)
    requires k <= 2 && cs == []
    ensures var n := Slashes(k) + Join(cs, '/');
      (EndsWith(n, '/') <==> n == "/" || n == "//") && (n == "" <==> k == 0)
  {
    var n := Slashes(k) + Join(cs, '/');
    assert n == Slashes(k);
    if k == 1 {
      assert n == "/";
    } else if k == 2 {
      assert n == "//";
    }
  }
}
