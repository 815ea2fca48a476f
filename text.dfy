/**
 * The few Python string operations the server relies on: `str.strip()`,
 * ASCII `lower()`, slicing `s[:n]` and `s.split(c)[0]`.
 */
module Text {

  /** Python's `str.isspace()`: the code points Unicode classes as whitespace. */
  predicate IsSpace(c: char) {
    var n := c as int;
    || (0x09 <= n <= 0x0D) || (0x1C <= n <= 0x20) || n == 0x85 || n == 0xA0
    || n == 0x1680 || (0x2000 <= n <= 0x200A) || n == 0x2028 || n == 0x2029
    || n == 0x202F || n == 0x205F || n == 0x3000
  }

  /** Every character is whitespace (this includes the empty string). */
  predicate Blank(s: string) {
    forall i :: 0 <= i < |s| ==> IsSpace(s[i])
  }

  /** Neither end of `s` is whitespace: what `strip()` leaves behind. */
  predicate Stripped(s: string) {
    s == [] || (!IsSpace(s[0]) && !IsSpace(s[|s| - 1]))
  }

  /** `s.lstrip()`: what is left after dropping leading whitespace; `TrimStartSuffix` says what that is. */
  function TrimStart(s: string): (r: string)
    ensures |r| <= |s|
  {
    if s != [] && IsSpace(s[0]) then TrimStart(s[1..]) else s
  }

  /** `s.rstrip()`: what is left after dropping trailing whitespace; `TrimEndPrefix` says what that is. */
  function TrimEnd(s: string): (r: string)
    ensures |r| <= |s|
  {
    if s != [] && IsSpace(s[|s| - 1]) then TrimEnd(s[..|s| - 1]) else s
  }

  /** `lstrip()` keeps a suffix not starting with whitespace and drops only whitespace. */
  lemma {:induction false} TrimStartSuffix(s: string)
    ensures var r := TrimStart(s);
      r == s[|s| - |r|..] && Blank(s[..|s| - |r|]) && (r == [] || !IsSpace(r[0]))
  {
    if s != [] && IsSpace(s[0]) {
      TrimStartSuffix(s[1..]);
      var r := TrimStart(s);
      var p := s[..|s| - |r|];
      assert s[1..][|s| - 1 - |r|..] == s[|s| - |r|..];
      forall k | 0 <= k < |p| ensures IsSpace(p[k]) {
        if 0 < k { assert p[k] == s[1..][..|s| - 1 - |r|][k - 1]; }
      }
    }
  }

  /** `rstrip()` keeps a prefix not ending in whitespace and drops only whitespace. */
  lemma {:induction false} TrimEndPrefix(s: string)
    ensures var r := TrimEnd(s);
      r == s[..|r|] && Blank(s[|r|..]) && (r == [] || !IsSpace(r[|r| - 1]))
  {
    if s != [] && IsSpace(s[|s| - 1]) {
      var t := s[..|s| - 1];
      TrimEndPrefix(t);
      var r := TrimEnd(s);
      assert t[..|r|] == s[..|r|];
      forall k | |r| <= k < |s| ensures IsSpace(s[k]) {
        if k < |s| - 1 { assert t[|r|..][k - |r|] == s[k]; }
      }
    }
  }

  /** `r` is the slice `s[i..j]` with only whitespace outside it. */
  ghost predicate StripOf(s: string, r: string) {
    exists i, j :: 0 <= i <= j <= |s| && r == s[i..j] && Blank(s[..i]) && Blank(s[j..])
  }

  /** `s.strip()`: drops the whitespace at both ends; `TrimSlice` says what is left. */
  function Trim(s: string): (r: string)
    ensures Stripped(r) && |r| <= |s|
  {
    var a := TrimStart(s);
    var r := TrimEnd(a);
    TrimStartSuffix(s);
    TrimEndPrefix(a);
    StripParts(s, a, r);
    r
  }

  /** `Trim(s)` is a slice of `s` with only whitespace outside it. */
  lemma TrimSlice(s: string)
    ensures StripOf(s, Trim(s))
  {
    TrimStartSuffix(s);
    TrimEndPrefix(TrimStart(s));
    StripParts(s, TrimStart(s), TrimEnd(TrimStart(s)));
  }

  /** Dropping a blank prefix and then a blank suffix leaves a stripped slice. */
  lemma StripParts(s: string, a: string, r: string)
    requires |a| <= |s| && a == s[|s| - |a|..] && Blank(s[..|s| - |a|]) && (a == [] || !IsSpace(a[0]))
    requires |r| <= |a| && r == a[..|r|] && Blank(a[|r|..]) && (r == [] || !IsSpace(r[|r| - 1]))
    ensures Stripped(r) && StripOf(s, r)
  {
    var i := |s| - |a|;
    var j := i + |r|;
    assert r == s[i..j];
    assert s[j..] == a[|r|..];
    if r != [] {
      assert r[0] == a[0];
    }
  }

  /** Blank strings, and only they, strip to the empty string. */
  lemma TrimEmptyIffBlank(s: string)
    ensures Trim(s) == [] <==> Blank(s)
  {
    var r := Trim(s);
    TrimSlice(s);
    var i, j :| 0 <= i <= j <= |s| && r == s[i..j] && Blank(s[..i]) && Blank(s[j..]);
    if r == [] {
      forall k | 0 <= k < |s| ensures IsSpace(s[k]) {
        if k < i { assert s[..i][k] == s[k]; } else { assert s[j..][k - j] == s[k]; }
      }
    } else {
      assert s[i] == r[0];
    }
  }

  /** Stripping a string that is already stripped changes nothing. */
  lemma TrimStripped(s: string)
    requires Stripped(s)
    ensures Trim(s) == s
  {
    assert TrimStart(s) == s;
    assert TrimEnd(s) == s;
  }

  /** `strip()` is idempotent. */
  lemma TrimIdempotent(s: string)
    ensures Trim(Trim(s)) == Trim(s)
  {
    TrimStripped(Trim(s));
  }

  /** A space-joined pair strips to nothing exactly when both parts are blank. */
  lemma JoinedBlank(a: string, b: string)
    ensures Trim(a + " " + b) == [] <==> Blank(a) && Blank(b)
  {
    TrimEmptyIffBlank(a + " " + b);
    JoinedSpaces(a, b);
  }

  /** A space-joined pair is all whitespace exactly when both parts are. */
  lemma JoinedSpaces(a: string, b: string)
    ensures Blank(a + " " + b) <==> Blank(a) && Blank(b)
  {
    var s := a + " " + b;
    assert forall k :: 0 <= k < |a| ==> s[k] == a[k];
    assert forall k :: 0 <= k < |b| ==> s[|a| + 1 + k] == b[k];
    assert s[|a|] == ' ' && IsSpace(' ');
    if Blank(a) && Blank(b) {
      forall k | 0 <= k < |s| ensures IsSpace(s[k]) {
        if |a| < k { assert s[k] == b[k - |a| - 1]; }
      }
    }
  }

  /** ASCII `lower()` of one character. */
  function LowerChar(c: char): char {
    if 'A' <= c <= 'Z' then (c as int + 32) as char else c
  }

  /** `s.lower()`, restricted to the ASCII letters. */
  function Lower(s: string): (r: string)
    ensures |r| == |s|
    ensures forall i :: 0 <= i < |s| ==> r[i] == LowerChar(s[i])
  {
    if s == [] then [] else [LowerChar(s[0])] + Lower(s[1..])
  }

  /** Lower-casing changes no whitespace, so a stripped string stays stripped. */
  lemma LowerKeepsStripped(s: string)
    requires Stripped(s)
    ensures Stripped(Lower(s))
  {
    if s != [] {
      assert Lower(s)[0] == LowerChar(s[0]) && Lower(s)[|s| - 1] == LowerChar(s[|s| - 1]);
    }
  }

  /** Lower-casing twice is lower-casing once. */
  lemma LowerIdempotent(s: string)
    ensures Lower(Lower(s)) == Lower(s)
  {
    assert forall i :: 0 <= i < |s| ==> Lower(Lower(s))[i] == LowerChar(LowerChar(s[i])) == LowerChar(s[i]);
  }

  /** `s[:n]`: the longest prefix of `s` with at most `n` characters. */
  function Take(s: string, n: nat): (r: string)
    ensures |r| == if |s| <= n then |s| else n
    ensures r <= s
  {
    if |s| <= n then s else s[..n]
  }

  /** `s.split(c)[0]`: everything before the first `c`, or all of `s`. */
  function Before(s: string, c: char): (r: string)
    ensures r <= s && c !in r
    ensures |r| < |s| ==> s[|r|] == c
  {
    if s == [] || s[0] == c then [] else [s[0]] + Before(s[1..], c)
  }
}
