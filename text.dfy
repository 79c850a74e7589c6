/**
 * The two ECMAScript string operations the answer check applies:
 * `String.prototype.trim` and `String.prototype.toLowerCase`.
 * Strings are sequences of Unicode scalar values.
 */
module Text {

  /** ECMAScript WhiteSpace and LineTerminator code points: the ones `trim` removes. */
  predicate IsWhitespace(c: char) {
    var x := c as int;
    x == 0x09 || x == 0x0A || x == 0x0B || x == 0x0C || x == 0x0D || x == 0x20 ||
    x == 0xA0 || x == 0x1680 || (0x2000 <= x <= 0x200A) || x == 0x2028 || x == 0x2029 ||
    x == 0x202F || x == 0x205F || x == 0x3000 || x == 0xFEFF
  }

  predicate AllWhitespace(s: string) {
    forall j :: 0 <= j < |s| ==> IsWhitespace(s[j])
  }

  /** Neither the first nor the last character is whitespace. */
  predicate NoBoundaryWhitespace(s: string) {
    s == [] || (!IsWhitespace(s[0]) && !IsWhitespace(s[|s| - 1]))
  }

  /**
   * Simple case mapping of `toLowerCase` on the letters a vocabulary sheet of
   * Chinese words with pinyin uses: ASCII, Latin-1, Latin Extended-A
   * (U+0100..U+017E, except U+0130, whose lower case is two characters) with
   * U+0178 to U+00FF, and the pinyin vowels with caron (U+01CD..U+01DC).
   * Every other character maps to itself.
   */
  function LowerChar(c: char): (d: char)
    ensures IsWhitespace(d) <==> IsWhitespace(c)
  {
    var x := c as int;
    if ('A' <= c <= 'Z') || (0xC0 <= x <= 0xDE && x != 0xD7) then (x + 0x20) as char
    else if (0x100 <= x <= 0x12F || 0x132 <= x <= 0x137 || 0x14A <= x <= 0x177) && x % 2 == 0 then (x + 1) as char
    else if (0x139 <= x <= 0x148 || 0x179 <= x <= 0x17E || 0x1CD <= x <= 0x1DB) && x % 2 == 1 then (x + 1) as char
    else if x == 0x178 then 0xFF as char
    else c
  }

  /** A lower-case letter has no further lower-case form. */
  lemma LowerCharIdempotent(c: char)
    ensures LowerChar(LowerChar(c)) == LowerChar(c)
  {
  }

  function Lower(s: string): (r: string)
    ensures |r| == |s|
    ensures forall i :: 0 <= i < |s| ==> r[i] == LowerChar(s[i])
  {
    seq(|s|, i requires 0 <= i < |s| => LowerChar(s[i]))
  }

  /** Lower-casing twice is lower-casing once. */
  lemma LowerIdempotent(s: string)
    ensures Lower(Lower(s)) == Lower(s)
  {
    forall i | 0 <= i < |s| ensures Lower(Lower(s))[i] == Lower(s)[i] {
      LowerCharIdempotent(s[i]);
    }
  }

  lemma LowerConcat(a: string, b: string)
    ensures Lower(a + b) == Lower(a) + Lower(b)
  {
  }

  /** Drops leading whitespace: `r` is the suffix of `s` that starts at its first non-whitespace character. */
  function TrimStart(s: string): (r: string)
    ensures |r| <= |s| && r == s[|s| - |r|..]
    ensures AllWhitespace(s[..|s| - |r|])
    ensures r == [] || !IsWhitespace(r[0])
  {
    if |s| > 0 && IsWhitespace(s[0]) then
      var r := TrimStart(s[1..]);
      assert s[..|s| - |r|] == [s[0]] + s[1..][..|s| - 1 - |r|];
      r
    else s
  }

  /** Drops trailing whitespace: `r` is the prefix of `s` that ends at its last non-whitespace character. */
  function TrimEnd(s: string): (r: string)
    ensures |r| <= |s| && r == s[..|r|]
    ensures AllWhitespace(s[|r|..])
    ensures r == [] || !IsWhitespace(r[|r| - 1])
  {
    if |s| > 0 && IsWhitespace(s[|s| - 1]) then
      var r := TrimEnd(s[..|s| - 1]);
      assert s[|r|..] == s[..|s| - 1][|r|..] + [s[|s| - 1]];
      r
    else s
  }

  /**
   * `String.prototype.trim`: whitespace is removed from both ends, so the result
   * has none at either end. `SplitAroundTrim` gives the removed padding.
   */
  function Trim(s: string): (r: string)
    ensures |r| <= |s|
    ensures NoBoundaryWhitespace(r)
  {
    TrimEnd(TrimStart(s))
  }

  /** Leading whitespace is skipped up to the first character that is not whitespace. */
  lemma {:induction false} TrimStartSkips(a: string, u: string)
    requires AllWhitespace(a) && (u == [] || !IsWhitespace(u[0]))
    ensures TrimStart(a + u) == u
  {
    if a == [] {
      assert a + u == u;
    } else {
      assert (a + u)[1..] == a[1..] + u;
      TrimStartSkips(a[1..], u);
    }
  }

  /** Trailing whitespace is skipped back to the last character that is not whitespace. */
  lemma {:induction false} TrimEndSkips(u: string, b: string)
    requires AllWhitespace(b) && (u == [] || !IsWhitespace(u[|u| - 1]))
    ensures TrimEnd(u + b) == u
  {
    if b == [] {
      assert u + b == u;
    } else {
      assert (u + b)[..|u + b| - 1] == u + b[..|b| - 1];
      TrimEndSkips(u, b[..|b| - 1]);
    }
  }

  /** Trimming `a + t + b` recovers `t` whenever `a` and `b` are whitespace and `t` is not padded itself. */
  lemma TrimOfPadded(a: string, t: string, b: string)
    requires AllWhitespace(a) && AllWhitespace(b) && NoBoundaryWhitespace(t)
    ensures Trim(a + t + b) == t
  {
    if t == [] {
      assert a + t + b == (a + b) + [];
      TrimStartSkips(a + b, []);
      TrimEndSkips([], []);
    } else {
      assert a + t + b == a + (t + b);
      TrimStartSkips(a, t + b);
      TrimEndSkips(t, b);
    }
  }

  /** Splits a string around its trimmed value. */
  lemma SplitAroundTrim(s: string) returns (a: string, b: string)
    ensures AllWhitespace(a) && AllWhitespace(b) && s == a + Trim(s) + b
  {
    var t := TrimStart(s);
    var r := TrimEnd(t);
    assert Trim(s) == r;
    a, b := s[..|s| - |t|], t[|r|..];
    SplitAt(s, |s| - |t|);
    SplitAt(t, |r|);
    Regroup3(a, r, b);
  }

  lemma SplitAt(s: string, k: nat)
    requires k <= |s|
    ensures s == s[..k] + s[k..]
  {
  }

  lemma Regroup3(a: string, r: string, b: string)
    ensures a + (r + b) == a + r + b
  {
  }

  lemma AllWhitespaceConcat(a: string, b: string)
    requires AllWhitespace(a) && AllWhitespace(b)
    ensures AllWhitespace(a + b)
  {
  }

  lemma Regroup(a: string, a': string, t: string, b': string, b: string)
    ensures a + (a' + t + b') + b == (a + a') + t + (b' + b)
  {
  }

  /** Surrounding whitespace does not change the trimmed value. */
  lemma TrimIgnoresPadding(a: string, s: string, b: string)
    requires AllWhitespace(a) && AllWhitespace(b)
    ensures Trim(a + s + b) == Trim(s)
  {
    var t := Trim(s);
    var a', b' := SplitAroundTrim(s);
    AllWhitespaceConcat(a, a');
    AllWhitespaceConcat(b', b);
    Regroup(a, a', t, b', b);
    TrimOfPadded(a + a', t, b' + b);
  }

  /** Trimming leaves a string unchanged exactly when it has no boundary whitespace. */
  lemma TrimIdentity(s: string)
    ensures Trim(s) == s <==> NoBoundaryWhitespace(s)
  {
    if NoBoundaryWhitespace(s) {
      assert [] + s + [] == s;
      TrimOfPadded([], s, []);
    }
  }

  /** Lower-casing and trimming commute: case mapping never turns whitespace into a letter or back. */
  lemma LowerTrimCommute(s: string)
    ensures Lower(Trim(s)) == Trim(Lower(s))
  {
    var t := Trim(s);
    var a, b := SplitAroundTrim(s);
    LowerConcat(a, t);
    LowerConcat(a + t, b);
    assert Lower(s) == Lower(a) + Lower(t) + Lower(b);
    assert AllWhitespace(Lower(a)) && AllWhitespace(Lower(b));
    assert NoBoundaryWhitespace(Lower(t));
    TrimOfPadded(Lower(a), Lower(t), Lower(b));
  }
}
