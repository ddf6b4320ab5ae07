/**
 * The string operations the Python code relies on: number rendering inside
 * f-strings, the `in` substring test, `str.split`, `str.strip`, `str.replace`
 * for one character, and joining.
 */
module Text {

  // ---------------------------------------------------------------------------
  // Numerals
  // ---------------------------------------------------------------------------

  predicate IsDigit(c: char) { '0' <= c <= '9' }

  predicate AllDigits(s: string) { forall i :: 0 <= i < |s| ==> IsDigit(s[i]) }

  function Digit(d: nat): (c: char)
    requires d < 10
    ensures IsDigit(c) && c as int - '0' as int == d
  {
    ('0' as int + d) as char
  }

  /** Decimal text of a natural number, as `str(n)` prints it. */
  function NatText(n: nat): (s: string)
    ensures |s| > 0 && AllDigits(s)
    ensures n > 0 ==> s[0] != '0'
    decreases n
  {
    if n < 10 then [Digit(n)] else NatText(n / 10) + [Digit(n % 10)]
  }

  /** The value a string of decimal digits denotes: the inverse of NatText. */
  function DigitsValue(s: string): nat
    requires AllDigits(s)
  {
    if s == [] then 0 else DigitsValue(s[..|s| - 1]) * 10 + (s[|s| - 1] as int - '0' as int)
  }

  /** Reading back the rendered digits gives the number: rendering is injective. */
  lemma {:induction false} NatTextRoundTrip(n: nat)
    ensures DigitsValue(NatText(n)) == n
  {
    if n >= 10 {
      NatTextRoundTrip(n / 10);
      var s := NatText(n);
      assert s[..|s| - 1] == NatText(n / 10);
    }
  }

  /** Decimal text of an integer, with a leading '-' for negative values. */
  function IntText(i: int): string
  {
    if i < 0 then "-" + NatText(-i) else NatText(i)
  }

  /** The text of an integer is never empty and starts with '-' exactly when it is negative. */
  lemma IntTextSign(i: int)
    ensures |IntText(i)| > 0 && (IntText(i)[0] == '-' <==> i < 0)
  {
  }

  /**
   * Up to `n` digits of a fraction in [0, 1), stopping early once the rest is
   * zero (so 0.5 gives "5" and 0.25 gives "25").
   */
  function FractionDigits(f: real, n: nat): (s: string)
    requires 0.0 <= f < 1.0
    ensures |s| <= n && AllDigits(s)
    decreases n
  {
    if n == 0 || f == 0.0 then ""
    else
      var d := (f * 10.0).Floor;
      [Digit(d)] + FractionDigits(f * 10.0 - d as real, n - 1)
  }

  function UnsignedRealText(r: real): string
    requires r >= 0.0
  {
    var whole := r.Floor;
    var frac := r - whole as real;
    NatText(whole) + (if frac == 0.0 then "" else "." + FractionDigits(frac, 6))
  }

  /**
   * Text of a real quantity (a time, a ratio, a frame rate). Integral values
   * print as integers; others print with at most six fractional digits.
   */
  function RealText(r: real): string
  {
    if r == r.Floor as real then IntText(r.Floor)
    else if r < 0.0 then "-" + UnsignedRealText(-r)
    else UnsignedRealText(r)
  }

  // ---------------------------------------------------------------------------
  // Suffixes: Python's `s.endswith(t)`
  // ---------------------------------------------------------------------------

  predicate EndsWith(s: string, t: string)
  {
    |s| >= |t| && s[|s| - |t|..] == t
  }

  /** Whatever is put in front, a string still ends with its own last piece. */
  lemma EndsWithAppend(a: string, b: string)
    ensures EndsWith(a + b, b)
  {
    assert (a + b)[|a|..] == b;
  }

  /** Regrouping the tail of a concatenation. */
  lemma RegroupTail(head: string, mid: string, a: string, b: string, c: string, d: string)
    ensures head + mid + a + b + c + d == head + mid + (a + b + c + d)
  {
  }

  // ---------------------------------------------------------------------------
  // Substrings: Python's `pat in s`
  // ---------------------------------------------------------------------------

  /** `pat in s`: some suffix of `s` starts with `pat`. */
  predicate Contains(s: string, pat: string)
  {
    exists i :: 0 <= i <= |s| && pat <= s[i..]
  }

  /** An occurrence at any position is found by `in`. */
  lemma ContainsAt(s: string, pat: string, i: nat)
    requires i + |pat| <= |s| && s[i..i + |pat|] == pat
    ensures Contains(s, pat)
  {
    assert pat <= s[i..];
  }

  /** A non-empty pattern never occurs in the empty string. */
  lemma NotInEmpty(pat: string)
    requires |pat| > 0
    ensures !Contains("", pat)
  {
  }

  /** A pattern occurring in the middle piece occurs in the whole. */
  lemma ContainsInside(a: string, b: string, c: string, pat: string)
    requires pat <= b
    ensures Contains(a + b + c, pat)
  {
    assert (a + b + c)[|a|..] == b + c;
  }

  /** A pattern occurring in a suffix occurs in the whole. */
  lemma ContainsSuffix(a: string, b: string, pat: string)
    requires Contains(b, pat)
    ensures Contains(a + b, pat)
  {
    var i :| 0 <= i <= |b| && pat <= b[i..];
    assert (a + b)[|a| + i..] == b[i..];
  }

  /** A pattern occurring in a prefix occurs in the whole. */
  lemma ContainsPrefix(a: string, b: string, pat: string)
    requires Contains(a, pat)
    ensures Contains(a + b, pat)
  {
    var i :| 0 <= i <= |a| && pat <= a[i..];
    assert (a + b)[i..] == a[i..] + b;
  }

  /** An occurrence after the first character is an occurrence. */
  lemma ContainsTail(s: string, pat: string)
    requires |s| > 0
    ensures Contains(s[1..], pat) ==> Contains(s, pat)
  {
    if Contains(s[1..], pat) {
      var i :| 0 <= i <= |s[1..]| && pat <= s[1..][i..];
      assert s[1..][i..] == s[i + 1..];
    }
  }

  /** A pattern occurring in the middle piece occurs in the whole. */
  lemma ContainsWithin(a: string, b: string, c: string, pat: string)
    requires Contains(b, pat)
    ensures Contains(a + b + c, pat)
  {
    ContainsSuffix(a, b, pat);
    ContainsPrefix(a + b, c, pat);
  }

  /** A single-character pattern occurs exactly when that character does. */
  lemma ContainsChar(s: string, c: char)
    ensures Contains(s, [c]) <==> exists i :: 0 <= i < |s| && s[i] == c
  {
    if Contains(s, [c]) {
      var i :| 0 <= i <= |s| && [c] <= s[i..];
      assert s[i] == c;
    }
    if i :| 0 <= i < |s| && s[i] == c {
      assert [c] <= s[i..];
    }
  }


  // ---------------------------------------------------------------------------
  // Splitting and joining: Python's `s.split(sep)` and `sep.join(parts)`
  // ---------------------------------------------------------------------------

  /**
   * Splits `s` at the non-overlapping occurrences of `sep` found scanning
   * left to right; `piece` is the part gathered so far.
   */
  function SplitFrom(s: string, sep: string, piece: string): (parts: seq<string>)
    requires |sep| > 0
    ensures |parts| > 0
    decreases |s|
  {
    if s == [] then [piece]
    else if sep <= s then [piece] + SplitFrom(s[|sep|..], sep, "")
    else SplitFrom(s[1..], sep, piece + [s[0]])
  }

  /** `s.split(sep)` for a non-empty separator (Python refuses an empty one). */
  function SplitOn(s: string, sep: string): seq<string>
    requires |sep| > 0
  {
    SplitFrom(s, sep, "")
  }

  /** `"".join(parts)`: the parts one after another. */
  function Concat(parts: seq<string>): string
  {
    if parts == [] then "" else parts[0] + Concat(parts[1..])
  }

  lemma {:induction false} ConcatConcat(a: seq<string>, b: seq<string>)
    ensures Concat(a + b) == Concat(a) + Concat(b)
  {
    if a != [] {
      assert (a + b)[1..] == a[1..] + b;
      ConcatConcat(a[1..], b);
    } else {
      assert a + b == b;
    }
  }

  /** `sep.join(parts)`. */
  function Join(parts: seq<string>, sep: string): string
  {
    if parts == [] then ""
    else if |parts| == 1 then parts[0]
    else parts[0] + sep + Join(parts[1..], sep)
  }

  /** A pattern that starts one of the parts occurs in their join. */
  lemma {:induction false} JoinContains(parts: seq<string>, sep: string, j: nat, pat: string)
    requires j < |parts| && pat <= parts[j]
    ensures Contains(Join(parts, sep), pat)
  {
    if j == 0 {
      if |parts| == 1 {
        ContainsInside("", parts[0], "", pat);
        assert "" + parts[0] + "" == parts[0];
      } else {
        ContainsInside("", parts[0], sep + Join(parts[1..], sep), pat);
        assert "" + parts[0] + (sep + Join(parts[1..], sep)) == Join(parts, sep);
      }
    } else {
      JoinContains(parts[1..], sep, j - 1, pat);
      ContainsSuffix(parts[0] + sep, Join(parts[1..], sep), pat);
    }
  }

  /** Joining the pieces of a split with the same separator gives back the input. */
  lemma {:induction false} JoinSplitFrom(s: string, sep: string, piece: string)
    requires |sep| > 0
    ensures Join(SplitFrom(s, sep, piece), sep) == piece + s
    decreases |s|
  {
    if s == [] {
    } else if sep <= s {
      var rest := SplitFrom(s[|sep|..], sep, "");
      JoinSplitFrom(s[|sep|..], sep, "");
      assert ([piece] + rest)[1..] == rest;
      assert sep + s[|sep|..] == s;
    } else {
      JoinSplitFrom(s[1..], sep, piece + [s[0]]);
      assert piece + [s[0]] + s[1..] == piece + s;
    }
  }

  lemma JoinSplit(s: string, sep: string)
    requires |sep| > 0
    ensures Join(SplitOn(s, sep), sep) == s
  {
    JoinSplitFrom(s, sep, "");
  }

  /** With no separator in `s`, splitting yields the one piece. */
  lemma {:induction false} SplitWithoutSep(s: string, sep: string, piece: string)
    requires |sep| > 0 && !Contains(s, sep)
    ensures SplitFrom(s, sep, piece) == [piece + s]
    decreases |s|
  {
    if s != [] {
      assert s[0..] == s;
      ContainsTail(s, sep);
      assert SplitFrom(s, sep, piece) == SplitFrom(s[1..], sep, piece + [s[0]]);
      SplitWithoutSep(s[1..], sep, piece + [s[0]]);
      assert piece + [s[0]] + s[1..] == piece + s;
    } else {
      assert piece + s == piece;
    }
  }

  /**
   * A string that starts with `sep` and has no further occurrence splits into
   * an empty head and the rest.
   */
  lemma SplitAfterPrefix(sep: string, rest: string)
    requires |sep| > 0 && !Contains(rest, sep)
    ensures SplitOn(sep + rest, sep) == ["", rest]
  {
    var s := sep + rest;
    assert s[|sep|..] == rest;
    SplitWithoutSep(rest, sep, "");
    assert "" + rest == rest;
  }

  function Last<T>(xs: seq<T>): T
    requires |xs| > 0
  {
    xs[|xs| - 1]
  }

  /** The last piece of a split on one character is what follows its last occurrence. */
  lemma {:induction false} LastPieceAfter(u: string, c: char, name: string, piece: string)
    requires !Contains(name, [c])
    ensures Last(SplitFrom(u + [c] + name, [c], piece)) == name
    decreases |u|
  {
    var s := u + [c] + name;
    if u == [] {
      assert s[1..] == name;
      SplitWithoutSep(name, [c], "");
      assert "" + name == name;
    } else if [c] <= s {
      assert s[1..] == u[1..] + [c] + name;
      LastPieceAfter(u[1..], c, name, "");
    } else {
      assert s[1..] == u[1..] + [c] + name;
      LastPieceAfter(u[1..], c, name, piece + [s[0]]);
    }
  }

  // ---------------------------------------------------------------------------
  // Stripping and replacing
  // ---------------------------------------------------------------------------

  /** The characters Python's `str.isspace` accepts, so `str.strip()` removes. */
  predicate IsSpace(c: char)
  {
    c == ' ' || c == '\t' || c == '\n' || c == '\r' || c == '\U{0B}' || c == '\U{0C}'
    || ('\U{1C}' <= c <= '\U{1F}') || c == '\U{85}' || c == '\U{A0}' || c == '\U{1680}'
    || ('\U{2000}' <= c <= '\U{200A}') || c == '\U{2028}' || c == '\U{2029}'
    || c == '\U{202F}' || c == '\U{205F}' || c == '\U{3000}'
  }

  predicate NoSpace(s: string) { forall i :: 0 <= i < |s| ==> !IsSpace(s[i]) }

  function LStrip(s: string): (r: string)
    ensures |r| <= |s| && r == s[|s| - |r|..]
    ensures r != [] ==> !IsSpace(r[0])
  {
    if s != [] && IsSpace(s[0]) then LStrip(s[1..]) else s
  }

  function RStrip(s: string): (r: string)
    ensures |r| <= |s| && r == s[..|r|]
    ensures r != [] ==> !IsSpace(r[|r| - 1])
  {
    if s != [] && IsSpace(s[|s| - 1]) then RStrip(s[..|s| - 1]) else s
  }

  /** `s.strip()`: leading and trailing whitespace removed. */
  function Strip(s: string): string
  {
    RStrip(LStrip(s))
  }

  /** Left-stripping a concatenation whose right part starts with a non-space. */
  lemma {:induction false} LStripConcat(a: string, b: string)
    requires b != [] && !IsSpace(b[0])
    ensures LStrip(a + b) == LStrip(a) + b
  {
    if a != [] && IsSpace(a[0]) {
      assert (a + b)[1..] == a[1..] + b;
      LStripConcat(a[1..], b);
    }
  }

  /** `s.replace(old, new)` for one-character arguments. */
  function ReplaceChar(s: string, from: char, to: char): (r: string)
    ensures |r| == |s|
    ensures forall i :: 0 <= i < |s| ==> r[i] == (if s[i] == from then to else s[i])
  {
    seq(|s|, i requires 0 <= i < |s| => if s[i] == from then to else s[i])
  }
}
