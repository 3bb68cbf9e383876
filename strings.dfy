/** The handful of Python string operations the library relies on:
    str.split / str.join on one separator character, str.lower,
    str.isdigit and int(), str(int), str.startswith, str.rstrip,
    str.replace and str.strip, restricted to ASCII. */
module Strings {

  /** Position of the first occurrence of c in s. */
  function IndexOf(s: string, c: char): (i: nat)
    requires c in s
    ensures i < |s| && s[i] == c && c !in s[..i]
  {
    if s[0] == c then 0 else 1 + IndexOf(s[1..], c)
  }

  /** s.split(c): the pieces between the occurrences of c; never empty. */
  function Split(s: string, c: char): (parts: seq<string>)
    ensures |parts| >= 1
    ensures forall i | 0 <= i < |parts| :: c !in parts[i]
    decreases |s|
  {
    if c !in s then [s]
    else
      var i := IndexOf(s, c);
      [s[..i]] + Split(s[i + 1..], c)
  }

  /** c.join(parts). */
  function Join(parts: seq<string>, c: char): string
  {
    if parts == [] then ""
    else if |parts| == 1 then parts[0]
    else parts[0] + [c] + Join(parts[1..], c)
  }

  lemma {:induction false} IndexOfAfterPrefix(a: string, c: char, b: string)
    requires c !in a
    ensures IndexOf(a + [c] + b, c) == |a|
  {
    if a != [] {
      assert (a + [c] + b)[1..] == a[1..] + [c] + b;
      IndexOfAfterPrefix(a[1..], c, b);
    }
  }

  /** Joining the pieces of a split gives back the string. */
  lemma {:induction false} JoinSplit(s: string, c: char)
    ensures Join(Split(s, c), c) == s
    decreases |s|
  {
    if c in s {
      var i := IndexOf(s, c);
      var head, rest := s[..i], s[i + 1..];
      var ps := Split(rest, c);
      assert Split(s, c) == [head] + ps;
      JoinSplit(rest, c);
      assert ([head] + ps)[1..] == ps;
      assert Join([head] + ps, c) == head + [c] + Join(ps, c);
      assert s == head + [c] + rest;
    }
  }

  /** Splitting a join of separator-free pieces gives back the pieces. */
  lemma {:induction false} SplitJoin(parts: seq<string>, c: char)
    requires |parts| >= 1
    requires forall i | 0 <= i < |parts| :: c !in parts[i]
    ensures Split(Join(parts, c), c) == parts
  {
    if |parts| > 1 {
      var head, tail := parts[0], parts[1..];
      assert forall i | 0 <= i < |tail| :: c !in tail[i] by {
        forall i | 0 <= i < |tail| ensures c !in tail[i] {
          assert tail[i] == parts[i + 1];
        }
      }
      SplitJoin(tail, c);
      var rest := Join(tail, c);
      SplitAfterPiece(head, c, rest);
      assert parts == [head] + tail;
    }
  }

  /** A separator-free piece, the separator, then anything: the piece is
      the first part of the split. */
  lemma SplitAfterPiece(a: string, c: char, b: string)
    requires c !in a
    ensures Split(a + [c] + b, c) == [a] + Split(b, c)
  {
    var s := a + [c] + b;
    assert s[|a|] == c;
    IndexOfAfterPrefix(a, c, b);
    assert s[..|a|] == a;
    assert s[|a| + 1..] == b;
  }

  /** Appending one more separator-free piece to a split. */
  lemma {:induction false} SplitSnoc(a: string, c: char, b: string)
    requires c !in b
    ensures Split(a + [c] + b, c) == Split(a, c) + [b]
    decreases |a|
  {
    if c !in a {
      SplitAfterPiece(a, c, b);
    } else {
      var i := IndexOf(a, c);
      var x, y := a[..i], a[i + 1..];
      assert a == x + [c] + y;
      CharRegroup(x, c, y, b);
      SplitAfterPiece(x, c, y + [c] + b);
      SplitAfterPiece(x, c, y);
      SplitSnoc(y, c, b);
    }
  }

  lemma CharRegroup(x: string, c: char, y: string, b: string)
    ensures x + [c] + y + [c] + b == x + [c] + (y + [c] + b)
  {
  }

  lemma {:induction false} JoinSnoc(parts: seq<string>, c: char, x: string)
    requires |parts| >= 1
    ensures Join(parts + [x], c) == Join(parts, c) + [c] + x
  {
    if |parts| > 1 {
      assert (parts + [x])[1..] == parts[1..] + [x];
      JoinSnoc(parts[1..], c, x);
    } else {
      assert (parts + [x])[1..] == [x];
    }
  }

  lemma {:induction false} JoinAppend(xs: seq<string>, ys: seq<string>, c: char)
    requires |xs| >= 1 && |ys| >= 1
    ensures Join(xs + ys, c) == Join(xs, c) + [c] + Join(ys, c)
  {
    if |xs| > 1 {
      assert (xs + ys)[1..] == xs[1..] + ys;
      JoinAppend(xs[1..], ys, c);
    } else {
      assert (xs + ys)[1..] == ys;
    }
  }

  // ---------------------------------------------------------------------
  // Case folding (ASCII)

  function LowerChar(ch: char): char
  {
    if 'A' <= ch <= 'Z' then (ch as int + 32) as char else ch
  }

  /** s.lower() */
  function Lower(s: string): (r: string)
    ensures |r| == |s|
  {
    seq(|s|, i requires 0 <= i < |s| => LowerChar(s[i]))
  }

  /** Lower-casing leaves no upper-case letter, maps each upper-case one
      to its lower-case letter, and keeps every other character. */
  lemma LowerCases(s: string)
    ensures forall i | 0 <= i < |s| :: !('A' <= Lower(s)[i] <= 'Z')
    ensures forall i | 0 <= i < |s| :: 'A' <= s[i] <= 'Z' ==> Lower(s)[i] as int == s[i] as int + 32
    ensures forall i | 0 <= i < |s| :: !('A' <= s[i] <= 'Z') ==> Lower(s)[i] == s[i]
  {
  }

  /** Lower-casing twice is lower-casing once. */
  lemma LowerIdempotent(s: string)
    ensures Lower(Lower(s)) == Lower(s)
  {
    var l := Lower(s);
    assert forall i | 0 <= i < |s| :: Lower(l)[i] == LowerChar(LowerChar(s[i])) == LowerChar(s[i]);
  }

  // ---------------------------------------------------------------------
  // Decimal digits

  predicate IsDigit(ch: char) { '0' <= ch <= '9' }

  /** s.isdigit(), for ASCII: non-empty and every character a digit. */
  predicate IsDigits(s: string)
  {
    |s| > 0 && forall i | 0 <= i < |s| :: IsDigit(s[i])
  }

  /** int(s) for a digit string: the last digit is the units, and the
      value is zero exactly when every digit is '0'. */
  function DigitsValue(s: string): (v: nat)
    requires forall i | 0 <= i < |s| :: IsDigit(s[i])
    ensures s != [] ==> v % 10 == DigitValue(s[|s| - 1])
    ensures v == 0 <==> forall i | 0 <= i < |s| :: s[i] == '0'
  {
    if s == [] then 0
    else DigitsValue(s[..|s| - 1]) * 10 + DigitValue(s[|s| - 1])
  }

  function DigitValue(ch: char): (d: nat)
    requires IsDigit(ch)
  {
    (ch as int - '0' as int) as nat
  }

  function DigitChar(d: nat): char
    requires d < 10
  {
    ('0' as int + d) as char
  }

  /** str(n) for a natural number. */
  function NatToString(n: nat): (r: string)
    ensures IsDigits(r)
  {
    if n < 10 then [DigitChar(n)]
    else NatToString(n / 10) + [DigitChar(n % 10)]
  }

  /** f"{i}" for any integer: the digits of its magnitude, after a '-'
      when negative. */
  function IntToString(i: int): (r: string)
    ensures i >= 0 ==> IsDigits(r)
    ensures i < 0 ==> |r| >= 2 && r[0] == '-' && IsDigits(r[1..])
  {
    if i < 0 then "-" + NatToString(-i) else NatToString(i)
  }

  /** int(str(n)) == n */
  lemma {:induction false} DigitsValueOfNatToString(n: nat)
    ensures DigitsValue(NatToString(n)) == n
  {
    if n >= 10 {
      var s := NatToString(n);
      assert s[..|s| - 1] == NatToString(n / 10);
      DigitsValueOfNatToString(n / 10);
    }
  }

  // ---------------------------------------------------------------------
  // Prefixes, trailing characters, replacement, blanks

  predicate StartsWith(s: string, p: string)
  {
    |p| <= |s| && s[..|p|] == p
  }

  /** s.rstrip(c) for one character c: every trailing c removed. */
  function RStrip(s: string, c: char): (r: string)
    ensures |r| <= |s| && s[..|r|] == r
    ensures r == [] || r[|r| - 1] != c
    ensures forall i | |r| <= i < |s| :: s[i] == c
  {
    if s != [] && s[|s| - 1] == c then RStrip(s[..|s| - 1], c) else s
  }

  /** s.replace(pat, ""): every non-overlapping occurrence of pat, from the
      left, removed. */
  function RemoveAll(s: string, pat: string): (r: string)
    requires pat != []
    ensures |r| <= |s|
    decreases |s|
  {
    if |s| < |pat| then s
    else if s[..|pat|] == pat then RemoveAll(s[|pat|..], pat)
    else [s[0]] + RemoveAll(s[1..], pat)
  }

  /** pat occurs in s starting at position k. */
  predicate OccursAt(s: string, pat: string, k: nat)
  {
    k + |pat| <= |s| && s[k..k + |pat|] == pat
  }

  /** A string followed by pat, in which pat occurs only as that suffix
      (no occurrence starts before it), loses exactly that trailing pat. */
  lemma {:induction false} RemoveAllSuffix(s: string, pat: string)
    requires pat != []
    requires forall k: nat | k < |s| :: !OccursAt(s + pat, pat, k)
    ensures RemoveAll(s + pat, pat) == s
    decreases |s|
  {
    var t := s + pat;
    if s == [] {
      assert t[..|pat|] == pat;
      assert t[|pat|..] == [];
    } else {
      assert !OccursAt(t, pat, 0);
      assert t[..|pat|] == t[0..0 + |pat|];
      assert t[1..] == s[1..] + pat;
      forall k: nat | k < |s[1..]|
        ensures !OccursAt(s[1..] + pat, pat, k)
      {
        assert !OccursAt(t, pat, k + 1);
        assert (s[1..] + pat)[k..k + |pat|] == t[k + 1..k + 1 + |pat|];
      }
      RemoveAllSuffix(s[1..], pat);
      assert t == [s[0]] + (s[1..] + pat);
    }
  }

  /** When pat's first character never occurs in s, pat occurs in s + pat
      only as the suffix. */
  lemma OnlySuffixWhenFree(s: string, pat: string)
    requires pat != [] && pat[0] !in s
    ensures forall k: nat | k < |s| :: !OccursAt(s + pat, pat, k)
  {
    forall k: nat | k < |s|
      ensures !OccursAt(s + pat, pat, k)
    {
      if k + |pat| <= |s + pat| {
        assert (s + pat)[k..k + |pat|][0] == s[k];
      }
    }
  }

  /** A string in which pat's first character never occurs is left as it
      is. */
  lemma {:induction false} RemoveAllAbsent(s: string, pat: string)
    requires pat != [] && pat[0] !in s
    ensures RemoveAll(s, pat) == s
    decreases |s|
  {
    if |s| >= |pat| {
      assert s[..|pat|][0] == s[0] != pat[0];
      RemoveAllAbsent(s[1..], pat);
      assert s == [s[0]] + s[1..];
    }
  }

  /** The characters str.strip() removes (ASCII whitespace as Python counts
      it). */
  predicate IsSpace(ch: char)
  {
    ch == ' ' || ch == '\t' || ch == '\n' || ch == '\r' || ch == '\U{B}' || ch == '\U{C}'
    || ch == '\U{1C}' || ch == '\U{1D}' || ch == '\U{1E}' || ch == '\U{1F}'
  }

  /** line.strip() == "" */
  predicate IsBlank(line: string)
  {
    forall i | 0 <= i < |line| :: IsSpace(line[i])
  }

  // ---------------------------------------------------------------------
  // Lines

  /** The characters str.splitlines() breaks at. */
  predicate IsLineBreak(ch: char)
  {
    ch == '\n' || ch == '\r' || ch == '\U{B}' || ch == '\U{C}' || ch == '\U{1C}' || ch == '\U{1D}'
    || ch == '\U{1E}' || ch == '\U{85}' || ch == '\U{2028}' || ch == '\U{2029}'
  }

  /** Every line break replaced by '\n'. */
  function NormalizeBreaks(s: string): (r: string)
    ensures |r| == |s|
  {
    seq(|s|, i requires 0 <= i < |s| => if IsLineBreak(s[i]) then '\n' else s[i])
  }

  /** text.splitlines(), up to empty lines: a "\r\n" pair and a trailing
      break give an extra empty line here that splitlines does not. Every
      caller drops empty lines, so the difference never shows. */
  function Lines(text: string): (lines: seq<string>)
    ensures |lines| >= 1
  {
    Split(NormalizeBreaks(text), '\n')
  }

  predicate NoBreaks(s: string)
  {
    forall i | 0 <= i < |s| :: !IsLineBreak(s[i])
  }

  lemma NormalizeNoBreaks(s: string)
    requires NoBreaks(s)
    ensures NormalizeBreaks(s) == s
  {
  }

  lemma {:induction false} NormalizeJoin(parts: seq<string>)
    requires forall i | 0 <= i < |parts| :: NoBreaks(parts[i])
    ensures NormalizeBreaks(Join(parts, '\n')) == Join(parts, '\n')
  {
    if |parts| == 1 {
      NormalizeNoBreaks(parts[0]);
    } else if |parts| > 1 {
      NormalizeJoin(parts[1..]);
      var t := Join(parts[1..], '\n');
      var j := parts[0] + ['\n'] + t;
      forall i | 0 <= i < |j|
        ensures NormalizeBreaks(j)[i] == j[i]
      {
        if i > |parts[0]| {
          assert j[i] == t[i - |parts[0]| - 1];
          assert NormalizeBreaks(t)[i - |parts[0]| - 1] == t[i - |parts[0]| - 1];
        }
      }
    }
  }

  /** Joining break-free lines with '\n' and splitting into lines again
      gives back the lines. */
  lemma LinesJoin(parts: seq<string>)
    requires |parts| >= 1
    requires forall i | 0 <= i < |parts| :: NoBreaks(parts[i])
    ensures Lines(Join(parts, '\n')) == parts
  {
    NormalizeJoin(parts);
    SplitJoin(parts, '\n');
  }
}
