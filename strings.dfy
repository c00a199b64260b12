/** The handful of Python `str` operations the analytics code relies on:
    `in` (substring test), `split(sep)`, `strip()` and `"%d"` formatting. */
module Strings {
  import opened Opt

  /** `sub` occurs in `s` starting at position `i`. */
  predicate MatchAt(s: string, sub: string, i: nat)
  {
    i + |sub| <= |s| && s[i..i + |sub|] == sub
  }

  /** The first position at or after `from` where `sub` occurs in `s`. */
  function IndexFrom(s: string, sub: string, from: nat): (r: Option<nat>)
    decreases |s| - from
    ensures r.Some? ==> from <= r.value && MatchAt(s, sub, r.value)
    ensures r.Some? ==> forall j :: from <= j < r.value ==> !MatchAt(s, sub, j)
    ensures r.None? ==> forall j :: from <= j ==> !MatchAt(s, sub, j)
  {
    if from + |sub| > |s| then None
    else if s[from..from + |sub|] == sub then Some(from)
    else IndexFrom(s, sub, from + 1)
  }

  /** Python's `s.find(sub)`, with `None` for -1. */
  function IndexOf(s: string, sub: string): Option<nat>
  {
    IndexFrom(s, sub, 0)
  }

  /** Python's `sub in s`. */
  predicate Contains(s: string, sub: string)
  {
    IndexOf(s, sub).Some?
  }

  /** `sub` occurs somewhere in `s`: the plain meaning of Python's `in`, independent of the
      left-to-right search that `Contains` performs. */
  ghost predicate Occurs(s: string, sub: string)
  {
    exists i :: MatchAt(s, sub, i)
  }

  lemma ContainsOccurs(s: string, sub: string)
    ensures Contains(s, sub) <==> Occurs(s, sub)
  {
    if Contains(s, sub) {
      assert MatchAt(s, sub, IndexOf(s, sub).value);
    }
  }

  /** A match inside a prefix is a match in the whole string. */
  lemma MatchInPrefix(s: string, sub: string, i: nat, j: nat)
    requires i <= |s| && MatchAt(s[..i], sub, j)
    ensures MatchAt(s, sub, j)
  {
    assert s[..i][j..j + |sub|] == s[j..j + |sub|];
  }

  /** A match inside a suffix is a match in the whole string, shifted. */
  lemma MatchInSuffix(s: string, sub: string, i: nat, j: nat)
    requires i <= |s| && MatchAt(s[i..], sub, j)
    ensures MatchAt(s, sub, i + j)
  {
    assert s[i..][j..j + |sub|] == s[i + j..i + j + |sub|];
  }

  /** Python's `s.split(sep)` for a non-empty separator. */
  function Split(s: string, sep: string): (parts: seq<string>)
    requires |sep| > 0
    decreases |s|
    ensures |parts| >= 1
  {
    match IndexOf(s, sep)
    case None => [s]
    case Some(i) => [s[..i]] + Split(s[i + |sep|..], sep)
  }

  /** Python's `sep.join(parts)`. */
  function Join(parts: seq<string>, sep: string): string
    requires |parts| >= 1
  {
    if |parts| == 1 then parts[0] else parts[0] + sep + Join(parts[1..], sep)
  }

  /** Splitting and joining again gives back the original string. */
  lemma {:induction false} SplitJoin(s: string, sep: string)
    requires |sep| > 0
    decreases |s|
    ensures Join(Split(s, sep), sep) == s
  {
    match IndexOf(s, sep)
    case None =>
    case Some(i) =>
      var rest := s[i + |sep|..];
      var parts := Split(s, sep);
      assert parts == [s[..i]] + Split(rest, sep);
      assert parts[1..] == Split(rest, sep);
      calc {
        Join(parts, sep);
        parts[0] + sep + Join(parts[1..], sep);
        { SplitJoin(rest, sep); }
        s[..i] + sep + rest;
        { assert s[i..i + |sep|] == sep; }
        s;
      }
  }

  /** No piece of a split contains the separator. */
  lemma {:induction false} SplitPiecesFree(s: string, sep: string)
    requires |sep| > 0
    decreases |s|
    ensures forall k :: 0 <= k < |Split(s, sep)| ==> !Contains(Split(s, sep)[k], sep)
  {
    match IndexOf(s, sep)
    case None =>
    case Some(i) =>
      var rest := s[i + |sep|..];
      SplitPiecesFree(rest, sep);
      if Contains(s[..i], sep) {
        var j := IndexOf(s[..i], sep).value;
        MatchInPrefix(s, sep, i, j);
        assert false;
      }
      assert Split(s, sep) == [s[..i]] + Split(rest, sep);
  }

  /** The piece at index 1 of a split exists exactly when the separator occurs, and it is the
      text after the first occurrence up to the next one (or to the end). */
  lemma SplitSecond(s: string, sep: string)
    requires |sep| > 0
    ensures |Split(s, sep)| >= 2 <==> Contains(s, sep)
    ensures Contains(s, sep) ==>
      Split(s, sep)[1] == Split(s[IndexOf(s, sep).value + |sep|..], sep)[0]
  {
  }

  /** The first piece of a split is the text before the first occurrence, or all of `s`. */
  lemma SplitFirst(s: string, sep: string)
    requires |sep| > 0
    ensures IndexOf(s, sep).None? ==> Split(s, sep)[0] == s
    ensures IndexOf(s, sep).Some? ==> Split(s, sep)[0] == s[..IndexOf(s, sep).value]
  {
  }

  /** `p` is the text of `s` from position `at` up to the next occurrence of `sep` (which
      `p` does not reach into), or up to the end of `s` when there is none. */
  predicate PieceAt(s: string, at: nat, sep: string, p: string)
  {
    && at + |p| <= |s| && s[at..at + |p|] == p
    && (forall j :: at <= j < at + |p| ==> !MatchAt(s, sep, j))
    && (at + |p| == |s| || MatchAt(s, sep, at + |p|))
  }

  /** The first piece of a split is the piece at position 0. */
  lemma FirstPiece(t: string, sep: string)
    requires |sep| > 0
    ensures PieceAt(t, 0, sep, Split(t, sep)[0])
  {
    SplitFirst(t, sep);
  }

  /** A piece of `s[at..]` at 0 is a piece of `s` at `at`. */
  lemma PieceShift(s: string, at: nat, sep: string, p: string)
    requires at <= |s| && PieceAt(s[at..], 0, sep, p)
    ensures PieceAt(s, at, sep, p)
  {
    forall j | at <= j <= at + |p|
      ensures MatchAt(s[at..], sep, j - at) <==> MatchAt(s, sep, j)
    {
      if j + |sep| <= |s| {
        assert s[at..][j - at..j - at + |sep|] == s[j..j + |sep|];
      }
    }
    assert s[at..][..|p|] == s[at..at + |p|];
  }

  /** Piece 1 of a split is the piece after the first occurrence of the separator. */
  lemma SecondPiece(s: string, sep: string, i: nat)
    requires |sep| > 0 && MatchAt(s, sep, i) && forall j :: 0 <= j < i ==> !MatchAt(s, sep, j)
    ensures |Split(s, sep)| >= 2 && PieceAt(s, i + |sep|, sep, Split(s, sep)[1])
  {
    assert IndexOf(s, sep) == Some(i);
    SplitSecond(s, sep);
    FirstPiece(s[i + |sep|..], sep);
    PieceShift(s, i + |sep|, sep, Split(s, sep)[1]);
  }

  /** Cutting a piece again at the first `c` gives the piece up to the next `c` of the whole
      string, when the outer separator itself starts with `c`. */
  lemma PieceOfPiece(s: string, at: nat, sep: string, piece: string, c: char, p: string)
    requires |sep| > 0 && sep[0] == c
    requires PieceAt(s, at, sep, piece) && PieceAt(piece, 0, [c], p)
    ensures PieceAt(s, at, [c], p)
  {
    forall j | at <= j < at + |p|
      ensures !MatchAt(s, [c], j)
    {
      assert !MatchAt(piece, [c], j - at);
      assert piece[j - at] == s[at..at + |piece|][j - at] == s[j];
      assert piece[j - at..j - at + 1] == [piece[j - at]] && s[j..j + 1] == [s[j]];
    }
    if at + |p| < |s| {
      if |p| < |piece| {
        assert MatchAt(piece, [c], |p|);
        assert piece[|p|..|p| + 1] == [piece[|p|]];
        assert piece[|p|] == c;
        assert s[at..at + |piece|][|p|] == s[at + |p|];
        assert s[at + |p|..at + |p| + 1] == [s[at + |p|]];
      } else {
        assert MatchAt(s, sep, at + |piece|);
        assert s[at + |piece|..at + |piece| + 1] == s[at + |piece|..at + |piece| + |sep|][..1];
      }
    }
  }

  /** The piece at a position is unique: it is the whole run up to the first separator. */
  lemma PieceUnique(s: string, at: nat, sep: string, p: string, p': string)
    requires PieceAt(s, at, sep, p) && PieceAt(s, at, sep, p')
    ensures p == p'
  {
    assert |p| <= |p'| by {
      if at + |p'| < |s| {
        assert MatchAt(s, sep, at + |p'|);
      }
    }
    assert |p'| <= |p| by {
      if at + |p| < |s| {
        assert MatchAt(s, sep, at + |p|);
      }
    }
  }

  /** Python's `str.isspace()` for a single character. */
  predicate IsSpace(c: char)
  {
    c == ' ' || ('\t' <= c <= '\r') || ('\U{1c}' <= c <= '\U{1f}') || c == '\U{85}' ||
    c == '\U{a0}' || c == '\U{1680}' || ('\U{2000}' <= c <= '\U{200a}') ||
    c == '\U{2028}' || c == '\U{2029}' || c == '\U{202f}' || c == '\U{205f}' || c == '\U{3000}'
  }

  /** Python's `s.lstrip()`. */
  function TrimLeft(s: string): (r: string)
    ensures |r| <= |s| && r == s[|s| - |r|..]
    ensures forall k :: 0 <= k < |s| - |r| ==> IsSpace(s[k])
    ensures r == [] || !IsSpace(r[0])
  {
    if s != [] && IsSpace(s[0]) then TrimLeft(s[1..]) else s
  }

  /** Python's `s.rstrip()`. */
  function TrimRight(s: string): (r: string)
    ensures |r| <= |s| && r == s[..|r|]
    ensures forall k :: |r| <= k < |s| ==> IsSpace(s[k])
    ensures r == [] || !IsSpace(r[|r| - 1])
  {
    if s != [] && IsSpace(s[|s| - 1]) then TrimRight(s[..|s| - 1]) else s
  }

  /** Python's `s.strip()`: the longest infix with no whitespace at either end, obtained by
      removing only whitespace. */
  function Strip(s: string): (r: string)
    ensures |r| <= |s|
    ensures r == [] || (!IsSpace(r[0]) && !IsSpace(r[|r| - 1]))
    ensures r == [] ==> forall k :: 0 <= k < |s| ==> IsSpace(s[k])
  {
    TrimRight(TrimLeft(s))
  }

  /** `strip()` removes only whitespace, and only at the ends: its result is an infix of `s`
      with nothing but whitespace before and after it. */
  lemma StripInfix(s: string)
    ensures exists i, j :: 0 <= i <= j <= |s| && Strip(s) == s[i..j] && AllSpace(s[..i]) && AllSpace(s[j..])
  {
    var l := TrimLeft(s);
    StripParts(s, l, TrimRight(l));
  }

  /** Every character is whitespace. */
  predicate AllSpace(s: string)
  {
    forall k :: 0 <= k < |s| ==> IsSpace(s[k])
  }

  /** What `lstrip()` removes from `s` and what `rstrip()` then removes from the rest `l` are
      whitespace on either side of an infix of `s`. */
  lemma StripParts(s: string, l: string, r: string)
    requires |l| <= |s| && l == s[|s| - |l|..] && forall k :: 0 <= k < |s| - |l| ==> IsSpace(s[k])
    requires |r| <= |l| && r == l[..|r|] && forall k :: |r| <= k < |l| ==> IsSpace(l[k])
    ensures var i, j := |s| - |l|, |s| - |l| + |r|;
      r == s[i..j] && AllSpace(s[..i]) && AllSpace(s[j..])
  {
    var i, j := |s| - |l|, |s| - |l| + |r|;
    assert s[j..] == l[|r|..];
    assert AllSpace(s[..i]) by {
      forall k | 0 <= k < i
        ensures IsSpace(s[..i][k])
      {
        assert s[..i][k] == s[k];
      }
    }
    assert AllSpace(l[|r|..]) by {
      forall k | 0 <= k < |l| - |r|
        ensures IsSpace(l[|r|..][k])
      {
        assert l[|r|..][k] == l[|r| + k];
      }
    }
  }

  /** A string with no whitespace at either end is left alone by `strip()`; in particular
      stripping twice is the same as stripping once. */
  lemma StripFixed(s: string)
    requires s == [] || (!IsSpace(s[0]) && !IsSpace(s[|s| - 1]))
    ensures Strip(s) == s
  {
    assert TrimLeft(s) == s;
  }

  lemma StripIdempotent(s: string)
    ensures Strip(Strip(s)) == Strip(s)
  {
    StripFixed(Strip(s));
  }

  predicate IsDigit(c: char)
  {
    '0' <= c <= '9'
  }

  function DigitChar(d: nat): (c: char)
    requires d < 10
    ensures IsDigit(c) && c as int - '0' as int == d
  {
    ('0' as int + d) as char
  }

  /** Decimal digits of `n`, most significant first, no leading zero. */
  function NatToString(n: nat): (r: string)
    ensures |r| >= 1 && forall k :: 0 <= k < |r| ==> IsDigit(r[k])
    ensures r[0] == '0' ==> n == 0
  {
    if n < 10 then [DigitChar(n)] else NatToString(n / 10) + [DigitChar(n % 10)]
  }

  /** The form `%d` writes an integer in: an optional minus sign, then decimal digits with no
      leading zero, and no minus sign before zero. */
  predicate Canonical(s: string)
  {
    if s != [] && s[0] == '-' then
      |s| >= 2 && s[1] != '0' && forall k :: 1 <= k < |s| ==> IsDigit(s[k])
    else
      |s| >= 1 && (s[0] == '0' ==> |s| == 1) && forall k :: 0 <= k < |s| ==> IsDigit(s[k])
  }

  /** Python's `"%d" % n`. */
  function IntToString(n: int): (r: string)
    ensures |r| >= 1
    ensures r[0] == '-' <==> n < 0
  {
    if n < 0 then "-" + NatToString(-n) else NatToString(n)
  }

  /** `"%d"` writes no leading zero and no `-0`. */
  lemma IntToStringCanonical(n: int)
    ensures Canonical(IntToString(n))
  {
    if n < 0 {
      assert IntToString(n)[1..] == NatToString(-n);
    } else if n == 0 {
      assert IntToString(n) == [DigitChar(0)];
    }
  }

  function DigitValue(c: char): nat
    requires IsDigit(c)
  {
    c as int - '0' as int
  }

  /** The value of a string of decimal digits. */
  function DigitsValue(s: string): nat
    requires forall k :: 0 <= k < |s| ==> IsDigit(s[k])
  {
    if s == [] then 0 else DigitsValue(s[..|s| - 1]) * 10 + DigitValue(s[|s| - 1])
  }

  /** Reads back an optionally signed decimal integer. */
  function ParseInt(s: string): Option<int>
  {
    if s != [] && s[0] == '-' then
      (if |s| >= 2 && forall k :: 1 <= k < |s| ==> IsDigit(s[k]) then var v: int := DigitsValue(s[1..]); Some(-v) else None)
    else if s != [] && forall k :: 0 <= k < |s| ==> IsDigit(s[k]) then Some(DigitsValue(s))
    else None
  }

  lemma {:induction false} NatToStringValue(n: nat)
    ensures DigitsValue(NatToString(n)) == n
  {
    if n >= 10 {
      NatToStringValue(n / 10);
      var r := NatToString(n);
      assert r[..|r| - 1] == NatToString(n / 10);
    }
  }

  /** `"%d"` formatting is read back exactly: it loses no information about the number. */
  lemma IntToStringRoundTrip(n: int)
    ensures ParseInt(IntToString(n)) == Some(n)
  {
    if n < 0 {
      NatToStringValue(-n);
      assert IntToString(n)[1..] == NatToString(-n);
    } else {
      NatToStringValue(n);
    }
  }
}
