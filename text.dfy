/**
 * The Python string built-ins that the grouping engine relies on:
 * str.lower(), str.split(), slicing s[lo:hi], str(int) and sep.join(parts).
 */
module Text {

  /** Python's str.isspace() on the ASCII and Latin-1 whitespace characters. */
  predicate IsSpace(c: char) {
    (9 <= c as int <= 13) || (28 <= c as int <= 32) || c as int == 0x85 || c as int == 0xA0
  }

  predicate IsUpper(c: char) {
    'A' <= c <= 'Z'
  }

  function LowerChar(c: char): char {
    if IsUpper(c) then (c as int + 32) as char else c
  }

  /** str.lower() on ASCII letters; every other character is kept. */
  function Lower(s: string): (r: string)
    ensures |r| == |s|
    ensures forall i :: 0 <= i < |r| ==> !IsUpper(r[i])
    ensures forall i :: 0 <= i < |r| ==> (IsSpace(r[i]) <==> IsSpace(s[i]))
    ensures forall i :: 0 <= i < |r| && !IsUpper(s[i]) ==> r[i] == s[i]
  {
    seq(|s|, i requires 0 <= i < |s| => LowerChar(s[i]))
  }

  /** Lower-casing twice is lower-casing once: case-only differences vanish for good. */
  lemma LowerIdempotent(s: string)
    ensures Lower(Lower(s)) == Lower(s)
  {
  }

  /**
   * Python's s[lo:hi]: negative bounds count from the end, bounds past
   * either end are clamped, and an empty range gives "".
   */
  function PySlice(s: string, lo: int, hi: int): (r: string)
    ensures |r| <= |s|
    ensures 0 <= lo <= hi <= |s| ==> r == s[lo..hi]
  {
    var a := Clamp(lo, |s|);
    var b := Clamp(hi, |s|);
    if a < b then s[a..b] else []
  }

  function Clamp(i: int, n: nat): (c: nat)
    ensures c <= n
    ensures 0 <= i <= n ==> c == i
  {
    if i < 0 then (if i + n < 0 then 0 else i + n)
    else if i > n then n
    else i
  }

  // ---------------------------------------------------------------------------
  // str.split() with no separator

  predicate IsWord(w: string) {
    |w| > 0 && forall i :: 0 <= i < |w| ==> !IsSpace(w[i])
  }

  /** The length of the run of non-space characters that starts s. */
  function LeadingWordLength(s: string): (n: nat)
    ensures n <= |s|
    ensures forall i :: 0 <= i < n ==> !IsSpace(s[i])
    ensures n < |s| ==> IsSpace(s[n])
  {
    if s == [] || IsSpace(s[0]) then 0 else 1 + LeadingWordLength(s[1..])
  }

  /**
   * str.split(): the maximal runs of non-space characters, in order; leading,
   * trailing and repeated whitespace produce no empty words.
   */
  function Words(s: string): (ws: seq<string>)
    ensures forall i :: 0 <= i < |ws| ==> IsWord(ws[i])
    ensures |ws| <= |s|
    decreases |s|
  {
    if s == [] then []
    else if IsSpace(s[0]) then Words(s[1..])
    else
      var n := LeadingWordLength(s);
      [s[..n]] + Words(s[n..])
  }

  /** A value splits into no words exactly when it is empty or all whitespace. */
  lemma {:induction false} WordsEmptyIffBlank(s: string)
    ensures Words(s) == [] <==> forall i :: 0 <= i < |s| ==> IsSpace(s[i])
    decreases |s|
  {
    if s != [] && IsSpace(s[0]) {
      WordsEmptyIffBlank(s[1..]);
      assert forall i :: 1 <= i < |s| ==> s[i] == s[1..][i - 1];
    }
  }

  /** sep.join(parts). */
  function JoinWith(sep: string, parts: seq<string>): (r: string)
    ensures |parts| == 1 ==> r == parts[0]
  {
    if parts == [] then []
    else if |parts| == 1 then parts[0]
    else parts[0] + sep + JoinWith(sep, parts[1..])
  }

  /** sep.join([a] + rest) puts a, then sep, then the join of the rest. */
  lemma JoinCons(sep: string, a: string, rest: seq<string>)
    requires rest != []
    ensures JoinWith(sep, [a] + rest) == a + sep + JoinWith(sep, rest)
  {
    assert ([a] + rest)[1..] == rest;
  }

  /** A five-part join, with every part but the last followed by the separator. */
  lemma JoinFive(sep: string, a: string, b: string, c: string, d: string, e: string)
    ensures JoinWith(sep, [a, b, c, d, e]) == a + sep + (b + sep + (c + sep + (d + sep + e)))
  {
    assert [a, b, c, d, e] == [a] + [b, c, d, e];
    JoinCons(sep, a, [b, c, d, e]);
    assert [b, c, d, e] == [b] + [c, d, e];
    JoinCons(sep, b, [c, d, e]);
    assert [c, d, e] == [c] + [d, e];
    JoinCons(sep, c, [d, e]);
    assert [d, e] == [d] + [e];
    JoinCons(sep, d, [e]);
  }

  lemma PrefixCancel(p: string, x: string, y: string)
    ensures p + x == p + y <==> x == y
  {
    if p + x == p + y {
      assert x == (p + x)[|p|..];
      assert y == (p + y)[|p|..];
    }
  }

  lemma AppendAssoc(x: string, y: string, z: string)
    ensures x + (y + z) == (x + y) + z
  {
  }

  /** Two underscore-free heads joined to tails by '_' can be told apart at the first '_'. */
  lemma SplitAtUnderscore(a: string, b: string, a2: string, b2: string)
    requires '_' !in a && '_' !in a2
    requires a + "_" + b == a2 + "_" + b2
    ensures a == a2 && b == b2
  {
    var s, s2 := a + "_" + b, a2 + "_" + b2;
    assert s[|a|] == '_' && s2[|a2|] == '_';
    assert forall k :: 0 <= k < |a| ==> s[k] == a[k];
    assert forall k :: 0 <= k < |a2| ==> s2[k] == a2[k];
    assert |a| == |a2|;
    assert s[..|a|] == a && s2[..|a2|] == a2;
    assert s[|a| + 1..] == b && s2[|a2| + 1..] == b2;
  }

  lemma LeadingWordOfJoin(w: string, t: string)
    requires IsWord(w)
    requires t == [] || IsSpace(t[0])
    ensures LeadingWordLength(w + t) == |w|
  {
    assert forall i :: 0 <= i < |w| ==> (w + t)[i] == w[i];
    assert t != [] ==> (w + t)[|w|] == t[0];
  }

  /** A word followed by nothing or by whitespace splits off as the first word. */
  lemma WordsOfWordThen(w: string, t: string)
    requires IsWord(w)
    requires t == [] || IsSpace(t[0])
    ensures Words(w + t) == [w] + Words(t)
  {
    LeadingWordOfJoin(w, t);
    assert (w + t)[..|w|] == w && (w + t)[|w|..] == t;
  }

  lemma WordsOfSpaceThen(t: string)
    ensures Words(" " + t) == Words(t)
  {
    assert (" " + t)[1..] == t;
  }

  /** Round trip: splitting words joined by single spaces gives the words back. */
  lemma {:induction false} SplitJoin(ws: seq<string>)
    requires forall i :: 0 <= i < |ws| ==> IsWord(ws[i])
    ensures Words(JoinWith(" ", ws)) == ws
  {
    if ws == [] {
    } else if |ws| == 1 {
      WordsOfWordThen(ws[0], []);
      assert ws[0] + [] == ws[0];
    } else {
      var rest := JoinWith(" ", ws[1..]);
      assert JoinWith(" ", ws) == ws[0] + (" " + rest);
      WordsOfWordThen(ws[0], " " + rest);
      WordsOfSpaceThen(rest);
      SplitJoin(ws[1..]);
      assert [ws[0]] + ws[1..] == ws;
    }
  }

  // ---------------------------------------------------------------------------
  // str(int)

  function DigitChar(d: nat): (c: char)
    requires d < 10
    ensures IsDigit(c)
  {
    ('0' as int + d) as char
  }

  predicate IsDigit(c: char) {
    '0' <= c <= '9'
  }

  function DigitValue(c: char): (d: nat)
    requires IsDigit(c)
    ensures d < 10
  {
    c as int - '0' as int
  }

  /** Decimal digits of n, most significant first, without leading zeros. */
  function NatToString(n: nat): (s: string)
    ensures |s| > 0
    ensures forall i :: 0 <= i < |s| ==> IsDigit(s[i])
    ensures n >= 10 ==> s[0] != '0'
  {
    if n < 10 then [DigitChar(n)] else NatToString(n / 10) + [DigitChar(n % 10)]
  }

  /** Python's str(i) for an int: an optional '-' followed by the digits. */
  function IntToString(i: int): (s: string)
    ensures |s| > 0 && IsDigit(s[|s| - 1])
    ensures '_' !in s
  {
    if i < 0 then "-" + NatToString(-i) else NatToString(i)
  }

  function ParseNat(s: string): nat
    requires forall i :: 0 <= i < |s| ==> IsDigit(s[i])
  {
    if s == [] then 0 else 10 * ParseNat(s[..|s| - 1]) + DigitValue(s[|s| - 1])
  }

  function ParseInt(s: string): int
    requires |s| > 0
    requires forall i :: 0 <= i < |s| ==> IsDigit(s[i]) || (i == 0 && s[i] == '-')
  {
    if s[0] == '-' then 0 - ParseNat(s[1..]) as int else ParseNat(s)
  }

  lemma {:induction false} NatToStringRoundTrip(n: nat)
    ensures ParseNat(NatToString(n)) == n
  {
    if n >= 10 {
      var s := NatToString(n);
      assert s[..|s| - 1] == NatToString(n / 10);
      NatToStringRoundTrip(n / 10);
    }
  }

  /** str(i) can be read back, so it never maps two numbers to one string. */
  lemma IntToStringRoundTrip(i: int)
    ensures ParseInt(IntToString(i)) == i
  {
    if i < 0 {
      assert IntToString(i)[1..] == NatToString(-i);
      NatToStringRoundTrip(-i);
    } else {
      NatToStringRoundTrip(i);
    }
  }

  lemma IntToStringInjective(a: int, b: int)
    ensures IntToString(a) == IntToString(b) <==> a == b
  {
    if IntToString(a) == IntToString(b) {
      IntToStringRoundTrip(a);
      IntToStringRoundTrip(b);
    }
  }
}
