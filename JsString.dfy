/**
 * The JavaScript string built-ins the application relies on: stripping the
 * characters of a class from both ends (what `trim()` does for whitespace and
 * what the `cleanWord` regex does for non-word characters) and `split(' ')`.
 * Characters are Dafny chars (code points); see README for UTF-16.
 */
module JsString {

  /** WhiteSpace and LineTerminator code points of ECMAScript, the set `trim()` removes. */
  predicate IsJsWhitespace(c: char) {
    c == '\t' || c == '\n' || c == '\U{000B}' || c == '\U{000C}' || c == '\r' || c == ' '
    || c == '\U{00A0}' || c == '\U{1680}' || ('\U{2000}' <= c <= '\U{200A}')
    || c == '\U{2028}' || c == '\U{2029}' || c == '\U{202F}' || c == '\U{205F}'
    || c == '\U{3000}' || c == '\U{FEFF}'
  }

  /** Length of the longest prefix of s made only of characters that satisfy drop. */
  function LeadingRun(s: string, drop: char -> bool): (n: nat)
    ensures n <= |s|
    ensures forall k :: 0 <= k < n ==> drop(s[k])
    ensures n < |s| ==> !drop(s[n])
    decreases |s|
  {
    if |s| > 0 && drop(s[0]) then 1 + LeadingRun(s[1..], drop) else 0
  }

  /** Length of the longest suffix of s made only of characters that satisfy drop. */
  function TrailingRun(s: string, drop: char -> bool): (n: nat)
    ensures n <= |s|
    ensures forall k :: |s| - n <= k < |s| ==> drop(s[k])
    ensures n < |s| ==> !drop(s[|s| - 1 - n])
    decreases |s|
  {
    if |s| > 0 && drop(s[|s| - 1]) then 1 + TrailingRun(s[..|s| - 1], drop) else 0
  }

  /** s without its maximal leading run and then its maximal trailing run of drop characters. */
  function Strip(s: string, drop: char -> bool): (r: string)
    ensures |r| <= |s|
    ensures r != [] ==> !drop(r[0]) && !drop(r[|r| - 1])
    ensures r == [] <==> forall k :: 0 <= k < |s| ==> drop(s[k])
  {
    var rest := s[LeadingRun(s, drop)..];
    rest[..|rest| - TrailingRun(rest, drop)]
  }

  /**
   * s[i..j] is the core of s: every character before i and from j on
   * satisfies drop, and the core neither starts nor ends with one.
   */
  ghost predicate IsCore(s: string, drop: char -> bool, i: int, j: int) {
    0 <= i <= j <= |s|
    && (forall k :: 0 <= k < i ==> drop(s[k]))
    && (forall k :: j <= k < |s| ==> drop(s[k]))
    && (i < j ==> !drop(s[i]) && !drop(s[j - 1]))
  }

  /** Strip returns a contiguous slice of its input, and that slice is the core. */
  lemma StripIsCore(s: string, drop: char -> bool)
    ensures var i := LeadingRun(s, drop);
      var r := Strip(s, drop);
      IsCore(s, drop, i, i + |r|) && r == s[i..i + |r|]
  {
    var i := LeadingRun(s, drop);
    var rest := s[i..];
    var t := TrailingRun(rest, drop);
    assert Strip(s, drop) == s[i..i + |rest| - t];
    forall k | i + |rest| - t <= k < |s|
      ensures drop(s[k])
    {
      assert s[k] == rest[k - i];
    }
  }

  /** The core is unique: any i, j that delimit a core give exactly what Strip returns. */
  lemma CoreIsStrip(s: string, drop: char -> bool, i: int, j: int)
    requires IsCore(s, drop, i, j)
    ensures Strip(s, drop) == s[i..j]
  {
    StripIsCore(s, drop);
    var r := Strip(s, drop);
    if i < j {
      assert !drop(s[i]) && !drop(s[j - 1]);
      assert LeadingRun(s, drop) == i;
      assert r != [];
      assert s[i + |r| - 1] == r[|r| - 1];
      assert i + |r| == j;
    }
  }

  /** Stripping twice removes nothing more than stripping once. */
  lemma StripIdempotent(s: string, drop: char -> bool)
    ensures Strip(Strip(s, drop), drop) == Strip(s, drop)
  {
    var r := Strip(s, drop);
    assert IsCore(r, drop, 0, |r|);
    CoreIsStrip(r, drop, 0, |r|);
  }

  /** `s.trim()`: s without leading and trailing JavaScript whitespace. */
  function Trim(s: string): (r: string)
    ensures |r| <= |s|
    ensures r != [] ==> !IsJsWhitespace(r[0]) && !IsJsWhitespace(r[|r| - 1])
    ensures r == [] <==> forall k :: 0 <= k < |s| ==> IsJsWhitespace(s[k])
  {
    Strip(s, IsJsWhitespace)
  }

  /** Trimming an already trimmed string changes nothing. */
  lemma TrimIdempotent(s: string)
    ensures Trim(Trim(s)) == Trim(s)
  {
    StripIdempotent(s, IsJsWhitespace);
  }

  /**
   * `s.split(' ')`: the pieces between consecutive single spaces, in order.
   * Adjacent spaces give empty pieces, and "" splits into [""].
   */
  function SplitOnSpace(s: string): (parts: seq<string>)
    ensures |parts| == multiset(s)[' '] + 1
    ensures forall p :: p in parts ==> ' ' !in p
  {
    if s == [] then [[]]
    else
      var rest := SplitOnSpace(s[1..]);
      assert s == [s[0]] + s[1..];
      if s[0] == ' ' then [[]] + rest
      else [[s[0]] + rest[0]] + rest[1..]
  }

  /** The summed length of the pieces. */
  function TotalLength(parts: seq<string>): nat {
    if parts == [] then 0 else |parts[0]| + TotalLength(parts[1..])
  }

  /**
   * The pieces written back with one space between consecutive ones:
   * `parts.join(' ')`, as long as the pieces plus one space per gap.
   */
  function JoinWithSpace(parts: seq<string>): (s: string)
    ensures |parts| > 0 ==> |s| == TotalLength(parts) + |parts| - 1
  {
    if |parts| == 0 then []
    else if |parts| == 1 then parts[0]
    else parts[0] + [' '] + JoinWithSpace(parts[1..])
  }

  /** Joining two or more pieces: the first, a space, then the rest joined. */
  lemma JoinWithSpaceCons(parts: seq<string>)
    requires |parts| >= 2
    ensures JoinWithSpace(parts) == parts[0] + [' '] + JoinWithSpace(parts[1..])
  {
  }

  lemma {:induction false} JoinWithSpacePrepend(c: char, parts: seq<string>)
    requires |parts| > 0
    ensures JoinWithSpace([[c] + parts[0]] + parts[1..]) == [c] + JoinWithSpace(parts)
  {
    var parts' := [[c] + parts[0]] + parts[1..];
    assert parts'[1..] == parts[1..];
  }

  /** Joining the pieces of a split gives back the original string exactly. */
  lemma {:induction false} JoinSplit(s: string)
    ensures JoinWithSpace(SplitOnSpace(s)) == s
  {
    if s != [] {
      var rest := SplitOnSpace(s[1..]);
      assert JoinWithSpace(rest) == s[1..] by {
        JoinSplit(s[1..]);
      }
      assert s == [s[0]] + s[1..];
      if s[0] == ' ' {
        assert SplitOnSpace(s) == [[]] + rest;
        assert ([[]] + rest)[1..] == rest;
        JoinWithSpaceCons([[]] + rest);
      } else {
        assert SplitOnSpace(s) == [[s[0]] + rest[0]] + rest[1..];
        JoinWithSpacePrepend(s[0], rest);
      }
    }
  }

  lemma {:induction false} SplitSpaceFree(s: string)
    requires ' ' !in s
    ensures SplitOnSpace(s) == [s]
  {
    if s != [] {
      SplitSpaceFree(s[1..]);
      assert [s[0]] + s[1..] == s;
    }
  }

  lemma {:induction false} SplitAfterWord(w: string, rest: string)
    requires ' ' !in w
    ensures SplitOnSpace(w + [' '] + rest) == [w] + SplitOnSpace(rest)
  {
    if w == [] {
      assert [' '] + rest == [' '] + rest;
      assert (w + [' '] + rest)[1..] == rest;
    } else {
      var s := w + [' '] + rest;
      assert s[1..] == w[1..] + [' '] + rest;
      SplitAfterWord(w[1..], rest);
      assert s[0] == w[0] && s[0] != ' ';
      assert [w[0]] + w[1..] == w;
    }
  }

  /** Splitting space-free pieces joined with spaces gives back the same pieces. */
  lemma {:induction false} SplitJoin(parts: seq<string>)
    requires |parts| > 0
    requires forall p :: p in parts ==> ' ' !in p
    ensures SplitOnSpace(JoinWithSpace(parts)) == parts
  {
    if |parts| == 1 {
      SplitSpaceFree(parts[0]);
    } else {
      assert parts[0] in parts;
      assert forall p :: p in parts[1..] ==> p in parts;
      SplitJoin(parts[1..]);
      SplitAfterWord(parts[0], JoinWithSpace(parts[1..]));
      assert [parts[0]] + parts[1..] == parts;
    }
  }
}
