/**
 * The parts of Python's string handling that the pipeline relies on:
 * character classes, str.split() / str.split(sep), str.strip(), str.lower(),
 * str.join and the `in` substring test, on sequences of characters.
 */
module Text {
  import opened Wrappers

  /** Python's str.isspace() on one character: the set str.split() and str.strip() cut at. */
  predicate IsSpace(c: char) {
    c == ' ' || ('\t' <= c <= '\r') || ('\U{1c}' <= c <= '\U{1f}')
    || c == '\U{85}' || c == '\U{a0}' || c == '\U{1680}' || ('\U{2000}' <= c <= '\U{200a}')
    || c == '\U{2028}' || c == '\U{2029}' || c == '\U{202f}' || c == '\U{205f}' || c == '\U{3000}'
  }

  /** The regular-expression class [a-zA-Z]. */
  predicate IsLetter(c: char) {
    ('a' <= c <= 'z') || ('A' <= c <= 'Z')
  }

  /** Its complement [^a-zA-Z], as a value that can be passed to TrimEnds. */
  predicate NotLetter(c: char) {
    !IsLetter(c)
  }

  /** The regular-expression class [a-z]. */
  predicate IsLowerLetter(c: char) {
    'a' <= c <= 'z'
  }

  /** str.isdigit() on an ASCII character. */
  predicate IsDigit(c: char) {
    '0' <= c <= '9'
  }

  predicate NoSpace(s: string) {
    forall i :: 0 <= i < |s| ==> !IsSpace(s[i])
  }

  /** str.lower() on one ASCII character. */
  function ToLower(c: char): (d: char)
    ensures IsLetter(c) ==> IsLowerLetter(d)
    ensures !('A' <= c <= 'Z') ==> d == c
    ensures IsSpace(d) <==> IsSpace(c)
  {
    if 'A' <= c <= 'Z' then (c as int + 32) as char else c
  }

  /** str.lower(): every upper-case ASCII letter replaced by its lower-case form. */
  function Lower(s: string): (r: string)
    ensures |r| == |s|
    ensures forall i :: 0 <= i < |s| ==> r[i] == ToLower(s[i])
  {
    seq(|s|, i requires 0 <= i < |s| => ToLower(s[i]))
  }

  /** str.join: the parts with sep between each neighbouring pair. */
  function Join(parts: seq<string>, sep: string): string
  {
    if |parts| == 0 then ""
    else if |parts| == 1 then parts[0]
    else parts[0] + sep + Join(parts[1..], sep)
  }

  /** Length of the run of non-whitespace characters that starts s. */
  function WordEnd(s: string): (n: nat)
    ensures n <= |s|
    ensures forall i :: 0 <= i < n ==> !IsSpace(s[i])
    ensures n == |s| || IsSpace(s[n])
  {
    if s == [] || IsSpace(s[0]) then 0 else 1 + WordEnd(s[1..])
  }

  /** str.split() with no separator: the maximal runs of non-whitespace characters, in order. */
  function Words(s: string): (ws: seq<string>)
    ensures forall w :: w in ws ==> w != [] && NoSpace(w)
    decreases |s|
  {
    if s == [] then []
    else if IsSpace(s[0]) then Words(s[1..])
    else
      var n := WordEnd(s);
      [s[..n]] + Words(s[n..])
  }

  /** str.split(sep) for a one-character separator: the pieces between separators, empty ones included. */
  function Split(s: string, sep: char): (parts: seq<string>)
    ensures |parts| >= 1
  {
    if s == [] then [""]
    else
      var rest := Split(s[1..], sep);
      if s[0] == sep then [""] + rest else [[s[0]] + rest[0]] + rest[1..]
  }

  /** Number of leading characters of s that drop accepts. */
  function LeadingRun(s: string, drop: char -> bool): (n: nat)
    ensures n <= |s|
    ensures forall i :: 0 <= i < n ==> drop(s[i])
    ensures n == |s| || !drop(s[n])
  {
    if s == [] || !drop(s[0]) then 0 else 1 + LeadingRun(s[1..], drop)
  }

  /** Number of trailing characters of s that drop accepts. */
  function TrailingRun(s: string, drop: char -> bool): (n: nat)
    ensures n <= |s|
    ensures forall i :: |s| - n <= i < |s| ==> drop(s[i])
    ensures n == |s| || !drop(s[|s| - 1 - n])
  {
    if s == [] || !drop(s[|s| - 1]) then 0 else 1 + TrailingRun(s[..|s| - 1], drop)
  }

  /**
   * s without its longest prefix and its longest suffix of characters that drop
   * accepts: str.strip() when drop is IsSpace, and the substitution
   * re.sub(r"^[^a-zA-Z]+|[^a-zA-Z]+$", "", s) when drop is NotLetter.
   */
  function TrimEnds(s: string, drop: char -> bool): (r: string)
    ensures |r| <= |s|
    ensures r == [] || (!drop(r[0]) && !drop(r[|r| - 1]))
    ensures r == [] ==> forall i :: 0 <= i < |s| ==> drop(s[i])
    ensures var i := LeadingRun(s, drop);
              i + |r| <= |s| && r == s[i..i + |r|] && forall k :: i + |r| <= k < |s| ==> drop(s[k])
  {
    var i := LeadingRun(s, drop);
    var rest := s[i..];
    var r := rest[..|rest| - TrailingRun(rest, drop)];
    assert r == s[i..i + |r|];
    r
  }

  /** str.strip() with no argument. */
  function Strip(s: string): string {
    TrimEnds(s, IsSpace)
  }

  /** Whether ". " occurs in s starting at index k. */
  predicate DotSpaceAt(s: string, k: int) {
    0 <= k && k + 1 < |s| && s[k] == '.' && s[k + 1] == ' '
  }

  /** str.find(". "): the first index at which ". " occurs, if any. */
  function FindDotSpace(s: string): (r: Option<nat>)
    ensures r.Some? ==> DotSpaceAt(s, r.value) && forall j :: 0 <= j < r.value ==> !DotSpaceAt(s, j)
    ensures r.None? ==> forall j :: !DotSpaceAt(s, j)
  {
    if |s| < 2 then None
    else if s[0] == '.' && s[1] == ' ' then Some(0)
    else
      assert forall j {:trigger DotSpaceAt(s, j)} :: 1 <= j ==> DotSpaceAt(s, j) == DotSpaceAt(s[1..], j - 1);
      match FindDotSpace(s[1..])
      case Some(k) => Some(k + 1)
      case None => None
  }

  /* ---- Lemmas about the helpers ---- */

  /** WordEnd stops at the first whitespace character after a run without any. */
  lemma {:induction false} WordEndAppend(a: string, b: string)
    requires NoSpace(a)
    ensures WordEnd(a + b) == |a| + WordEnd(b)
  {
    if a != [] {
      assert (a + b)[1..] == a[1..] + b;
      WordEndAppend(a[1..], b);
    } else {
      assert a + b == b;
    }
  }

  /** A whitespace-free word followed by a space is split off whole. */
  lemma WordsOfWordThenSpace(w: string, rest: string)
    requires w != [] && NoSpace(w)
    ensures Words(w + " " + rest) == [w] + Words(rest)
  {
    var s := w + (" " + rest);
    assert w + " " + rest == s;
    WordEndAppend(w, " " + rest);
    assert s[..|w|] == w;
    assert s[|w|..] == " " + rest;
    assert (" " + rest)[1..] == rest;
  }

  /** A string of whitespace only has no words. */
  lemma {:induction false} WordsOfBlank(s: string)
    requires forall i :: 0 <= i < |s| ==> IsSpace(s[i])
    ensures Words(s) == []
  {
    if s != [] {
      WordsOfBlank(s[1..]);
    }
  }

  /** Joining non-empty, whitespace-free words with single spaces and splitting again gives the words back. */
  lemma {:induction false} WordsOfJoin(ws: seq<string>)
    requires forall w :: w in ws ==> w != [] && NoSpace(w)
    ensures Words(Join(ws, " ")) == ws
  {
    if |ws| == 1 {
      WordEndAppend(ws[0], "");
      assert ws[0] + "" == ws[0];
      assert ws[0][|ws[0]|..] == [];
    } else if |ws| > 1 {
      assert ws[0] in ws;
      assert forall w :: w in ws[1..] ==> w in ws;
      WordsOfJoin(ws[1..]);
      WordsOfWordThenSpace(ws[0], Join(ws[1..], " "));
      assert ws == [ws[0]] + ws[1..];
    }
  }

  /** Splitting on a separator and joining with it again gives the string back. */
  lemma {:induction false} JoinSplit(s: string, sep: char)
    ensures Join(Split(s, sep), [sep]) == s
  {
    if s != [] {
      var rest := Split(s[1..], sep);
      JoinSplit(s[1..], sep);
      if s[0] == sep {
        assert ([""] + rest)[1..] == rest;
      } else {
        var parts := [[s[0]] + rest[0]] + rest[1..];
        if |rest| > 1 {
          assert parts[1..] == rest[1..];
        }
      }
    }
  }

  /** No piece of a split holds the separator. */
  lemma {:induction false} SplitPiecesLackSeparator(s: string, sep: char)
    ensures forall p :: p in Split(s, sep) ==> sep !in p
  {
    if s != [] {
      SplitPiecesLackSeparator(s[1..], sep);
      var rest := Split(s[1..], sep);
      if s[0] != sep {
        assert rest[0] in rest;
        assert forall p :: p in rest[1..] ==> p in rest;
      }
    }
  }

  /** A string that starts and ends with a character drop refuses is left as it is. */
  lemma TrimEndsUnchanged(s: string, drop: char -> bool)
    requires s == [] || (!drop(s[0]) && !drop(s[|s| - 1]))
    ensures TrimEnds(s, drop) == s
  {
    if s != [] {
      assert LeadingRun(s, drop) == 0;
      assert s[0..] == s;
      assert TrailingRun(s, drop) == 0;
    }
  }

  /** A string that starts with a character drop refuses keeps something after trimming. */
  lemma TrimEndsNonEmpty(s: string, drop: char -> bool)
    requires s != [] && !drop(s[0])
    ensures TrimEnds(s, drop) != []
  {
  }

  /** Where part i begins in Join(parts, sep). */
  function PartStart(parts: seq<string>, sep: string, i: nat): nat
    requires i <= |parts|
  {
    if i == 0 then 0 else |parts[0]| + |sep| + PartStart(parts[1..], sep, i - 1)
  }

  /** A slice of the second of two concatenated strings, shifted by the length of the first. */
  lemma SliceAfter(u: string, v: string, k: nat, m: nat)
    requires k + m <= |v|
    ensures (u + v)[|u| + k..|u| + k + m] == v[k..k + m]
  {
    forall j | |u| + k <= j < |u| + k + m
      ensures (u + v)[j] == v[j - |u|]
    {
    }
  }

  /** Each part stands, unchanged, at its start position in the join. */
  lemma {:induction false} JoinPart(parts: seq<string>, sep: string, i: nat)
    requires i < |parts|
    ensures var s := Join(parts, sep); var k := PartStart(parts, sep, i);
      k + |parts[i]| <= |s| && s[k..k + |parts[i]|] == parts[i]
  {
    var s := Join(parts, sep);
    if |parts| > 1 {
      var rest := Join(parts[1..], sep);
      assert s == parts[0] + sep + rest;
      if i == 0 {
        assert s[..|parts[0]|] == parts[0];
      } else {
        JoinPart(parts[1..], sep, i - 1);
        var k' := PartStart(parts[1..], sep, i - 1);
        SliceAfter(parts[0] + sep, rest, k', |parts[i]|);
      }
    }
  }

  /** Consecutive parts are exactly one separator apart. */
  lemma {:induction false} JoinGap(parts: seq<string>, sep: string, i: nat)
    requires i + 1 < |parts|
    ensures PartStart(parts, sep, i + 1) == PartStart(parts, sep, i) + |parts[i]| + |sep|
    ensures var s := Join(parts, sep); var k := PartStart(parts, sep, i) + |parts[i]|;
      k + |sep| <= |s| && s[k..k + |sep|] == sep
  {
    var s := Join(parts, sep);
    var rest := Join(parts[1..], sep);
    assert s == parts[0] + sep + rest;
    if i == 0 {
      assert s[|parts[0]|..|parts[0]| + |sep|] == sep;
    } else {
      JoinGap(parts[1..], sep, i - 1);
      var k' := PartStart(parts[1..], sep, i - 1) + |parts[i]|;
      SliceAfter(parts[0] + sep, rest, k', |sep|);
    }
  }

  /** In a concatenation of three strings, the first opens it and the last closes it. */
  lemma ThreeParts(a: string, b: string, c: string)
    ensures var s := a + b + c;
      && |s| == |a| + |b| + |c|
      && s[0..|a|] == a
      && s[|s| - |c|..] == c
  {
    var s := a + b + c;
    assert s == a + (b + c);
  }

  /** A slice within the first of three concatenated strings is that slice of the first. */
  lemma ThreePartsPrefix(a: string, b: string, c: string, i: nat, j: nat)
    requires i <= j <= |a|
    ensures (a + b + c)[i..j] == a[i..j]
  {
    assert a + b + c == a + (b + c);
  }

  /** In a concatenation of six strings, each stands at its offset. */
  lemma SixParts(a: string, b: string, c: string, d: string, e: string, f: string)
    ensures var s := a + b + c + d + e + f;
      var i := |a| + |b|;
      var j := i + |c| + |d|;
      && |s| == j + |e| + |f|
      && s[..|a|] == a
      && s[|a|..i] == b
      && s[i..i + |c|] == c
      && s[i + |c|..j] == d
      && s[j..j + |e|] == e
      && s[j + |e|..] == f
  {
    var s := a + b + c + d + e + f;
    var i := |a| + |b|;
    var j := i + |c| + |d|;
    assert s[..|a|] == a by { assert s == a + (b + c + d + e + f); }
    assert s[|a|..i] == b by { assert s == (a + b) + (c + d + e + f); }
    assert s[i..i + |c|] == c by { assert s == (a + b) + c + (d + e + f); }
    assert s[i + |c|..j] == d by { assert s == (a + b + c) + d + (e + f); }
    assert s[j..j + |e|] == e by { assert s == (a + b + c + d) + e + f; }
    assert s[j + |e|..] == f;
  }

  /** Placed between a head and a tail, each part of a join stands at its start position shifted by the head. */
  lemma JoinPartBetween(head: string, parts: seq<string>, sep: string, tail: string, i: nat)
    requires i < |parts|
    ensures var s := head + Join(parts, sep) + tail; var k := |head| + PartStart(parts, sep, i);
      k + |parts[i]| <= |s| && s[k..k + |parts[i]|] == parts[i]
  {
    var j := PartStart(parts, sep, i);
    var info := Join(parts, sep);
    JoinPart(parts, sep, i);
    var s := head + info + tail;
    assert s[|head| + j..|head| + j + |parts[i]|] == info[j..j + |parts[i]|];
  }

  /** Placed between a head and a tail, consecutive parts of a join are one separator apart. */
  lemma JoinGapBetween(head: string, parts: seq<string>, sep: string, tail: string, i: nat)
    requires i + 1 < |parts|
    ensures PartStart(parts, sep, i + 1) == PartStart(parts, sep, i) + |parts[i]| + |sep|
    ensures var s := head + Join(parts, sep) + tail; var k := |head| + PartStart(parts, sep, i) + |parts[i]|;
      k + |sep| <= |s| && s[k..k + |sep|] == sep
  {
    var j := PartStart(parts, sep, i) + |parts[i]|;
    var info := Join(parts, sep);
    JoinGap(parts, sep, i);
    var s := head + info + tail;
    assert s[|head| + j..|head| + j + |sep|] == info[j..j + |sep|];
  }

  /** Lowering distributes over concatenation. */
  lemma LowerAppend(a: string, b: string)
    ensures Lower(a + b) == Lower(a) + Lower(b)
  {
  }
}
