/** Rust's `str::split_whitespace`, as front/src-tauri/src/lib.rs uses it to
    turn a session-script command line into a program and its arguments. */
module Whitespace {
  import opened Wrappers

  /** The code points with the Unicode White_Space property. */
  const WhiteSpaceCodePoints: set<int> := {
    0x09, 0x0A, 0x0B, 0x0C, 0x0D, 0x20, 0x85, 0xA0, 0x1680,
    0x2000, 0x2001, 0x2002, 0x2003, 0x2004, 0x2005, 0x2006, 0x2007, 0x2008, 0x2009, 0x200A,
    0x2028, 0x2029, 0x202F, 0x205F, 0x3000}

  /** `char::is_whitespace`, by the ranges the standard library tests. */
  predicate IsWhitespace(c: char)
  {
    var n := c as int;
    || 0x09 <= n <= 0x0D
    || n == 0x20
    || n == 0x85
    || n == 0xA0
    || n == 0x1680
    || 0x2000 <= n <= 0x200A
    || n == 0x2028
    || n == 0x2029
    || n == 0x202F
    || n == 0x205F
    || n == 0x3000
  }

  /** The ranges tested are exactly the White_Space code points. */
  lemma WhiteSpaceProperty(c: char)
    ensures IsWhitespace(c) <==> c as int in WhiteSpaceCodePoints
  {
  }

  ghost predicate AllWhitespace(s: string)
  {
    forall i :: 0 <= i < |s| ==> IsWhitespace(s[i])
  }

  ghost predicate NoWhitespace(s: string)
  {
    forall i :: 0 <= i < |s| ==> !IsWhitespace(s[i])
  }

  /** The characters of `s` that are not whitespace, in order. */
  function NonWhitespace(s: string): (r: string)
    ensures NoWhitespace(r)
    ensures |r| <= |s|
  {
    if s == [] then []
    else if IsWhitespace(s[0]) then NonWhitespace(s[1..])
    else [s[0]] + NonWhitespace(s[1..])
  }

  lemma {:induction false} NonWhitespaceAppend(a: string, b: string)
    ensures NonWhitespace(a + b) == NonWhitespace(a) + NonWhitespace(b)
    decreases |a|
  {
    if a == [] {
      assert a + b == b;
    } else {
      assert (a + b)[1..] == a[1..] + b;
      NonWhitespaceAppend(a[1..], b);
    }
  }

  lemma {:induction false} NonWhitespaceOfWord(w: string)
    requires NoWhitespace(w)
    ensures NonWhitespace(w) == w
    decreases |w|
  {
    if w != [] {
      NonWhitespaceOfWord(w[1..]);
    }
  }

  /** The length of the leading run of non-whitespace characters. */
  function WordLength(s: string): (k: nat)
    ensures k <= |s|
    ensures NoWhitespace(s[..k])
    ensures k < |s| ==> IsWhitespace(s[k])
  {
    if s == [] || IsWhitespace(s[0]) then 0
    else
      var k := WordLength(s[1..]);
      assert s[..k + 1] == [s[0]] + s[1..][..k];
      k + 1
  }

  /** The length of the leading run of whitespace characters. */
  function LeadingWhitespace(s: string): (k: nat)
    ensures k <= |s|
    ensures AllWhitespace(s[..k])
    ensures k < |s| ==> !IsWhitespace(s[k])
  {
    if s == [] || !IsWhitespace(s[0]) then 0
    else
      var k := LeadingWhitespace(s[1..]);
      assert s[..k + 1] == [s[0]] + s[1..][..k];
      k + 1
  }

  /** The first whitespace-separated word of `s` (empty when there is none). */
  function FirstWord(s: string): string
  {
    var start := LeadingWhitespace(s);
    s[start..][..WordLength(s[start..])]
  }

  /** `s.split_whitespace()`: the maximal runs of non-whitespace characters.
      The words are non-empty and whitespace-free, together they are exactly
      the non-whitespace characters of `s` in order, there are none exactly
      when `s` is empty or all whitespace, and the first is the first word. */
  function Tokens(s: string): (r: seq<string>)
    ensures forall i :: 0 <= i < |r| ==> |r[i]| > 0 && NoWhitespace(r[i])
    ensures Flatten(r) == NonWhitespace(s)
    ensures r == [] <==> AllWhitespace(s)
    ensures r != [] ==> r[0] == FirstWord(s)
    decreases |s|
  {
    if s == [] then []
    else if IsWhitespace(s[0]) then
      var r := Tokens(s[1..]);
      assert forall i :: 1 <= i < |s| ==> s[i] == s[1..][i - 1];
      assert r != [] ==> s[LeadingWhitespace(s)..] == s[1..][LeadingWhitespace(s[1..])..];
      r
    else
      var k := WordLength(s);
      var rest := Tokens(s[k..]);
      assert s == s[..k] + s[k..];
      NonWhitespaceAppend(s[..k], s[k..]);
      NonWhitespaceOfWord(s[..k]);
      assert ([s[..k]] + rest)[1..] == rest;
      [s[..k]] + rest
  }

  /** After the first word, the words are those of the text that follows
      it: no word is split or merged across the whitespace between them. */
  lemma {:induction false} TokensRest(s: string)
    requires !AllWhitespace(s)
    ensures var start := LeadingWhitespace(s);
      Tokens(s)[1..] == Tokens(s[start + WordLength(s[start..])..])
    decreases |s|
  {
    if IsWhitespace(s[0]) {
      var t := s[1..];
      SkipWhitespace(s);
      TokensRest(t);
      var start := LeadingWhitespace(t);
      SliceShift(s, start);
      SliceShift(s, start + WordLength(t[start..]));
    } else {
      assert s[0..] == s;
    }
  }

  /** A leading whitespace character contributes nothing to the words. */
  lemma SkipWhitespace(s: string)
    requires s != [] && IsWhitespace(s[0]) && !AllWhitespace(s)
    ensures !AllWhitespace(s[1..])
    ensures Tokens(s) == Tokens(s[1..])
    ensures LeadingWhitespace(s) == 1 + LeadingWhitespace(s[1..])
  {
    var i :| 0 <= i < |s| && !IsWhitespace(s[i]);
    assert s[1..][i - 1] == s[i];
  }

  lemma SliceShift(s: string, j: nat)
    requires j < |s|
    ensures s[1..][j..] == s[1 + j..]
  {
  }

  /** How `start_cv_feed` reads one command line: the first word is the
      program and the remaining words are its arguments; an empty or
      whitespace-only line is skipped. */
  function CommandLine(cmd: string): (r: Option<(string, seq<string>)>)
    ensures r.None? <==> AllWhitespace(cmd)
    ensures r.Some? ==> r.value.0 == FirstWord(cmd) && [r.value.0] + r.value.1 == Tokens(cmd)
  {
    var parts := Tokens(cmd);
    if parts == [] then None else Some((parts[0], parts[1..]))
  }
}
