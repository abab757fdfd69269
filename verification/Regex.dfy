/**
  The matcher of grep.c against a meaning of patterns as sets of strings.

  Strings are given without their terminating NUL.
 */
module Regex {
  /** What a pattern is made of: a character, any character, or a run of either. */
  datatype Item = One(c: char) | Many(c: char)

  /** A pattern: items, and whether they must reach the end of the text. */
  datatype Pattern = Pattern(items: seq<Item>, toEnd: bool)

  /** The character class of c: '.' stands for every character. */
  predicate Fits(c: char, x: char) {
    c == '.' || c == x
  }

  /** Reading the notation: a character followed by '*' is a run, a final '$' is the end of the text. */
  function Parse(re: string): Pattern {
    if re == [] then Pattern([], false)
    else if |re| >= 2 && re[1] == '*' then var p := Parse(re[2..]); p.(items := [Many(re[0])] + p.items)
    else if re == "$" then Pattern([], true)
    else var p := Parse(re[1..]); p.(items := [One(re[0])] + p.items)
  }

  ghost predicate AllFit(c: char, s: string) {
    forall i :: 0 <= i < |s| ==> Fits(c, s[i])
  }

  /** s is a string of the language of items: the concatenation of one string per item. */
  ghost predicate Denotes(items: seq<Item>, s: string)
    decreases |items|
  {
    if items == [] then s == []
    else
      exists k :: 0 <= k <= |s| && DenotesOne(items[0], s[..k]) && Denotes(items[1..], s[k..])
  }

  ghost predicate DenotesOne(item: Item, s: string) {
    match item
    case One(c) => |s| == 1 && Fits(c, s[0])
    case Many(c) => AllFit(c, s)
  }

  /** The pattern matches the text from its beginning. */
  ghost predicate MatchesAt(re: string, text: string) {
    exists n :: MatchesFirst(re, text, n)
  }

  /** The pattern matches the first n characters of the text. */
  ghost predicate MatchesFirst(re: string, text: string, n: int) {
    0 <= n <= |text| && Denotes(Parse(re).items, text[..n]) && (Parse(re).toEnd ==> n == |text|)
  }

  /** The meaning of match: a leading '^' ties the pattern to the beginning; otherwise it may start anywhere. */
  ghost predicate Found(re: string, text: string) {
    if re != [] && re[0] == '^' then MatchesAt(re[1..], text)
    else exists p :: 0 <= p <= |text| && MatchesAt(re, text[p..])
  }

  // ---------------------------------------------------------------- one character at a time

  lemma HereEmpty(text: string)
    ensures MatchesAt([], text)
  {
    assert text[..0] == [];
    assert MatchesFirst([], text, 0);
  }

  lemma HereEnd(text: string)
    ensures MatchesAt("$", text) <==> text == []
  {
    if text == [] { assert MatchesFirst("$", text, 0); }
  }

  /** A single character first. */
  lemma HereOne(re: string, text: string)
    requires re != [] && !(|re| >= 2 && re[1] == '*') && re != "$"
    ensures MatchesAt(re, text) <==> text != [] && Fits(re[0], text[0]) && MatchesAt(re[1..], text[1..])
  {
    var rest := Parse(re[1..]).items;
    assert Parse(re).items[0] == One(re[0]) && Parse(re).items[1..] == rest;
    if MatchesAt(re, text) {
      var n :| MatchesFirst(re, text, n);
      var k :| 0 <= k <= n && DenotesOne(One(re[0]), text[..n][..k]) && Denotes(rest, text[..n][k..]);
      assert k == 1 && text[..n][..1] == text[..1];
      assert text[1..][..n - 1] == text[..n][1..] == text[..n][k..];
      assert MatchesFirst(re[1..], text[1..], n - 1);
    }
    if text != [] && Fits(re[0], text[0]) && MatchesAt(re[1..], text[1..]) {
      var m :| MatchesFirst(re[1..], text[1..], m);
      var s := text[..m + 1];
      assert s[..1] == [text[0]] && s[1..] == text[1..][..m];
      assert DenotesOne(One(re[0]), s[..1]) && Denotes(rest, s[1..]);
      assert MatchesFirst(re, text, m + 1);
    }
  }

  /** A run first: it may take any number of fitting characters. */
  ghost predicate StarAt(c: char, re: string, text: string, k: int) {
    0 <= k <= |text| && AllFit(c, text[..k]) && MatchesAt(re, text[k..])
  }

  lemma HereMany(re: string, text: string)
    requires |re| >= 2 && re[1] == '*'
    ensures MatchesAt(re, text) <==> exists k :: StarAt(re[0], re[2..], text, k)
  {
    var rest := Parse(re[2..]).items;
    assert Parse(re).items[0] == Many(re[0]) && Parse(re).items[1..] == rest;
    if MatchesAt(re, text) {
      var n :| MatchesFirst(re, text, n);
      var k :| 0 <= k <= n && DenotesOne(Many(re[0]), text[..n][..k]) && Denotes(rest, text[..n][k..]);
      assert text[..n][..k] == text[..k] && text[..n][k..] == text[k..][..n - k];
      assert MatchesFirst(re[2..], text[k..], n - k);
      assert StarAt(re[0], re[2..], text, k);
    }
    if exists k :: StarAt(re[0], re[2..], text, k) {
      var k :| StarAt(re[0], re[2..], text, k);
      var m :| MatchesFirst(re[2..], text[k..], m);
      var s := text[..k + m];
      assert s[..k] == text[..k] && s[k..] == text[k..][..m];
      assert DenotesOne(Many(re[0]), s[..k]) && Denotes(rest, s[k..]);
      assert MatchesFirst(re, text, k + m);
    }
  }

  // ---------------------------------------------------------------- the code

  /** matchhere */
  method MatchHere(re: string, text: string) returns (b: bool)
    ensures b <==> MatchesAt(re, text)
    decreases |re|, 0
  {
    if |re| == 0 {
      HereEmpty(text);
      return true;
    }
    if |re| >= 2 && re[1] == '*' {
      HereMany(re, text);
      b := MatchStar(re[0], re[2..], text);
      return;
    }
    if re[0] == '$' && |re| == 1 {
      HereEnd(text);
      assert re == "$";
      return |text| == 0;
    }
    HereOne(re, text);
    if |text| != 0 && (re[0] == '.' || re[0] == text[0]) {
      b := MatchHere(re[1..], text[1..]);
      return;
    }
    return false;
  }

  /** matchstar: its loop tries every length of the run, shortest first. */
  method MatchStar(c: char, re: string, text: string) returns (b: bool)
    ensures b <==> exists k :: StarAt(c, re, text, k)
    decreases |re|, 1
  {
    var t := 0;
    while true
      invariant 0 <= t <= |text| && AllFit(c, text[..t])
      invariant forall k :: 0 <= k < t ==> !StarAt(c, re, text, k)
      decreases |text| - t
    {
      var here := MatchHere(re, text[t..]);
      if here {
        assert StarAt(c, re, text, t);
        return true;
      }
      if !(t < |text| && (text[t] == c || c == '.')) {
        NoLonger(c, re, text, t);
        return false;
      }
      t := t + 1;
    }
  }

  lemma NoLonger(c: char, re: string, text: string, t: int)
    requires 0 <= t <= |text| && !(t < |text| && Fits(c, text[t])) && !MatchesAt(re, text[t..])
    requires forall k :: 0 <= k < t ==> !StarAt(c, re, text, k)
    ensures !exists k :: StarAt(c, re, text, k)
  {
    forall k ensures !StarAt(c, re, text, k) {
      if t < k <= |text| { assert text[..k][t] == text[t]; }
    }
  }

  /** match: 1 exactly when the pattern is found, for every pattern and text. */
  method Match(re: string, text: string) returns (b: bool)
    ensures b <==> Found(re, text)
  {
    if |re| > 0 && re[0] == '^' {
      b := MatchHere(re[1..], text);
      return;
    }
    var t := 0;
    while true
      invariant 0 <= t <= |text|
      invariant forall p :: 0 <= p < t ==> !MatchesAt(re, text[p..])
      decreases |text| - t
    {
      var here := MatchHere(re, text[t..]);
      if here { return true; }
      if t == |text| { return false; }
      t := t + 1;
    }
  }
}
