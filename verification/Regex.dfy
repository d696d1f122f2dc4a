/** The pattern matcher of user/grep.c. */
module Regex {

  // ---------------------------------------------------------------- the language of a pattern

  datatype Item = One(c: char) | Star(c: char) | End

  /** A character followed by '*' is starred, whatever it is; only a '$' that ends the
      pattern anchors; everything else stands for itself, or for any character if '.'. */
  function Items(re: string): (r: seq<Item>) {
    if re == "" then []
    else if |re| >= 2 && re[1] == '*' then [Star(re[0])] + Items(re[2..])
    else if re == "$" then [End]
    else [One(re[0])] + Items(re[1..])
  }

  predicate Fits(c: char, x: char) {
    c == '.' || c == x
  }

  predicate AllFit(c: char, s: string) {
    forall i :: 0 <= i < |s| ==> Fits(c, s[i])
  }

  /** s is made of one part for each item, in order; atEnd tells whether s ends the text. */
  ghost predicate InLanguage(items: seq<Item>, s: string, atEnd: bool) {
    if items == [] then s == ""
    else
      match items[0]
      case One(c) => s != "" && Fits(c, s[0]) && InLanguage(items[1..], s[1..], atEnd)
      case Star(c) => exists k :: 0 <= k <= |s| && AllFit(c, s[..k]) && InLanguage(items[1..], s[k..], atEnd)
      case End => atEnd && InLanguage(items[1..], s, atEnd)
  }

  ghost predicate PrefixMatches(items: seq<Item>, text: string, n: nat) {
    n <= |text| && InLanguage(items, text[..n], n == |text|)
  }

  /** Some prefix of the text is in the language. */
  ghost predicate AcceptsHere(items: seq<Item>, text: string) {
    exists n: nat :: PrefixMatches(items, text, n)
  }

  /** What match is to decide: a leading '^' ties the pattern to the start of the text;
      otherwise it may begin anywhere, also at the very end. */
  ghost predicate Accepts(re: string, text: string) {
    if re != "" && re[0] == '^' then AcceptsHere(Items(re[1..]), text)
    else exists i: nat :: i <= |text| && AcceptsHere(Items(re), text[i..])
  }

  // ---------------------------------------------------------------- one item at a time

  lemma HereNothing(text: string)
    ensures AcceptsHere([], text)
  {
    assert PrefixMatches([], text, 0);
  }

  lemma HereEnd(text: string)
    ensures AcceptsHere([End], text) <==> text == ""
  {
    if text == "" {
      assert PrefixMatches([End], text, 0);
    }
    forall n: nat | PrefixMatches([End], text, n)
      ensures text == ""
    {
      assert InLanguage([End][1..], text[..n], n == |text|);
    }
  }

  lemma HereOne(c: char, rest: seq<Item>, text: string)
    ensures AcceptsHere([One(c)] + rest, text) <==> text != "" && Fits(c, text[0]) && AcceptsHere(rest, text[1..])
  {
    var items := [One(c)] + rest;
    assert items[1..] == rest;
    forall n: nat | PrefixMatches(items, text, n)
      ensures text != "" && Fits(c, text[0]) && AcceptsHere(rest, text[1..])
    {
      assert text[..n][1..] == text[1..][..n - 1];
      assert PrefixMatches(rest, text[1..], n - 1);
    }
    if text != "" && Fits(c, text[0]) && AcceptsHere(rest, text[1..]) {
      var n: nat :| PrefixMatches(rest, text[1..], n);
      assert text[..n + 1][1..] == text[1..][..n];
      assert PrefixMatches(items, text, n + 1);
    }
  }

  /** After i characters that the star may take, the rest of the pattern fits. */
  ghost predicate StarTakes(c: char, rest: seq<Item>, text: string, i: nat) {
    i <= |text| && AllFit(c, text[..i]) && AcceptsHere(rest, text[i..])
  }

  lemma HereStar(c: char, rest: seq<Item>, text: string)
    ensures AcceptsHere([Star(c)] + rest, text) <==> exists i: nat :: StarTakes(c, rest, text, i)
  {
    var items := [Star(c)] + rest;
    assert items[1..] == rest;
    forall n: nat | PrefixMatches(items, text, n)
      ensures exists i: nat :: StarTakes(c, rest, text, i)
    {
      var k :| 0 <= k <= n && AllFit(c, text[..n][..k]) && InLanguage(rest, text[..n][k..], n == |text|);
      assert text[..n][..k] == text[..k] && text[..n][k..] == text[k..][..n - k];
      assert PrefixMatches(rest, text[k..], n - k);
      assert StarTakes(c, rest, text, k);
    }
    forall i: nat | StarTakes(c, rest, text, i)
      ensures AcceptsHere(items, text)
    {
      var n: nat :| PrefixMatches(rest, text[i..], n);
      assert text[..i + n][..i] == text[..i] && text[..i + n][i..] == text[i..][..n];
      assert PrefixMatches(items, text, i + n);
    }
  }

  // ---------------------------------------------------------------- the matcher

  method MatchHere(re: string, text: string) returns (r: bool)
    ensures r <==> AcceptsHere(Items(re), text)
    decreases |re|, 0
  {
    if re == "" {
      HereNothing(text);
      return true;
    }
    if |re| >= 2 && re[1] == '*' {
      r := MatchStar(re[0], re[2..], text);
      return;
    }
    if re == "$" {
      HereEnd(text);
      return text == "";
    }
    HereOne(re[0], Items(re[1..]), text);
    if text != "" && (re[0] == '.' || re[0] == text[0]) {
      r := MatchHere(re[1..], text[1..]);
      return;
    }
    r := false;
  }

  method MatchStar(c: char, re: string, text: string) returns (r: bool)
    ensures r <==> AcceptsHere([Star(c)] + Items(re), text)
    decreases |re|, 1
  {
    HereStar(c, Items(re), text);
    var i := 0;
    while true
      invariant 0 <= i <= |text| && AllFit(c, text[..i])
      invariant forall j: nat :: j < i ==> !StarTakes(c, Items(re), text, j)
      decreases |text| - i
    {
      r := MatchHere(re, text[i..]);
      if r {
        assert StarTakes(c, Items(re), text, i);
        return;
      }
      if i < |text| && (text[i] == c || c == '.') {
        i := i + 1;
      } else {
        break;
      }
    }
    forall j: nat | j > i && j <= |text|
      ensures !AllFit(c, text[..j])
    {
      assert text[..j][i] == text[i];
    }
    r := false;
  }

  method Match(re: string, text: string) returns (r: bool)
    ensures r <==> Accepts(re, text)
  {
    if re != "" && re[0] == '^' {
      r := MatchHere(re[1..], text);
      return;
    }
    var i := 0;
    while i <= |text|
      invariant 0 <= i <= |text| + 1
      invariant forall j: nat :: j < i ==> !AcceptsHere(Items(re), text[j..])
    {
      r := MatchHere(re, text[i..]);
      if r {
        return;
      }
      i := i + 1;
    }
    r := false;
  }
}
