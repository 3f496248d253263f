module Regex {
  // grep's pattern matcher. A C string is the sequence of its characters before
  // the terminating NUL, so a pointer into it is a suffix. A pattern is a sequence
  // of items, each of which stands for a set of strings; the matcher is compared
  // with the language of their concatenation.

  datatype Item = One(c: char) | Star(c: char)

  predicate Fits(c: char, x: char) {
    c == '.' || c == x
  }

  /** The strings an item stands for. */
  ghost predicate InItem(i: Item, s: string) {
    match i
    case One(c) => |s| == 1 && Fits(c, s[0])
    case Star(c) => forall k :: 0 <= k < |s| ==> Fits(c, s[k])
  }

  /** The language of a sequence of items. */
  ghost predicate In(items: seq<Item>, s: string) {
    if items == [] then s == []
    else exists k :: 0 <= k <= |s| && InItem(items[0], s[..k]) && In(items[1..], s[k..])
  }

  /** The items of a pattern; a final $ is an anchor, not an item. */
  function Items(re: string): seq<Item> {
    if re == [] || re == "$" then []
    else if |re| >= 2 && re[1] == '*' then [Star(re[0])] + Items(re[2..])
    else [One(re[0])] + Items(re[1..])
  }

  function Anchored(re: string): bool {
    if re == [] then false
    else if |re| >= 2 && re[1] == '*' then Anchored(re[2..])
    else if re == "$" then true
    else Anchored(re[1..])
  }

  /** Some prefix of text, all of it under $, is in the pattern's language. */
  ghost predicate MatchesHere(re: string, text: string) {
    exists n :: 0 <= n <= |text| && In(Items(re), text[..n]) && (Anchored(re) ==> n == |text|)
  }

  /** The pattern matches at some start, under ^ at the first. */
  ghost predicate Matches(re: string, text: string) {
    if re != [] && re[0] == '^' then MatchesHere(re[1..], text)
    else exists i :: 0 <= i <= |text| && MatchesHere(re, text[i..])
  }

  // ------------------------------------------------------------ unfolding the language

  lemma InOne(c: char, items: seq<Item>, s: string)
    ensures In([One(c)] + items, s) <==> s != [] && Fits(c, s[0]) && In(items, s[1..])
  {
    var all := [One(c)] + items;
    assert all[1..] == items;
    if In(all, s) {
      var k :| 0 <= k <= |s| && InItem(all[0], s[..k]) && In(all[1..], s[k..]);
      assert k == 1;
    }
    if s != [] && Fits(c, s[0]) && In(items, s[1..]) {
      assert InItem(all[0], s[..1]);
    }
  }

  lemma StarLess(c: char, s: string, k: nat)
    requires 0 < k <= |s| && InItem(Star(c), s[..k])
    ensures Fits(c, s[0]) && InItem(Star(c), s[1..][..k - 1])
  {
    var u, v := s[..k], s[1..][..k - 1];
    assert u[0] == s[0] && forall j :: 0 <= j < |v| ==> v[j] == u[j + 1];
  }

  lemma StarMore(c: char, s: string, k: nat)
    requires k < |s| && Fits(c, s[0]) && InItem(Star(c), s[1..][..k])
    ensures InItem(Star(c), s[..k + 1])
  {
    var u, v := s[..k + 1], s[1..][..k];
    forall j | 0 <= j < |u| ensures Fits(c, u[j]) {
      if j > 0 { assert u[j] == v[j - 1]; }
    }
  }

  /** A star matches nothing, or one more character and a star. */
  lemma InStar(c: char, items: seq<Item>, s: string)
    ensures In([Star(c)] + items, s) <==> In(items, s) || (s != [] && Fits(c, s[0]) && In([Star(c)] + items, s[1..]))
  {
    hide Fits;
    var all := [Star(c)] + items;
    assert all[1..] == items && all[0] == Star(c);
    if In(all, s) {
      var k :| 0 <= k <= |s| && InItem(all[0], s[..k]) && In(all[1..], s[k..]);
      if k == 0 {
        assert s[0..] == s;
      } else {
        StarLess(c, s, k);
        assert s[1..][k - 1..] == s[k..];
      }
    }
    if In(items, s) {
      assert s[..0] == [] && s[0..] == s;
      assert InItem(all[0], s[..0]);
    }
    if s != [] && Fits(c, s[0]) && In(all, s[1..]) {
      var tail := s[1..];
      var k :| 0 <= k <= |tail| && InItem(all[0], tail[..k]) && In(all[1..], tail[k..]);
      assert tail[k..] == s[k + 1..];
      StarMore(c, s, k);
    }
  }

  lemma HereEmpty(re: string, text: string)
    requires re == []
    ensures MatchesHere(re, text)
  {
    assert text[..0] == [];
    assert In(Items(re), text[..0]);
  }

  lemma HereEnd(text: string)
    ensures MatchesHere("$", text) <==> text == []
  {
    if MatchesHere("$", text) {
      var n :| 0 <= n <= |text| && In(Items("$"), text[..n]) && n == |text|;
    }
    if text == [] {
      assert In(Items("$"), text[..0]);
    }
  }

  lemma HereOne(re: string, text: string)
    requires re != [] && !(|re| >= 2 && re[1] == '*') && re != "$"
    ensures MatchesHere(re, text) <==> text != [] && Fits(re[0], text[0]) && MatchesHere(re[1..], text[1..])
  {
    var rest := Items(re[1..]);
    if MatchesHere(re, text) {
      var n :| 0 <= n <= |text| && In(Items(re), text[..n]) && (Anchored(re) ==> n == |text|);
      InOne(re[0], rest, text[..n]);
      assert text[..n][1..] == text[1..][..n - 1];
    }
    if text != [] && Fits(re[0], text[0]) && MatchesHere(re[1..], text[1..]) {
      var n :| 0 <= n <= |text[1..]| && In(rest, text[1..][..n]) && (Anchored(re[1..]) ==> n == |text[1..]|);
      InOne(re[0], rest, text[..n + 1]);
      assert text[..n + 1][1..] == text[1..][..n];
      assert In(Items(re), text[..n + 1]);
    }
  }

  /** c*re here: re here, or c once and c*re after it. */
  lemma HereStar(re: string, text: string)
    requires |re| >= 2 && re[1] == '*'
    ensures MatchesHere(re, text) <==>
      MatchesHere(re[2..], text) || (text != [] && Fits(re[0], text[0]) && MatchesHere(re, text[1..]))
  {
    var c, rest := re[0], Items(re[2..]);
    assert Items(re) == [Star(c)] + rest;
    if MatchesHere(re, text) {
      var n :| 0 <= n <= |text| && In(Items(re), text[..n]) && (Anchored(re) ==> n == |text|);
      InStar(c, rest, text[..n]);
      if !In(rest, text[..n]) {
        assert text[..n][1..] == text[1..][..n - 1];
      }
    }
    if MatchesHere(re[2..], text) {
      var n :| 0 <= n <= |text| && In(rest, text[..n]) && (Anchored(re[2..]) ==> n == |text|);
      InStar(c, rest, text[..n]);
    }
    if text != [] && Fits(c, text[0]) && MatchesHere(re, text[1..]) {
      var n :| 0 <= n <= |text[1..]| && In(Items(re), text[1..][..n]) && (Anchored(re) ==> n == |text[1..]|);
      InStar(c, rest, text[..n + 1]);
      assert text[..n + 1][1..] == text[1..][..n];
      assert In(Items(re), text[..n + 1]);
    }
  }

  // ------------------------------------------------------------------------ grep.c

  /** matchhere */
  method Matchhere(re: string, text: string) returns (r: bool)
    ensures r <==> MatchesHere(re, text)
    decreases |re|, 1
  {
    if re == [] {
      HereEmpty(re, text);
      return true;
    }
    if |re| >= 2 && re[1] == '*' {
      r := Matchstar(re, text);
      return;
    }
    if re[0] == '$' && |re| == 1 {
      assert re == "$";
      HereEnd(text);
      return text == [];
    }
    HereOne(re, text);
    if text != [] && (re[0] == '.' || re[0] == text[0]) {
      r := Matchhere(re[1..], text[1..]);
      return;
    }
    return false;
  }

  /** matchstar(re[0], re + 2, text) */
  method Matchstar(re: string, text: string) returns (r: bool)
    requires |re| >= 2 && re[1] == '*'
    ensures r <==> MatchesHere(re, text)
    decreases |re|, 0
  {
    var i := 0;
    while true
      invariant 0 <= i <= |text|
      invariant MatchesHere(re, text) <==> MatchesHere(re, text[i..])
      decreases |text| - i
    {
      HereStar(re, text[i..]);
      var here := Matchhere(re[2..], text[i..]);
      if here {
        return true;
      }
      if !(i < |text| && (text[i] == re[0] || re[0] == '.')) {
        return false;
      }
      assert text[i..][1..] == text[i + 1..];
      i := i + 1;
    }
  }

  /** match */
  method Match(re: string, text: string) returns (r: bool)
    ensures r <==> Matches(re, text)
  {
    if re != [] && re[0] == '^' {
      r := Matchhere(re[1..], text);
      return;
    }
    var i := 0;
    while true
      invariant 0 <= i <= |text|
      invariant forall j :: 0 <= j < i ==> !MatchesHere(re, text[j..])
      decreases |text| - i
    {
      var here := Matchhere(re, text[i..]);
      if here {
        return true;
      }
      if i == |text| {
        return false;
      }
      i := i + 1;
    }
  }
}
