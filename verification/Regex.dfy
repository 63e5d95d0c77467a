/**
 The matcher of `xv6/grep.c` (Kernighan and Pike, The Practice of Programming, chapter 9) and the
 language of its patterns: literals, `.`, `c*`, a final `$` and a leading `^`.
 */
module Regex {

  // ----- the language of a pattern

  datatype Item = Lit(c: char) | Any | Star(c: char) | End

  function Items(re: string): seq<Item> {
    if re == [] then []
    else if |re| > 1 && re[1] == '*' then [Star(re[0])] + Items(re[2..])
    else if re == "$" then [End]
    else if re[0] == '.' then [Any] + Items(re[1..])
    else [Lit(re[0])] + Items(re[1..])
  }

  /** Character `x` is one that `c` stands for. */
  predicate Class(c: char, x: char) {
    c == '.' || c == x
  }

  predicate InLang(it: Item, p: string) {
    match it
    case Lit(c) => p == [c]
    case Any => |p| == 1
    case Star(c) => forall i | 0 <= i < |p| :: Class(c, p[i])
    case End => p == []
  }

  /** The metacharacters: a `*` after any character, a `.`, and a `$` that ends the pattern. */
  lemma Metacharacters(c: char, x: char, re: string)
    ensures Items([c, '*'] + re) == [Star(c)] + Items(re)
    ensures Items("$") == [End]
    ensures re == [] || re[0] != '*' ==> Items(['.'] + re) == [Any] + Items(re)
    ensures (re == [] || re[0] != '*') && c != '.' && (c == '$' ==> re != []) ==>
      Items([c] + re) == [Lit(c)] + Items(re)
    ensures InLang(Any, [x]) && InLang(Star('.'), [x])
    ensures c != '.' ==> (InLang(Star(c), [x]) <==> c == x)
  {
    assert ([c, '*'] + re)[2..] == re && ([c] + re)[1..] == re && (['.'] + re)[1..] == re;
    assert [x][0] == x;
  }

  function Join(pieces: seq<string>): string {
    if pieces == [] then "" else pieces[0] + Join(pieces[1..])
  }

  ghost predicate Parts(items: seq<Item>, pieces: seq<string>, w: string) {
    && |pieces| == |items| && Join(pieces) == w
    && forall i | 0 <= i < |items| :: InLang(items[i], pieces[i])
  }

  /** `w` is made of one piece for each item. */
  ghost predicate Fits(items: seq<Item>, w: string) {
    exists pieces :: Parts(items, pieces, w)
  }

  predicate Anchored(items: seq<Item>) {
    items != [] && items[|items| - 1] == End
  }

  /** A prefix of `text` of length `n` fits; with `$` it must be all of `text`. */
  ghost predicate FitsTo(items: seq<Item>, text: string, n: nat) {
    n <= |text| && Fits(items, text[..n]) && (Anchored(items) ==> n == |text|)
  }

  ghost predicate FitsHere(items: seq<Item>, text: string) {
    exists n: nat :: FitsTo(items, text, n)
  }

  /** What `match` promises. */
  ghost predicate Found(re: string, text: string) {
    if re != [] && re[0] == '^' then FitsHere(Items(re[1..]), text)
    else exists i: nat :: i <= |text| && FitsHere(Items(re), text[i..])
  }

  // ----- the matcher

  predicate MatchHere(re: string, text: string)
    decreases |re|, |text|, 0
  {
    if re == [] then true
    else if |re| > 1 && re[1] == '*' then MatchStar(re[0], re[2..], text)
    else if re == "$" then text == []
    else text != [] && (re[0] == '.' || re[0] == text[0]) && MatchHere(re[1..], text[1..])
  }

  predicate MatchStar(c: char, re: string, text: string)
    decreases |re|, |text|, 1
  {
    MatchHere(re, text) || (text != [] && (text[0] == c || c == '.') && MatchStar(c, re, text[1..]))
  }

  predicate MatchAnywhere(re: string, text: string)
    decreases |text|
  {
    MatchHere(re, text) || (text != [] && MatchAnywhere(re, text[1..]))
  }

  // ----- the matcher decides the language

  lemma FitsCons(it: Item, rest: seq<Item>, w: string)
    ensures Fits([it] + rest, w) <==> exists k: nat :: k <= |w| && InLang(it, w[..k]) && Fits(rest, w[k..])
  {
    var items := [it] + rest;
    if Fits(items, w) {
      var pieces :| Parts(items, pieces, w);
      var k := |pieces[0]|;
      assert w[..k] == pieces[0] && w[k..] == Join(pieces[1..]);
      assert InLang(items[0], pieces[0]);
      assert Parts(rest, pieces[1..], w[k..]) by {
        forall i | 0 <= i < |rest| ensures InLang(rest[i], pieces[1..][i]) {
          assert rest[i] == items[i + 1];
        }
      }
    }
    if k: nat :| k <= |w| && InLang(it, w[..k]) && Fits(rest, w[k..]) {
      var pieces :| Parts(rest, pieces, w[k..]);
      var all := [w[..k]] + pieces;
      assert all[1..] == pieces && w == w[..k] + w[k..];
      assert Parts(items, all, w);
    }
  }

  lemma HereSplits(it: Item, rest: seq<Item>, text: string)
    requires (it != End || rest != []) && FitsHere([it] + rest, text)
    ensures exists k: nat :: k <= |text| && InLang(it, text[..k]) && FitsHere(rest, text[k..])
  {
    var items := [it] + rest;
    assert Anchored(items) == Anchored(rest);
    var n: nat :| FitsTo(items, text, n);
    FitsCons(it, rest, text[..n]);
    var k: nat :| k <= n && InLang(it, text[..n][..k]) && Fits(rest, text[..n][k..]);
    assert text[..n][..k] == text[..k] && text[..n][k..] == text[k..][..n - k];
    assert FitsTo(rest, text[k..], n - k);
  }

  lemma HereJoins(it: Item, rest: seq<Item>, text: string, k: nat)
    requires (it != End || rest != []) && k <= |text| && InLang(it, text[..k]) && FitsHere(rest, text[k..])
    ensures FitsHere([it] + rest, text)
  {
    assert Anchored([it] + rest) == Anchored(rest);
    var m: nat :| FitsTo(rest, text[k..], m);
    var n := k + m;
    assert text[..n][..k] == text[..k] && text[..n][k..] == text[k..][..m];
    FitsCons(it, rest, text[..n]);
    assert FitsTo([it] + rest, text, n);
  }

  /** Matching item by item: the first item takes some prefix, the others the rest. */
  lemma HereCons(it: Item, rest: seq<Item>, text: string)
    requires it != End || rest != []
    ensures FitsHere([it] + rest, text) <==>
            exists k: nat :: k <= |text| && InLang(it, text[..k]) && FitsHere(rest, text[k..])
  {
    if FitsHere([it] + rest, text) {
      HereSplits(it, rest, text);
    }
    if k: nat :| k <= |text| && InLang(it, text[..k]) && FitsHere(rest, text[k..]) {
      HereJoins(it, rest, text, k);
    }
  }

  lemma HereNothing(text: string)
    ensures FitsHere([], text)
  {
    assert Parts([], [], text[..0]);
    assert FitsTo([], text, 0);
  }

  lemma HereEnd(text: string)
    ensures FitsHere([End], text) <==> text == []
  {
    if text == [] {
      assert Join([""]) == "";
      assert Parts([End], [""], text[..0]);
      assert FitsTo([End], text, 0);
    }
    if FitsHere([End], text) {
      var n: nat :| FitsTo([End], text, n);
      var pieces :| Parts([End], pieces, text[..n]);
      assert InLang([End][0], pieces[0]);
      assert pieces == [""];
      assert Join([""]) == "";
    }
  }

  /** A one-character item. */
  lemma HereChar(it: Item, rest: seq<Item>, text: string)
    requires it.Lit? || it.Any?
    ensures FitsHere([it] + rest, text) <==> text != [] && InLang(it, [text[0]]) && FitsHere(rest, text[1..])
  {
    HereCons(it, rest, text);
    if text != [] {
      assert text[..1] == [text[0]];
    }
  }

  /** `c*` takes nothing, or one character and then goes on. */
  lemma HereStar(c: char, rest: seq<Item>, text: string)
    ensures FitsHere([Star(c)] + rest, text) <==>
            FitsHere(rest, text) || (text != [] && Class(c, text[0]) && FitsHere([Star(c)] + rest, text[1..]))
  {
    HereCons(Star(c), rest, text);
    if FitsHere(rest, text) {
      assert InLang(Star(c), text[..0]) && text[0..] == text;
    }
    if text != [] {
      var t := text[1..];
      HereCons(Star(c), rest, t);
      if Class(c, text[0]) {
        if k: nat :| k <= |t| && InLang(Star(c), t[..k]) && FitsHere(rest, t[k..]) {
          assert text[..k + 1] == [text[0]] + t[..k] && text[k + 1..] == t[k..];
          assert InLang(Star(c), text[..k + 1]);
        }
      }
      if k: nat :| 0 < k <= |text| && InLang(Star(c), text[..k]) && FitsHere(rest, text[k..]) {
        assert text[..k][0] == text[0] && t[..k - 1] == text[..k][1..] && t[k - 1..] == text[k..];
        assert InLang(Star(c), t[..k - 1]);
      }
    }
  }

  lemma {:induction false} MatchHereIsLanguage(re: string, text: string)
    ensures MatchHere(re, text) <==> FitsHere(Items(re), text)
    decreases |re|, |text|, 0
  {
    if re == [] {
      HereNothing(text);
    } else if |re| > 1 && re[1] == '*' {
      MatchStarIsLanguage(re[0], re[2..], text);
    } else if re == "$" {
      HereEnd(text);
    } else {
      HereChar(if re[0] == '.' then Any else Lit(re[0]), Items(re[1..]), text);
      if text != [] {
        MatchHereIsLanguage(re[1..], text[1..]);
      }
    }
  }

  lemma {:induction false} MatchStarIsLanguage(c: char, re: string, text: string)
    ensures MatchStar(c, re, text) <==> FitsHere([Star(c)] + Items(re), text)
    decreases |re|, |text|, 1
  {
    HereStar(c, Items(re), text);
    MatchHereIsLanguage(re, text);
    if text != [] {
      MatchStarIsLanguage(c, re, text[1..]);
    }
  }

  lemma {:induction false} MatchAnywhereIsLanguage(re: string, text: string)
    ensures MatchAnywhere(re, text) <==> exists i: nat :: i <= |text| && FitsHere(Items(re), text[i..])
    decreases |text|
  {
    MatchHereIsLanguage(re, text);
    assert text[0..] == text;
    if text != [] {
      var t := text[1..];
      MatchAnywhereIsLanguage(re, t);
      if i: nat :| i <= |t| && FitsHere(Items(re), t[i..]) {
        assert t[i..] == text[i + 1..];
      }
      if i: nat :| 0 < i <= |text| && FitsHere(Items(re), text[i..]) {
        assert text[i..] == t[i - 1..];
      }
    }
  }

  /** Greediness does not matter: any number of repetitions that lets the rest match will do. */
  lemma StarTakesAnyNumber(c: char, re: string, text: string)
    ensures MatchStar(c, re, text) <==>
            exists k: nat :: k <= |text| && (forall i | 0 <= i < k :: Class(c, text[i])) && MatchHere(re, text[k..])
  {
    MatchStarIsLanguage(c, re, text);
    HereCons(Star(c), Items(re), text);
    forall k: nat | k <= |text|
      ensures InLang(Star(c), text[..k]) <==> forall i | 0 <= i < k :: Class(c, text[i])
      ensures MatchHere(re, text[k..]) <==> FitsHere(Items(re), text[k..])
    {
      MatchHereIsLanguage(re, text[k..]);
      assert forall i | 0 <= i < k :: text[..k][i] == text[i];
    }
  }

  // ----- the code

  /** match. */
  method Match(re: string, text: string) returns (r: bool)
    ensures r <==> Found(re, text)
  {
    if re != [] && re[0] == '^' {
      MatchHereIsLanguage(re[1..], text);
      r := Matchhere(re[1..], text);
      return;
    }
    MatchAnywhereIsLanguage(re, text);
    var t := text;
    while true
      invariant MatchAnywhere(re, t) == MatchAnywhere(re, text)
      decreases |t|
    {
      r := Matchhere(re, t);
      if r {
        return;
      }
      if t == [] {
        break;
      }
      t := t[1..];
    }
    r := false;
  }

  /** matchhere. */
  method Matchhere(re: string, text: string) returns (r: bool)
    ensures r == MatchHere(re, text)
    decreases |re|, |text|, 0
  {
    if re == [] {
      return true;
    }
    if |re| > 1 && re[1] == '*' {
      r := Matchstar(re[0], re[2..], text);
      return;
    }
    if re[0] == '$' && |re| == 1 {
      return text == [];
    }
    if text != [] && (re[0] == '.' || re[0] == text[0]) {
      r := Matchhere(re[1..], text[1..]);
      return;
    }
    r := false;
  }

  /** matchstar. */
  method Matchstar(c: char, re: string, text: string) returns (r: bool)
    ensures r == MatchStar(c, re, text)
    decreases |re|, |text|, 1
  {
    var t := text;
    while true
      invariant |t| <= |text| && MatchStar(c, re, t) == MatchStar(c, re, text)
      decreases |t|
    {
      r := Matchhere(re, t);
      if r {
        return;
      }
      if t == [] || !(t[0] == c || c == '.') {
        break;
      }
      t := t[1..];
    }
    r := false;
  }
}
