/**
 The regular expression matcher of attic/grep.c, against the language its patterns
 denote.  A C string is the sequence of characters before its terminator.
 */
module Grep {

  /** One character (or any), or any number of them. */
  datatype Piece = One(c: char) | Many(c: char)

  /** What a pattern without a leading ^ is made of. */
  function Pieces(re: string): seq<Piece> {
    if re == [] then []
    else if |re| >= 2 && re[1] == '*' then [Many(re[0])] + Pieces(re[2..])
    else if re == "$" then []
    else [One(re[0])] + Pieces(re[1..])
  }

  /** The pattern ends in a $ that stands for the end of the text. */
  predicate AtEnd(re: string) {
    if re == [] then false
    else if |re| >= 2 && re[1] == '*' then AtEnd(re[2..])
    else re == "$" || AtEnd(re[1..])
  }

  predicate Fits(c: char, x: char) {
    c == '.' || c == x
  }

  predicate AllFit(c: char, s: string) {
    forall i :: 0 <= i < |s| ==> Fits(c, s[i])
  }

  predicate InPiece(p: Piece, s: string) {
    match p
    case One(c) => |s| == 1 && Fits(c, s[0])
    case Many(c) => AllFit(c, s)
  }

  function Concat(parts: seq<string>): string {
    if parts == [] then [] else parts[0] + Concat(parts[1..])
  }

  ghost predicate Splits(ps: seq<Piece>, s: string, parts: seq<string>) {
    |parts| == |ps| && Concat(parts) == s && forall i :: 0 <= i < |ps| ==> InPiece(ps[i], parts[i])
  }

  /** `s` is in the language of the pieces: it can be cut up into one part for each. */
  ghost predicate Denotes(ps: seq<Piece>, s: string) {
    exists parts :: Splits(ps, s, parts)
  }

  /** Some prefix of `text` is in the pattern's language, all of it if the pattern ends in $. */
  ghost predicate Here(re: string, text: string) {
    exists j :: 0 <= j <= |text| && HereUpTo(re, text, j)
  }

  ghost predicate HereUpTo(re: string, text: string, j: nat)
    requires j <= |text|
  {
    Denotes(Pieces(re), text[..j]) && (AtEnd(re) ==> j == |text|)
  }

  predicate Anchored(re: string) {
    |re| > 0 && re[0] == '^'
  }

  function Body(re: string): string {
    if Anchored(re) then re[1..] else re
  }

  /** What a pattern means: some substring is in its language, starting at the beginning of the
      text if the pattern starts with ^, and ending at its end if the pattern ends in $. */
  ghost predicate Matches(re: string, text: string) {
    exists i, j :: 0 <= i <= j <= |text| && MatchesAt(re, text, i, j)
  }

  ghost predicate MatchesAt(re: string, text: string, i: nat, j: nat)
    requires i <= j <= |text|
  {
    && Denotes(Pieces(Body(re)), text[i..j])
    && (Anchored(re) ==> i == 0) && (AtEnd(Body(re)) ==> j == |text|)
  }

  // ----------------------------------------------------------------------
  // Cutting off the first piece
  // ----------------------------------------------------------------------

  lemma DenotesFirst(p: Piece, ps: seq<Piece>, s: string) returns (k: nat)
    requires Denotes([p] + ps, s)
    ensures k <= |s| && InPiece(p, s[..k]) && Denotes(ps, s[k..])
  {
    var parts :| Splits([p] + ps, s, parts);
    k := |parts[0]|;
    assert s[..k] == parts[0] && s[k..] == Concat(parts[1..]);
    assert InPiece(([p] + ps)[0], parts[0]);
    forall i | 0 <= i < |ps| ensures InPiece(ps[i], parts[1..][i]) {
      assert InPiece(([p] + ps)[i + 1], parts[i + 1]);
    }
    assert Splits(ps, s[k..], parts[1..]);
  }

  lemma DenotesMore(p: Piece, ps: seq<Piece>, s: string, k: nat)
    requires k <= |s| && InPiece(p, s[..k]) && Denotes(ps, s[k..])
    ensures Denotes([p] + ps, s)
  {
    var parts :| Splits(ps, s[k..], parts);
    var all := [s[..k]] + parts;
    assert all[1..] == parts && s[..k] + s[k..] == s;
    forall i | 0 <= i < |[p] + ps| ensures InPiece(([p] + ps)[i], all[i]) {
      if i > 0 {
        assert InPiece(ps[i - 1], parts[i - 1]);
      }
    }
    assert Splits([p] + ps, s, all);
  }

  lemma DenotesNothing(s: string)
    ensures Denotes([], s) <==> s == []
  {
    if s == [] {
      assert Splits([], s, []);
    }
  }

  /** A piece and then the rest of the pattern. */
  lemma HereFirst(re: string, p: Piece, rest: string, text: string)
    requires Pieces(re) == [p] + Pieces(rest) && AtEnd(re) == AtEnd(rest)
    ensures Here(re, text) <==> exists k :: 0 <= k <= |text| && InPiece(p, text[..k]) && Here(rest, text[k..])
  {
    if Here(re, text) {
      var j :| 0 <= j <= |text| && HereUpTo(re, text, j);
      var k := DenotesFirst(p, Pieces(rest), text[..j]);
      assert text[..j][..k] == text[..k] && text[..j][k..] == text[k..][..j - k];
      assert HereUpTo(rest, text[k..], j - k);
    }
    if k :| 0 <= k <= |text| && InPiece(p, text[..k]) && Here(rest, text[k..]) {
      var j :| 0 <= j <= |text[k..]| && HereUpTo(rest, text[k..], j);
      assert text[..k + j][..k] == text[..k] && text[..k + j][k..] == text[k..][..j];
      DenotesMore(p, Pieces(rest), text[..k + j], k);
      assert HereUpTo(re, text, k + j);
    }
  }

  lemma HereNothing(text: string)
    ensures Here([], text)
  {
    DenotesNothing(text[..0]);
    assert HereUpTo([], text, 0);
  }

  lemma HereDollar(text: string)
    ensures Here("$", text) <==> text == []
  {
    DenotesNothing(text);
    assert text[..|text|] == text;
    if text == [] {
      assert HereUpTo("$", text, 0);
    }
  }

  lemma HereOne(re: string, text: string)
    requires re != [] && !(|re| >= 2 && re[1] == '*') && re != "$"
    ensures Here(re, text) <==> text != [] && Fits(re[0], text[0]) && Here(re[1..], text[1..])
  {
    HereFirst(re, One(re[0]), re[1..], text);
    if text != [] && Fits(re[0], text[0]) && Here(re[1..], text[1..]) {
      assert InPiece(One(re[0]), text[..1]);
    }
  }

  lemma HereMany(re: string, text: string)
    requires |re| >= 2 && re[1] == '*'
    ensures Here(re, text) <==> exists k :: 0 <= k <= |text| && AllFit(re[0], text[..k]) && Here(re[2..], text[k..])
  {
    HereFirst(re, Many(re[0]), re[2..], text);
    if k :| 0 <= k <= |text| && AllFit(re[0], text[..k]) && Here(re[2..], text[k..]) {
      assert InPiece(Many(re[0]), text[..k]);
    }
    if k :| 0 <= k <= |text| && InPiece(Many(re[0]), text[..k]) && Here(re[2..], text[k..]) {
      assert AllFit(re[0], text[..k]);
    }
  }

  // ----------------------------------------------------------------------
  // The matcher
  // ----------------------------------------------------------------------

  method MatchHere(re: string, text: string) returns (b: bool)
    ensures b <==> Here(re, text)
    decreases |re|, 1
  {
    if re == [] {
      HereNothing(text);
      return true;
    }
    if |re| >= 2 && re[1] == '*' {
      HereMany(re, text);
      b := MatchStar(re[0], re[2..], text);
      return;
    }
    if re == "$" {
      HereDollar(text);
      return text == [];
    }
    HereOne(re, text);
    if text != [] && (re[0] == '.' || re[0] == text[0]) {
      b := MatchHere(re[1..], text[1..]);
      return;
    }
    return false;
  }

  method MatchStar(c: char, re: string, text: string) returns (b: bool)
    ensures b <==> exists k :: 0 <= k <= |text| && AllFit(c, text[..k]) && Here(re, text[k..])
    decreases |re|, 2
  {
    var k := 0;
    while true
      invariant k <= |text| && AllFit(c, text[..k])
      invariant forall i :: 0 <= i < k ==> !Here(re, text[i..])
      decreases |text| - k
    {
      b := MatchHere(re, text[k..]);
      if b {
        return;
      }
      if k < |text| && (text[k] == c || c == '.') {
        k := k + 1;
      } else {
        forall i | k < i <= |text| ensures !AllFit(c, text[..i]) {
          assert !Fits(c, text[..i][k]);
        }
        return false;
      }
    }
  }

  method Match(re: string, text: string) returns (b: bool)
    ensures b <==> Matches(re, text)
  {
    if |re| > 0 && re[0] == '^' {
      b := MatchHere(re[1..], text);
      AnchoredIsHere(re, text);
      return;
    }
    var i := 0;
    while true
      invariant i <= |text| && forall x :: 0 <= x < i ==> !Here(re, text[x..])
      decreases |text| - i
    {
      b := MatchHere(re, text[i..]);
      if b {
        SomewhereIsHere(re, text);
        return;
      }
      if i == |text| {
        SomewhereIsHere(re, text);
        return false;
      }
      i := i + 1;
    }
  }

  lemma AnchoredIsHere(re: string, text: string)
    requires Anchored(re)
    ensures Matches(re, text) <==> Here(re[1..], text)
  {
    if Matches(re, text) {
      var i, j :| 0 <= i <= j <= |text| && MatchesAt(re, text, i, j);
      assert text[i..j] == text[..j];
      assert HereUpTo(re[1..], text, j);
    }
    if Here(re[1..], text) {
      var j :| 0 <= j <= |text| && HereUpTo(re[1..], text, j);
      assert text[0..j] == text[..j];
      assert MatchesAt(re, text, 0, j);
    }
  }

  lemma SomewhereIsHere(re: string, text: string)
    requires !Anchored(re)
    ensures Matches(re, text) <==> exists i :: 0 <= i <= |text| && Here(re, text[i..])
  {
    if Matches(re, text) {
      var i, j :| 0 <= i <= j <= |text| && MatchesAt(re, text, i, j);
      assert text[i..][..j - i] == text[i..j];
      assert HereUpTo(re, text[i..], j - i);
    }
    if i :| 0 <= i <= |text| && Here(re, text[i..]) {
      var j :| 0 <= j <= |text[i..]| && HereUpTo(re, text[i..], j);
      assert text[i..][..j] == text[i..i + j];
      assert MatchesAt(re, text, i, i + j);
    }
  }
}
