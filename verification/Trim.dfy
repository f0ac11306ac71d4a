/** strings.TrimSpace over bytes: white space is recognised by its UTF-8 encoding, from either
    end. */
module Trim {
  import opened Bytes

  /** The encodings of the characters unicode.IsSpace accepts, by width. */
  predicate Space1(a: byte) {
    9 <= a <= 13 || a == 32
  }

  predicate Space2(a: byte, b: byte) {
    a == 0xC2 && (b == 0x85 || b == 0xA0)
  }

  predicate Space3(a: byte, b: byte, c: byte) {
    || (a == 0xE1 && b == 0x9A && c == 0x80)
    || (a == 0xE2 && b == 0x80 && (0x80 <= c <= 0x8A || c == 0xA8 || c == 0xA9 || c == 0xAF))
    || (a == 0xE2 && b == 0x81 && c == 0x9F)
    || (a == 0xE3 && b == 0x80 && c == 0x80)
  }

  /** How many bytes of white space `s` starts with, one character at most. */
  function Front(s: bytes): (n: nat)
    ensures n <= |s| && n <= 3
  {
    if |s| >= 1 && Space1(s[0]) then 1
    else if |s| >= 2 && Space2(s[0], s[1]) then 2
    else if |s| >= 3 && Space3(s[0], s[1], s[2]) then 3
    else 0
  }

  /** And ends with. */
  function Back(s: bytes): (n: nat)
    ensures n <= |s| && n <= 3
  {
    var m := |s|;
    if m >= 1 && Space1(s[m - 1]) then 1
    else if m >= 2 && Space2(s[m - 2], s[m - 1]) then 2
    else if m >= 3 && Space3(s[m - 3], s[m - 2], s[m - 1]) then 3
    else 0
  }

  function TrimLeft(s: bytes): (t: bytes)
    ensures |t| <= |s| && Front(t) == 0
    decreases |s|
  {
    if Front(s) == 0 then s else TrimLeft(s[Front(s)..])
  }

  function TrimRight(s: bytes): (t: bytes)
    ensures |t| <= |s| && t == s[..|t|] && Back(t) == 0
    decreases |s|
  {
    if Back(s) == 0 then s else TrimRight(s[..|s| - Back(s)])
  }

  function TrimSpace(s: bytes): bytes {
    TrimRight(TrimLeft(s))
  }

  lemma FrontOfPrefix(s: bytes, n: nat)
    requires n <= |s|
    ensures Front(s[..n]) > 0 ==> Front(s) > 0
    ensures 0 < Front(s) <= n ==> Front(s[..n]) == Front(s)
  {
  }

  lemma BackOfSuffix(s: bytes, n: nat)
    requires n <= |s|
    ensures Back(s[n..]) > 0 ==> Back(s) > 0
    ensures 0 < Back(s) <= |s| - n ==> Back(s[n..]) == Back(s)
  {
  }

  /** The first and the last white space character are the same, or do not overlap. */
  lemma SpacesApart(s: bytes)
    requires Front(s) > 0 && Back(s) > 0
    ensures Front(s) + Back(s) <= |s| || Front(s) == Back(s) == |s|
  {
  }

  /** It does not matter from which end one starts. */
  lemma {:induction false} TrimEitherWay(s: bytes)
    ensures TrimLeft(TrimRight(s)) == TrimRight(TrimLeft(s))
    decreases |s|, 1
  {
    var n, k := Front(s), Back(s);
    if n > 0 && k > 0 {
      BothEnds(s);
    } else if n > 0 {
      NothingBehind(s);
    } else if k > 0 {
      NothingInFront(s);
    }
  }

  /** The middle, from either side. */
  lemma Middle(s: bytes, n: nat, k: nat)
    requires n + k <= |s|
    ensures s[..|s| - k][n..] == s[n..|s| - k] && s[n..][..|s[n..]| - k] == s[n..|s| - k]
  {
  }

  lemma LeftOf(s: bytes, rest: bytes)
    requires Front(s) > 0 && s[Front(s)..] == rest
    ensures TrimLeft(s) == TrimLeft(rest)
  {
  }

  lemma RightOf(s: bytes, rest: bytes)
    requires Back(s) > 0 && s[..|s| - Back(s)] == rest
    ensures TrimRight(s) == TrimRight(rest)
  {
  }

  /** Two characters that do not overlap go in either order. */
  lemma OneEach(s: bytes, left: bytes, right: bytes, mid: bytes)
    requires Front(s) > 0 && Back(s) > 0 && Front(s) + Back(s) <= |s|
    requires left == s[Front(s)..] && right == s[..|s| - Back(s)] && mid == s[Front(s)..|s| - Back(s)]
    ensures TrimLeft(s) == TrimLeft(left) && TrimRight(s) == TrimRight(right)
    ensures TrimLeft(right) == TrimLeft(mid) && TrimRight(left) == TrimRight(mid)
  {
    FrontOfPrefix(s, |s| - Back(s));
    BackOfSuffix(s, Front(s));
    Middle(s, Front(s), Back(s));
    LeftOf(s, left);
    RightOf(s, right);
    LeftOf(right, mid);
    RightOf(left, mid);
  }

  lemma {:induction false} BothEnds(s: bytes)
    requires Front(s) > 0 && Back(s) > 0
    ensures TrimLeft(TrimRight(s)) == TrimRight(TrimLeft(s))
    decreases |s|, 0
  {
    var n, k := Front(s), Back(s);
    SpacesApart(s);
    if n + k <= |s| {
      var (left, right, mid) := (s[n..], s[..|s| - k], s[n..|s| - k]);
      OneEach(s, left, right, mid);
      TrimEitherWay(left);
      TrimEitherWay(right);
      TrimEitherWay(mid);
    } else {
      LeftOf(s, []);
      RightOf(s, []);
    }
  }

  /** Trimming on the left brings out no white space on the right. */
  lemma {:induction false} NothingBehind(s: bytes)
    requires Back(s) == 0
    ensures Back(TrimLeft(s)) == 0 && TrimRight(TrimLeft(s)) == TrimLeft(s)
    decreases |s|
  {
    if Front(s) > 0 {
      BackOfSuffix(s, Front(s));
      NothingBehind(s[Front(s)..]);
    }
  }

  lemma {:induction false} NothingInFront(s: bytes)
    requires Front(s) == 0
    ensures Front(TrimRight(s)) == 0 && TrimLeft(TrimRight(s)) == TrimRight(s)
    decreases |s|
  {
    if Back(s) > 0 {
      FrontOfPrefix(s, |s| - Back(s));
      NothingInFront(s[..|s| - Back(s)]);
    }
  }

  /** A trimmed text has no white space at either end, so trimming twice is trimming once, and
      trimming the right end first changes nothing. */
  lemma TrimIsDone(s: bytes)
    ensures Front(TrimSpace(s)) == 0 && Back(TrimSpace(s)) == 0
    ensures TrimSpace(TrimSpace(s)) == TrimSpace(s) == TrimSpace(TrimRight(s))
  {
    NothingInFront(TrimLeft(s));
    TrimEitherWay(s);
  }

  // ----- what trimming takes off

  /** White space characters and nothing else. */
  predicate White(s: bytes)
    decreases |s|
  {
    s == [] || (Front(s) > 0 && White(s[Front(s)..]))
  }

  lemma OneSpace(s: bytes)
    requires s != []
    ensures Front(s) == |s| <==> Back(s) == |s|
  {
  }

  lemma FrontStays(a: bytes, x: bytes)
    requires Front(a) > 0
    ensures Front(a + x) == Front(a) && (a + x)[Front(a)..] == a[Front(a)..] + x
  {
    assert (a + x)[..|a|] == a;
    FrontOfPrefix(a + x, |a|);
  }

  lemma BackStays(x: bytes, b: bytes)
    requires Back(b) > 0
    ensures Back(x + b) == Back(b) && (x + b)[..|x + b| - Back(b)] == x + b[..|b| - Back(b)]
  {
    var s := x + b;
    assert s[|x|..] == b;
    BackOfSuffix(s, |x|);
  }

  lemma {:induction false} WhiteJoin(a: bytes, b: bytes)
    requires White(a) && White(b)
    ensures White(a + b)
    decreases |a|
  {
    if a == [] {
      assert a + b == b;
    } else {
      FrontStays(a, b);
      WhiteJoin(a[Front(a)..], b);
    }
  }

  lemma SpaceIsWhite(c: bytes)
    requires c != [] && Front(c) == |c|
    ensures White(c)
  {
    assert c[|c|..] == [];
  }

  lemma {:induction false} WhiteBack(b: bytes)
    requires b != [] && White(b)
    ensures Back(b) > 0 && White(b[..|b| - Back(b)])
    decreases |b|
  {
    var n := Front(b);
    var (c, rest) := (b[..n], b[n..]);
    assert b == c + rest;
    FrontOfPrefix(b, n);
    SpaceIsWhite(c);
    if rest == [] {
      OneSpace(b);
      assert b[..0] == [];
    } else {
      WhiteBack(rest);
      BackStays(c, rest);
      WhiteJoin(c, rest[..|rest| - Back(rest)]);
    }
  }

  lemma CutBefore(s: bytes, n: nat, a: bytes, t: bytes)
    requires n <= |s| && s[n..] == a + t
    ensures s == s[..n] + a + t
  {
  }

  lemma CutBehind(s: bytes, n: nat, t: bytes, b: bytes)
    requires n <= |s| && s[..n] == t + b
    ensures s == t + (b + s[n..])
  {
  }

  lemma {:induction false} LeftIsWhite(s: bytes) returns (a: bytes)
    ensures White(a) && s == a + TrimLeft(s)
    decreases |s|
  {
    a := [];
    if Front(s) > 0 {
      var n := Front(s);
      var rest := LeftIsWhite(s[n..]);
      FrontOfPrefix(s, n);
      SpaceIsWhite(s[..n]);
      WhiteJoin(s[..n], rest);
      a := s[..n] + rest;
      LeftOf(s, s[n..]);
      CutBefore(s, n, rest, TrimLeft(s[n..]));
    }
  }

  lemma {:induction false} RightIsWhite(s: bytes) returns (b: bytes)
    ensures White(b) && s == TrimRight(s) + b
    decreases |s|
  {
    b := [];
    if Back(s) > 0 {
      var n := |s| - Back(s);
      var rest := RightIsWhite(s[..n]);
      BackOfSuffix(s, n);
      OneSpace(s[n..]);
      SpaceIsWhite(s[n..]);
      WhiteJoin(rest, s[n..]);
      b := rest + s[n..];
      RightOf(s, s[..n]);
      CutBehind(s, n, TrimRight(s[..n]), rest);
    }
  }

  /** Nothing but white space goes, from either end. */
  lemma TrimParts(s: bytes) returns (a: bytes, b: bytes)
    ensures White(a) && White(b) && s == a + (TrimSpace(s) + b)
  {
    a := LeftIsWhite(s);
    b := RightIsWhite(TrimLeft(s));
  }

  lemma {:induction false} TrimLeftOf(a: bytes, x: bytes)
    requires White(a) && Front(x) == 0
    ensures TrimLeft(a + x) == x
    decreases |a|
  {
    if a == [] {
      assert a + x == x;
    } else {
      FrontStays(a, x);
      LeftOf(a + x, a[Front(a)..] + x);
      TrimLeftOf(a[Front(a)..], x);
    }
  }

  lemma {:induction false} TrimRightOf(x: bytes, b: bytes)
    requires White(b) && Back(x) == 0
    ensures TrimRight(x + b) == x
    decreases |b|
  {
    if b == [] {
      assert x + b == x;
    } else {
      WhiteBack(b);
      BackStays(x, b);
      RightOf(x + b, x + b[..|b| - Back(b)]);
      TrimRightOf(x, b[..|b| - Back(b)]);
    }
  }

  /** `s` is `word` with white space around it. */
  predicate Around(s: bytes, a: bytes, word: bytes, b: bytes) {
    White(a) && White(b) && s == a + (word + b)
  }

  /** A text trims to a word exactly when it is that word between white space. */
  lemma TrimsTo(s: bytes, word: bytes)
    requires word != [] && Visible(word)
    ensures TrimSpace(s) == word <==> exists a, b :: Around(s, a, word, b)
  {
    if TrimSpace(s) == word {
      var a, b := TrimParts(s);
      assert Around(s, a, word, b);
    }
    forall a, b | Around(s, a, word, b)
      ensures TrimSpace(s) == word
    {
      TrimOfParts(a, word, b);
    }
  }

  /** Printing ASCII. */
  predicate Visible(word: bytes) {
    forall i :: 0 <= i < |word| ==> 32 < word[i] < 128
  }

  lemma TrimOfParts(a: bytes, word: bytes, b: bytes)
    requires White(a) && White(b) && word != [] && Visible(word)
    ensures TrimSpace(a + (word + b)) == word
  {
    assert (word + b)[0] == word[0];
    TrimLeftOf(a, word + b);
    TrimRightOf(word, b);
  }
}
