/** Sanitising a name that has been sanitised. The sanitiser trims white space, then dots, then
    guards, then cuts, and each step can bring out something an earlier one would have removed; so
    a second pass can change the name. Here is exactly when it does. */
module Resanitised {
  import opened Bytes
  import opened SafeName
  import opened Utf8

  /** The characters of the sanitised name. */
  ghost function Fitting(name: bytes): seq<rune> {
    var gs := Guarded(Cleaned(name));
    gs[..FitCount(gs, MAX_NAME)]
  }

  predicate Trimmable(r: rune) {
    Space(r) || IsDot(r)
  }

  /** There is white space or a dot at an end. */
  predicate Edged(rs: seq<rune>) {
    rs != [] && (Trimmable(rs[0]) || Trimmable(rs[|rs| - 1]))
  }

  function Trimmed(rs: seq<rune>): seq<rune> {
    Trim(IsDot, Trim(Space, rs))
  }

  // ----- trimming

  lemma {:induction false} TrimLeftShorter(p: rune -> bool, rs: seq<rune>)
    ensures var t := TrimLeft(p, rs);
            && |t| <= |rs| && t == rs[|rs| - |t|..]
            && (if rs != [] && p(rs[0]) then |t| < |rs| else t == rs)
  {
    if rs != [] && p(rs[0]) {
      TrimLeftShorter(p, rs[1..]);
    }
  }

  lemma {:induction false} TrimRightShorter(p: rune -> bool, rs: seq<rune>)
    ensures var t := TrimRight(p, rs);
            && |t| <= |rs| && t == rs[..|t|]
            && (if rs != [] && p(rs[|rs| - 1]) then |t| < |rs| else t == rs)
  {
    if rs != [] && p(rs[|rs| - 1]) {
      TrimRightShorter(p, rs[..|rs| - 1]);
    }
  }

  lemma TrimShorter(p: rune -> bool, rs: seq<rune>)
    ensures var t := Trim(p, rs);
            && |t| <= |rs|
            && (if rs != [] && (p(rs[0]) || p(rs[|rs| - 1])) then |t| < |rs| else t == rs)
            && (rs != [] && !p(rs[0]) ==> t <= rs)
  {
    TrimLeftShorter(p, rs);
    TrimRightShorter(p, TrimLeft(p, rs));
  }

  /** Trimming takes something off exactly when there is something at an end, and nothing off a
      front that has nothing. */
  lemma TrimmedShorter(rs: seq<rune>)
    ensures if Edged(rs) then |Trimmed(rs)| < |rs| else Trimmed(rs) == rs
    ensures rs != [] && !Trimmable(rs[0]) ==> Trimmed(rs) <= rs
  {
    TrimShorter(Space, rs);
    TrimShorter(IsDot, Trim(Space, rs));
  }

  // ----- the second pass

  lemma NothingToDrop(fs: seq<rune>, out: bytes)
    requires out == EncodeAll(fs) && Runes(out) == fs && forall b :: b in out ==> !Harmful(b)
    ensures Kept(fs) == fs
  {
    forall i | 0 <= i < |fs|
      ensures !Forbidden(fs[i])
    {
      if fs[i] < 0x80 {
        AsciiRune(out, i);
        assert !Harmful(fs[i]);
      }
    }
    NothingForbidden(fs);
  }

  lemma OneComponent(out: bytes)
    requires forall b :: b in out ==> !Harmful(b)
    ensures LastComponent(out) == out
  {
    forall i | 0 <= i < |out|
      ensures !Separator(out[i])
    {
      assert out[i] in out;
    }
    NoSeparator(out);
  }

  /** All that a second pass does to the characters before the guard is to trim them. */
  lemma CleanedAgain(fs: seq<rune>, out: bytes)
    requires out == EncodeAll(fs) && Safe(out)
    ensures Cleaned(out) == Trimmed(fs)
  {
    EncodedIsValid(fs);
    OneComponent(out);
    NothingToDrop(fs, out);
  }

  lemma {:induction false} FitsWhole(rs: seq<rune>, limit: nat)
    requires |EncodeAll(rs)| <= limit
    ensures FitCount(rs, limit) == |rs|
  {
    if rs != [] {
      FitsWhole(rs[1..], limit - |Encode(rs[0])|);
    }
  }

  lemma NotGuardedAgain(fs: seq<rune>)
    requires Edged(fs) && Guarded(Trimmed(fs)) != Trimmed(fs)
    ensures Guarded(Trimmed(fs)) != fs
  {
    var c := Trimmed(fs);
    if fs == [UNDERSCORE] + c {
      TrimmedShorter(fs);
      assert c != [] ==> c[0] == UNDERSCORE;
      NoDeviceStartsSo(c);
    }
  }

  lemma NoDeviceStartsSo(c: seq<rune>)
    requires c != [] ==> c[0] == UNDERSCORE
    ensures Guarded(c) == c
  {
    var s := EncodeAll(c);
    if c != [] {
      assert s[0] == UNDERSCORE;
      assert Stem(s)[0] == UNDERSCORE && Upper(Stem(s))[0] == UNDERSCORE;
    }
  }

  lemma FittingAgain(fs: seq<rune>, out: bytes)
    requires out == EncodeAll(fs) && Safe(out)
    ensures Fitting(out) == fs <==> !Edged(fs)
  {
    CleanedAgain(fs, out);
    TrimmedShorter(fs);
    if Edged(fs) {
      if Guarded(Trimmed(fs)) != Trimmed(fs) {
        NotGuardedAgain(fs);
      }
    } else {
      assert Guarded(fs) == fs;
      FitsWhole(fs, MAX_NAME);
    }
  }

  /** No dot is ever in front, so there it can only be white space. */
  lemma EdgedBeforeCut(name: bytes)
    ensures var gs := Guarded(Cleaned(name)); var k := FitCount(gs, MAX_NAME);
            Edged(Fitting(name)) <==> k > 0 && (Space(gs[0]) || Trimmable(gs[k - 1]))
  {
    CleanedIsClean(name);
  }

  /** Sanitising again changes nothing exactly when what fits of the trimmed and guarded name has no
      white space in front and neither white space nor a dot where it is cut. */
  lemma SanitisedTwice(name: bytes)
    ensures var gs := Guarded(Cleaned(name)); var k := FitCount(gs, MAX_NAME);
            Sanitised(Sanitised(name)) == Sanitised(name) <==> !(k > 0 && (Space(gs[0]) || Trimmable(gs[k - 1])))
  {
    var fs, out := Fitting(name), Sanitised(name);
    SanitisedIsSafe(name);
    FittingAgain(fs, out);
    EncodedIsValid(fs);
    EncodedIsValid(Fitting(out));
    EdgedBeforeCut(name);
  }

  lemma DotInFront(rs: seq<rune>, ls: seq<rune>)
    requires rs == [DOT] + ls && ls != [] && !IsDot(ls[0]) && !IsDot(ls[|ls| - 1]) && !Space(ls[|ls| - 1])
    ensures Trimmed(rs) == ls
  {
    TrimShorter(Space, rs);
    assert rs[1..] == ls;
    assert TrimLeft(IsDot, ls) == ls;
  }

  lemma NoDeviceStartsWithSpace(s: bytes)
    requires s != [] && s[0] == 32
    ensures !DeviceName(Upper(Stem(s)))
  {
    assert Stem(s)[0] == 32 && Upper(Stem(s))[0] == 32;
  }

  /** A name with nothing to cut that a second pass changes, ". CON": the dot hides a space, and the
      space hides a device. */
  lemma SpaceLeftBehind() returns (name: bytes)
    ensures Sanitised(name) == [32, 67, 79, 78] && Sanitised(Sanitised(name)) != Sanitised(name)
  {
    var rest: bytes := [32, 67, 79, 78];
    name := [DOT] + rest;
    SpaceKept(rest);
    SanitisedTwice(name);
  }

  lemma SpaceKept(rest: bytes)
    requires rest == [32, 67, 79, 78]
    ensures Fitting([DOT] + rest) == rest && Sanitised([DOT] + rest) == rest
  {
    DotCleanedOff(rest);
    NoDeviceStartsWithSpace(rest);
    CutOfAscii(rest);
    AsciiFit(rest, MAX_NAME);
    assert rest[..4] == rest;
  }

  lemma RestIsPlain(rest: bytes)
    requires rest == [32, 67, 79, 78]
    ensures PlainBytes(rest) && PlainBytes([DOT])
  {
  }

  lemma DotCleanedOff(rest: bytes)
    requires rest == [32, 67, 79, 78]
    ensures Cleaned([DOT] + rest) == rest && EncodeAll(rest) == rest
  {
    RestIsPlain(rest);
    PlainJoin([DOT], rest);
    PlainRunes([DOT] + rest);
    PlainRunes(rest);
    DotInFront([DOT] + rest, rest);
  }
}
