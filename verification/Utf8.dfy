/** UTF-8 as section 3 of RFC 3629 has it, and as Go's range loop and utf8.ValidString read it:
    an ill-formed byte decodes as U+FFFD and is one byte wide. */
module Utf8 {
  import opened Bytes

  type rune = r: int | 0 <= r < 0x11_0000 && !(0xD800 <= r < 0xE000)

  const RUNE_ERROR: rune := 0xFFFD

  /** The low six bits of `n` as a continuation byte. */
  function Low(n: nat): byte {
    0x80 + n % 64
  }

  function Encode(r: rune): (s: bytes)
    ensures 1 <= |s| <= 4
  {
    if r < 0x80 then [r]
    else if r < 0x800 then [0xC0 + r / 64, Low(r)]
    else if r < 0x1_0000 then [0xE0 + r / 64 / 64, Low(r / 64), Low(r)]
    else [0xF0 + r / 64 / 64 / 64, Low(r / 64 / 64), Low(r / 64), Low(r)]
  }

  predicate Continues(b: byte) {
    0x80 <= b < 0xC0
  }

  /** `hi` followed by the six bits of a continuation byte. */
  function Join(hi: int, b: byte): int {
    hi * 64 + (b - 0x80)
  }

  datatype Decoded = Decoded(rune: rune, width: nat, ok: bool)

  const ILL_FORMED := Decoded(RUNE_ERROR, 1, false)

  /** The first character of `s`. Overlong forms, surrogates and values past U+10FFFF are
      ill-formed. */
  function Decode(s: bytes): (d: Decoded)
    requires s != []
    ensures 1 <= d.width <= |s|
  {
    var a := s[0];
    if a < 0x80 then Decoded(a, 1, true)
    else if 0xC2 <= a < 0xE0 && |s| >= 2 && Continues(s[1]) then
      Decoded(Join(a - 0xC0, s[1]), 2, true)
    else if 0xE0 <= a < 0xF0 && |s| >= 3 && Continues(s[1]) && Continues(s[2]) then
      var r := Join(Join(a - 0xE0, s[1]), s[2]);
      if r < 0x800 || 0xD800 <= r < 0xE000 then ILL_FORMED else Decoded(r, 3, true)
    else if 0xF0 <= a < 0xF5 && |s| >= 4 && Continues(s[1]) && Continues(s[2]) && Continues(s[3]) then
      var r := Join(Join(Join(a - 0xF0, s[1]), s[2]), s[3]);
      if r < 0x1_0000 || r >= 0x11_0000 then ILL_FORMED else Decoded(r, 4, true)
    else ILL_FORMED
  }

  predicate ValidString(s: bytes) {
    s == [] || (Decode(s).ok && ValidString(s[Decode(s).width..]))
  }

  function Runes(s: bytes): seq<rune> {
    if s == [] then [] else [Decode(s).rune] + Runes(s[Decode(s).width..])
  }

  function EncodeAll(rs: seq<rune>): bytes {
    if rs == [] then [] else Encode(rs[0]) + EncodeAll(rs[1..])
  }

  lemma DecodeOfEncode(r: rune, rest: bytes)
    ensures Decode(Encode(r) + rest) == Decoded(r, |Encode(r)|, true)
  {
    var e := Encode(r);
    var s := e + rest;
    assert s[0] == e[0] && (|e| > 1 ==> s[1] == e[1]);
    assert (|e| > 2 ==> s[2] == e[2]) && (|e| > 3 ==> s[3] == e[3]);
  }

  /** What six-bit pieces say together, the highest first. */
  function Gathered(lead: int, rest: bytes): int
    decreases |rest|
  {
    if rest == [] then lead else Gathered(lead * 64 + (rest[0] as int - 0x80), rest[1..])
  }

  /** Where the bits of a character go: as many bytes as its range needs, the lead byte marked by
      their number, the others by 0x80 and with six bits each. */
  lemma EncodedBits(r: rune)
    ensures var e := Encode(r);
            && |e| == (if r <= 0x7F then 1 else if r <= 0x7FF then 2 else if r <= 0xFFFF then 3 else 4)
            && (forall i :: 0 < i < |e| ==> 0x80 <= e[i] <= 0xBF)
            && var mark := if |e| == 1 then 0 else if |e| == 2 then 0xC0 else if |e| == 3 then 0xE0 else 0xF0;
               mark <= e[0] && r == Gathered(e[0] as int - mark, e[1..])
  {
    var e := Encode(r);
    if |e| == 2 {
      GatherNext(r / 64, e[1..], []);
    } else if |e| == 3 {
      GatherNext(r / 64 / 64, e[1..], e[2..]);
      GatherNext(r / 64, e[2..], []);
    } else if |e| == 4 {
      GatherNext(r / 64 / 64 / 64, e[1..], e[2..]);
      GatherNext(r / 64 / 64, e[2..], e[3..]);
      GatherNext(r / 64, e[3..], []);
    }
  }

  lemma GatherNext(lead: int, s: bytes, rest: bytes)
    requires s != [] && s[1..] == rest
    ensures Gathered(lead, s) == Gathered(lead * 64 + (s[0] as int - 0x80), rest)
  {
  }

  /** Nothing but the encoding of a character is well-formed: no longer form of it, no half of it,
      no surrogate. Anything else is one byte, read as U+FFFD. */
  lemma DecodedIsEncoded(s: bytes)
    requires s != []
    ensures var d := Decode(s);
            if d.ok then s[..d.width] == Encode(d.rune)
            else d.rune == 0xFFFD && d.width == 1 && forall r: rune :: !(Encode(r) <= s)
  {
    var d := Decode(s);
    if d.ok {
      EncodedFrom(s);
    } else {
      forall r: rune
        ensures !(Encode(r) <= s)
      {
        if Encode(r) <= s {
          EncodedIsOk(s, r);
        }
      }
    }
  }

  lemma EncodedIsOk(s: bytes, r: rune)
    requires Encode(r) <= s
    ensures s != [] && Decode(s).ok
  {
    assert s == Encode(r) + s[|Encode(r)|..];
    DecodeOfEncode(r, s[|Encode(r)|..]);
  }

  lemma EncodedFrom(s: bytes)
    requires s != [] && Decode(s).ok
    ensures s[..Decode(s).width] == Encode(Decode(s).rune)
  {
    var d := Decode(s);
    if d.width == 2 {
      SixBits(s[0] - 0xC0, s[1] - 0x80, d.rune);
    } else if d.width == 3 {
      SixBits(s[0] - 0xE0, s[1] - 0x80, Join(s[0] - 0xE0, s[1]));
      SixBits(Join(s[0] - 0xE0, s[1]), s[2] - 0x80, d.rune);
    } else if d.width == 4 {
      SixBits(s[0] - 0xF0, s[1] - 0x80, Join(s[0] - 0xF0, s[1]));
      SixBits(Join(s[0] - 0xF0, s[1]), s[2] - 0x80, Join(Join(s[0] - 0xF0, s[1]), s[2]));
      SixBits(Join(Join(s[0] - 0xF0, s[1]), s[2]), s[3] - 0x80, d.rune);
    }
  }

  lemma SixBits(hi: nat, lo: nat, n: nat)
    requires lo < 64 && n == hi * 64 + lo
    ensures n / 64 == hi && n % 64 == lo
  {
  }

  lemma {:induction false} EncodedIsValid(rs: seq<rune>)
    ensures ValidString(EncodeAll(rs)) && Runes(EncodeAll(rs)) == rs
  {
    if rs != [] {
      DecodeOfEncode(rs[0], EncodeAll(rs[1..]));
      EncodedIsValid(rs[1..]);
      assert EncodeAll(rs)[|Encode(rs[0])|..] == EncodeAll(rs[1..]);
    }
  }

  lemma {:induction false} EncodeAllAppend(xs: seq<rune>, ys: seq<rune>)
    ensures EncodeAll(xs + ys) == EncodeAll(xs) + EncodeAll(ys)
  {
    if xs == [] {
      assert xs + ys == ys && EncodeAll(xs) == [];
    } else {
      var (first, rest) := (xs[0], xs[1..]);
      EncodeAllAppend(rest, ys);
      EncodeAllNext(xs, first, rest);
      EncodeAllNext(xs + ys, first, rest + ys);
      Regroup(Encode(first), EncodeAll(rest), EncodeAll(ys));
    }
  }

  lemma EncodeAllNext(rs: seq<rune>, first: rune, rest: seq<rune>)
    requires rs != [] && rs[0] == first && rs[1..] == rest
    ensures EncodeAll(rs) == Encode(first) + EncodeAll(rest)
  {
  }

  /** A character cut in the middle is never valid, whatever well-formed text is before it. */
  lemma {:induction false} SplitCharacter(rs: seq<rune>, r: rune, k: nat)
    requires 0 < k < |Encode(r)|
    ensures !ValidString(EncodeAll(rs) + Encode(r)[..k])
  {
    var p := Encode(r)[..k];
    if rs == [] {
      assert EncodeAll(rs) + p == p;
      assert p[0] == Encode(r)[0];
    } else {
      var s := EncodeAll(rs) + p;
      assert s == Encode(rs[0]) + (EncodeAll(rs[1..]) + p);
      DecodeOfEncode(rs[0], EncodeAll(rs[1..]) + p);
      SplitCharacter(rs[1..], r, k);
      assert s[|Encode(rs[0])|..] == EncodeAll(rs[1..]) + p;
    }
  }

  lemma DecodeFront(a: bytes, b: bytes)
    requires a != [] && (Decode(a).ok || (Decode(a + b).ok && b != [] && b[0] < 0x80))
    ensures Decode(a + b) == Decode(a)
  {
    var s := a + b;
    assert forall i :: 0 <= i < |s| ==> s[i] == if i < |a| then a[i] else b[i - |a|];
  }

  lemma {:induction false} ValidAppend(a: bytes, b: bytes)
    requires ValidString(a) && ValidString(b)
    ensures ValidString(a + b)
  {
    if a == [] {
      assert a + b == b;
    } else {
      var w := Decode(a).width;
      DecodeFront(a, b);
      ValidAppend(a[w..], b);
      assert (a + b)[w..] == a[w..] + b;
    }
  }

  /** Well-formed text can be cut in front of an ASCII character. */
  lemma {:induction false} ValidSplit(a: bytes, b: bytes)
    requires ValidString(a + b) && b != [] && b[0] < 0x80
    ensures ValidString(a) && ValidString(b)
  {
    if a == [] {
      assert a + b == b;
    } else {
      var w := Decode(a).width;
      assert (a + b)[0] == a[0];
      DecodeFront(a, b);
      assert (a + b)[w..] == a[w..] + b;
      ValidSplit(a[w..], b);
    }
  }

  lemma {:induction false} AsciiIsValid(s: bytes)
    requires forall i :: 0 <= i < |s| ==> s[i] < 0x80
    ensures ValidString(s)
  {
    if s != [] {
      AsciiIsValid(s[1..]);
    }
  }

  /** ASCII stands for itself: an ASCII character comes from that very byte, and an encoded
      text has no ASCII bytes but those of its ASCII characters. */
  lemma {:induction false} AsciiRune(s: bytes, k: nat)
    requires k < |Runes(s)| && Runes(s)[k] < 0x80
    ensures Runes(s)[k] in s
  {
    var w := Decode(s).width;
    if k == 0 {
      assert Runes(s)[0] == s[0];
    } else {
      assert Runes(s)[k] == Runes(s[w..])[k - 1];
      AsciiRune(s[w..], k - 1);
    }
  }

  lemma {:induction false} AsciiByte(rs: seq<rune>, b: byte)
    requires b in EncodeAll(rs) && b < 0x80
    ensures b in rs
  {
    if b in Encode(rs[0]) {
      assert b == rs[0];
    } else {
      AsciiByte(rs[1..], b);
    }
  }
}
