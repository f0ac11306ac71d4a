/** Bytes, the big-endian integers every frame header is made of, and decimal numbers. */
module Bytes {

  type byte = x: int | 0 <= x < 256

  type bytes = seq<byte>

  lemma SliceOfSlice(s: bytes, a: nat, b: nat, c: nat, d: nat)
    requires a <= b <= |s| && c <= d <= b - a
    ensures s[a..b][c..d] == s[a + c..a + d]
  {
    var t := s[a..b];
    forall i | 0 <= i < d - c
      ensures t[c..d][i] == s[a + c..a + d][i]
    {
      assert t[c..d][i] == t[c + i] == s[a + (c + i)];
    }
  }

  lemma SuffixOfSuffix(s: bytes, a: nat, b: nat)
    requires a + b <= |s|
    ensures s[a..][b..] == s[a + b..]
  {
  }

  lemma Regroup(a: bytes, b: bytes, c: bytes)
    ensures a + b + c == a + (b + c)
  {
  }

  /** 256 to the power `width`: how many values `width` bytes can hold. */
  function Pow256(width: nat): (p: nat)
    ensures p > 0
  {
    if width == 0 then 1 else 256 * Pow256(width - 1)
  }

  /** `n` as `width` big-endian bytes. Higher digits are dropped, which is what a
      conversion to uint16 or uint32 before PutUint16 or PutUint32 does. */
  function Be(width: nat, n: nat): (s: bytes)
    ensures |s| == width
  {
    if width == 0 then [] else Be(width - 1, n / 256) + [n % 256]
  }

  function FromBe(s: bytes): nat {
    if s == [] then 0 else 256 * FromBe(s[..|s| - 1]) + s[|s| - 1]
  }

  lemma {:induction false} FromBeOfBe(width: nat, n: nat)
    requires n < Pow256(width)
    ensures FromBe(Be(width, n)) == n
  {
    if width > 0 {
      FromBeOfBe(width - 1, n / 256);
      var s := Be(width, n);
      assert s[..|s| - 1] == Be(width - 1, n / 256);
    }
  }

  lemma {:induction false} BeOfFromBe(s: bytes)
    ensures Be(|s|, FromBe(s)) == s
  {
    if s != [] {
      BeOfFromBe(s[..|s| - 1]);
      assert s == s[..|s| - 1] + [s[|s| - 1]];
    }
  }

  lemma QuotientIs(n: nat, d: nat, q: nat, r: nat)
    requires n == q * d + r && r < d
    ensures n / d == q
  {
    var e := n / d - q;
    assert e * d == r - n % d;
    assert e >= 1 ==> e * d >= d;
    assert e <= -1 ==> e * d + d <= 0;
  }

  lemma RemaindersFit(a: nat, b: nat, r: nat, rest: nat)
    requires r < b && rest < a
    ensures r * a + rest < a * b
  {
    assert r * a <= (b - 1) * a;
  }

  lemma DivideTwice(n: nat, a: nat, b: nat)
    requires a > 0 && b > 0
    ensures a * b > 0 && n / a / b == n / (a * b)
  {
    var (m, rest) := (n / a, n % a);
    DivideParts(n, a, b, m, rest, m / b, m % b);
  }

  lemma DivideParts(n: nat, a: nat, b: nat, m: nat, rest: nat, q: nat, r: nat)
    requires n == m * a + rest && rest < a && m == q * b + r && r < b
    ensures a * b > 0 && n / (a * b) == q
  {
    RemaindersFit(a, b, r, rest);
    Distribute(q, b, r, a);
    QuotientIs(n, a * b, q, r * a + rest);
  }

  lemma Distribute(q: nat, b: nat, r: nat, a: nat)
    ensures (q * b + r) * a == q * (a * b) + r * a
  {
  }

  /** The most significant byte comes first. */
  lemma {:induction false} BeByte(width: nat, n: nat, i: nat)
    requires i < width
    ensures Be(width, n)[i] == n / Pow256(width - 1 - i) % 256
  {
    if i < width - 1 {
      BeByte(width - 1, n / 256, i);
      DivideTwice(n, 256, Pow256(width - 2 - i));
    }
  }

  /** The 16 and 32 bits of a header field. */
  lemma BeTwo(n: nat)
    requires n < 0x1_0000
    ensures Be(2, n) == [n / 256, n % 256]
  {
    Pow256Values();
    BeByte(2, n, 0);
    BeByte(2, n, 1);
  }

  lemma BeFour(n: nat)
    requires n < 0x1_0000_0000
    ensures Be(4, n) == [n / 0x100_0000, n / 0x1_0000 % 256, n / 0x100 % 256, n % 256]
  {
    Pow256Values();
    assert Pow256(3) == 0x100_0000 && Pow256(1) == 256;
    BeByte(4, n, 0);
    BeByte(4, n, 1);
    BeByte(4, n, 2);
    BeByte(4, n, 3);
  }

  lemma Pow256Values()
    ensures Pow256(2) == 0x1_0000 && Pow256(4) == 0x1_0000_0000
  {
    assert Pow256(1) == 256;
    assert Pow256(3) == 256 * Pow256(2);
  }

  // ----- ASCII

  function Ascii(s: string): bytes {
    seq(|s|, i requires 0 <= i < |s| => s[i] as int % 128)
  }

  function Digit(b: byte): int {
    b - 48
  }

  function FromDecimal(s: bytes): int {
    if s == [] then 0 else 10 * FromDecimal(s[..|s| - 1]) + Digit(s[|s| - 1])
  }
}
