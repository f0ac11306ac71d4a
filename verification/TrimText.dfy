/** Two places trim white space: the file name sanitiser works on characters, the access lists on
    the bytes of a line. On well-formed text the two are the same. */
module TrimText {
  import opened Bytes
  import opened Utf8
  import SafeName
  import Trim

  /** A character is white space exactly when its bytes are recognised as that, from the front
      whatever follows, and from the back whatever precedes. */
  lemma FrontOfText(r: rune, rest: bytes)
    ensures Trim.Front(Encode(r) + rest) == if SafeName.Space(r) then |Encode(r)| else 0
  {
    var s := Encode(r) + rest;
    assert forall i :: 0 <= i < |Encode(r)| ==> s[i] == Encode(r)[i];
  }

  lemma BackOfText(head: bytes, r: rune)
    ensures Trim.Back(head + Encode(r)) == if SafeName.Space(r) then |Encode(r)| else 0
  {
    var s, e := head + Encode(r), Encode(r);
    var m := |s|;
    assert s[m - 1] == e[|e| - 1];
    if r >= 0x80 {
      assert s[m - 2] == e[|e| - 2];
      if r >= 0x800 {
        assert s[m - 3] == e[|e| - 3];
      }
    }
  }

  lemma {:induction false} TrimLeftAgrees(rs: seq<rune>)
    ensures Trim.TrimLeft(EncodeAll(rs)) == EncodeAll(SafeName.TrimLeft(SafeName.Space, rs))
  {
    if rs != [] {
      FrontOfText(rs[0], EncodeAll(rs[1..]));
      TrimLeftAgrees(rs[1..]);
      assert EncodeAll(rs)[|Encode(rs[0])|..] == EncodeAll(rs[1..]);
    }
  }

  lemma {:induction false} TrimRightAgrees(rs: seq<rune>)
    ensures Trim.TrimRight(EncodeAll(rs)) == EncodeAll(SafeName.TrimRight(SafeName.Space, rs))
  {
    if rs != [] {
      var xs, r := rs[..|rs| - 1], rs[|rs| - 1];
      assert rs == xs + [r];
      SafeName.EncodedLast(xs, r);
      BackOfText(EncodeAll(xs), r);
      TrimRightAgrees(xs);
      assert EncodeAll(rs)[..|EncodeAll(rs)| - |Encode(r)|] == EncodeAll(xs);
    }
  }

  lemma TrimAgrees(rs: seq<rune>)
    ensures Trim.TrimSpace(EncodeAll(rs)) == EncodeAll(SafeName.Trim(SafeName.Space, rs))
  {
    TrimLeftAgrees(rs);
    TrimRightAgrees(SafeName.TrimLeft(SafeName.Space, rs));
  }
}
