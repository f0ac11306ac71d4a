/** The sanitiser for file names that come off the wire. */
module SafeName {
  import opened Bytes
  import opened Utf8

  const MAX_NAME := 120

  const DOT: byte := 46
  const UNDERSCORE: byte := 95

  predicate Separator(b: byte) {
    b == 47 || b == 92    // slash and backslash
  }

  /** Control characters, and `<>:"|?*`. */
  predicate Forbidden(r: rune) {
    r < 0x20 || r == 0x7F || r in {60, 62, 58, 34, 124, 63, 42}
  }

  /** unicode.IsSpace. */
  predicate Space(r: rune) {
    9 <= r <= 13 || r in {32, 0x85, 0xA0, 0x1680, 0x2028, 0x2029, 0x202F, 0x205F, 0x3000} || 0x2000 <= r <= 0x200A
  }

  predicate IsDot(r: rune) {
    r == DOT
  }

  function TrimLeft(p: rune -> bool, rs: seq<rune>): seq<rune> {
    if rs != [] && p(rs[0]) then TrimLeft(p, rs[1..]) else rs
  }

  function TrimRight(p: rune -> bool, rs: seq<rune>): seq<rune> {
    if rs != [] && p(rs[|rs| - 1]) then TrimRight(p, rs[..|rs| - 1]) else rs
  }

  function Trim(p: rune -> bool, rs: seq<rune>): seq<rune> {
    TrimRight(p, TrimLeft(p, rs))
  }

  /** Everything before the first dot. */
  function Stem(s: bytes): (t: bytes)
    ensures t <= s && DOT !in t
    ensures t == s || s[|t|] == DOT
  {
    if s == [] || s[0] == DOT then [] else [s[0]] + Stem(s[1..])
  }

  /** Upper-casing as far as the device names can tell: of all other characters only U+0131 and
      U+017F upper-case to ASCII letters, I and S, and no device name has either. */
  function Upper(s: bytes): bytes {
    seq(|s|, i requires 0 <= i < |s| => if 97 <= s[i] <= 122 then s[i] - 32 else s[i])
  }

  /** CON, PRN, AUX, NUL, COM1 to COM9 and LPT1 to LPT9. */
  predicate DeviceName(u: bytes) {
    || u in {[67, 79, 78], [80, 82, 78], [65, 85, 88], [78, 85, 76]}
    || (|u| == 4 && u[..3] in {[67, 79, 77], [76, 80, 84]} && 49 <= u[3] <= 57)
  }

  // ----- what the name is before it is cut

  ghost function LastComponent(name: bytes): bytes {
    if name == [] || Separator(name[|name| - 1]) then []
    else LastComponent(name[..|name| - 1]) + [name[|name| - 1]]
  }

  ghost function Kept(rs: seq<rune>): seq<rune> {
    if rs == [] then []
    else if Forbidden(rs[0]) then Kept(rs[1..])
    else [rs[0]] + Kept(rs[1..])
  }

  ghost function Cleaned(name: bytes): seq<rune> {
    Trim(IsDot, Trim(Space, Kept(Runes(LastComponent(name)))))
  }

  ghost function Guarded(rs: seq<rune>): seq<rune> {
    if DeviceName(Upper(Stem(EncodeAll(rs)))) then [UNDERSCORE] + rs else rs
  }

  /** `out` is the first k characters of `rs`, and one more would not fit. */
  ghost predicate LongestFit(rs: seq<rune>, k: nat, out: bytes) {
    && k <= |rs| && out == EncodeAll(rs[..k]) && |out| <= MAX_NAME
    && (k < |rs| ==> |out| + |Encode(rs[k])| > MAX_NAME)
  }

  /** The result, in one line: whole characters from the front, as many as fit. */
  ghost function Sanitised(name: bytes): bytes {
    var rs := Guarded(Cleaned(name));
    EncodeAll(rs[..FitCount(rs, MAX_NAME)])
  }

  // ----- the cut

  ghost function FitCount(rs: seq<rune>, limit: nat): (k: nat)
    ensures k <= |rs|
  {
    if rs == [] || |Encode(rs[0])| > limit then 0 else 1 + FitCount(rs[1..], limit - |Encode(rs[0])|)
  }

  lemma {:induction false} FitCountFits(rs: seq<rune>, limit: nat)
    ensures var k := FitCount(rs, limit);
            && |EncodeAll(rs[..k])| <= limit
            && (k < |rs| ==> |EncodeAll(rs[..k])| + |Encode(rs[k])| > limit)
  {
    if !(rs == [] || |Encode(rs[0])| > limit) {
      var k := FitCount(rs, limit);
      FitCountFits(rs[1..], limit - |Encode(rs[0])|);
      assert rs[..k][1..] == rs[1..][..k - 1];
    }
  }

  lemma LeadsOff(a: bytes, b: bytes, c: bytes)
    requires c == a + b
    ensures a <= c
  {
  }

  lemma EncodedFront(xs: seq<rune>, ys: seq<rune>, rs: seq<rune>)
    requires rs == xs + ys
    ensures EncodeAll(xs) <= EncodeAll(rs)
  {
    EncodeAllAppend(xs, ys);
    LeadsOff(EncodeAll(xs), EncodeAll(ys), EncodeAll(rs));
  }

  lemma EncodedLast(xs: seq<rune>, r: rune)
    ensures EncodeAll(xs + [r]) == EncodeAll(xs) + Encode(r)
  {
    EncodeAllAppend(xs, [r]);
    assert [r][1..] == [] && EncodeAll([]) == [];
    assert EncodeAll([r]) == Encode(r) + EncodeAll([r][1..]);
  }

  lemma CutAt(rs: seq<rune>, k: nat)
    requires k <= |rs|
    ensures rs == rs[..k] + rs[k..]
    ensures k < |rs| ==> rs == rs[..k] + [rs[k]] + rs[k + 1..]
  {
  }

  lemma EncodedPrefix(rs: seq<rune>, k: nat)
    requires k <= |rs|
    ensures EncodeAll(rs[..k]) <= EncodeAll(rs)
    ensures k < |rs| ==> EncodeAll(rs[..k]) + Encode(rs[k]) <= EncodeAll(rs)
  {
    CutAt(rs, k);
    EncodedFront(rs[..k], rs[k..], rs);
    if k < |rs| {
      var xs, r := rs[..k], rs[k];
      EncodedFront(xs + [r], rs[k + 1..], rs);
      EncodedLast(xs, r);
    }
  }

  // ----- the characters and names it knows, spelled out

  /** The letter c, or its byte. */
  predicate Spells(b: int, c: char) {
    b == c as int
  }

  lemma SeparatorsAre(b: byte)
    ensures Separator(b) <==> Spells(b, '/') || Spells(b, '\\')
  {
  }

  lemma ForbiddenAre(r: rune)
    ensures Forbidden(r) <==> r < 32 || r == 127 || exists c :: c in "<>:\"|?*" && Spells(r, c)
  {
    var marks := "<>:\"|?*";
    assert marks[0] in marks && marks[1] in marks && marks[2] in marks && marks[3] in marks;
    assert marks[4] in marks && marks[5] in marks && marks[6] in marks;
    if Forbidden(r) && r >= 32 && r != 127 {
      assert Spells(r, marks[0]) || Spells(r, marks[1]) || Spells(r, marks[2]) || Spells(r, marks[3])
             || Spells(r, marks[4]) || Spells(r, marks[5]) || Spells(r, marks[6]);
    }
  }

  /** What may not be in a file name: what is taken out, and separators. */
  lemma HarmfulAre(b: byte)
    ensures Harmful(b) <==> Spells(b, '/') || Spells(b, '\\') || Forbidden(b)
  {
  }

  /** The device names, in upper case. */
  predicate IsDevice(name: string) {
    || name in {"CON", "PRN", "AUX", "NUL"}
    || (|name| == 4 && name[..3] in {"COM", "LPT"} && '1' <= name[3] <= '9')
  }

  /** The name in upper or lower case. */
  predicate SpellsName(s: bytes, name: string) {
    |s| == |name| && forall i :: 0 <= i < |s| ==> SpellsEither(s[i], name[i])
  }

  predicate SpellsEither(b: int, c: char) {
    Spells(b, c) || ('A' <= c <= 'Z' && Spells(b - 32, c))
  }

  lemma DeviceLetter(name: string, i: nat)
    requires IsDevice(name) && i < |name|
    ensures 'A' <= name[i] <= 'Z' || '1' <= name[i] <= '9'
  {
    if i < 3 && |name| == 4 {
      assert name[i] == name[..3][i];
    }
  }

  lemma UpperSpells(s: bytes, name: string)
    requires IsDevice(name) && SpellsName(s, name)
    ensures |Upper(s)| == |name| && forall i :: 0 <= i < |s| ==> Upper(s)[i] == name[i] as int
  {
    forall i | 0 <= i < |s|
      ensures Upper(s)[i] == name[i] as int
    {
      DeviceLetter(name, i);
      assert SpellsEither(s[i], name[i]);
    }
  }

  /** What is guarded against are these names, in upper or lower case, and nothing else. */
  lemma DevicesAre(s: bytes)
    ensures DeviceName(Upper(s)) <==> exists name :: IsDevice(name) && SpellsName(s, name)
  {
    if DeviceName(Upper(s)) {
      var name := seq(|s|, i requires 0 <= i < |s| => Upper(s)[i] as char);
      DeviceSpelled(Upper(s), name);
      assert SpellsName(s, name);
    }
    forall name | IsDevice(name) && SpellsName(s, name)
      ensures DeviceName(Upper(s))
    {
      UpperSpells(s, name);
      DeviceNamed(Upper(s), name);
    }
  }

  lemma DeviceSpelled(u: bytes, name: string)
    requires DeviceName(u) && |name| == |u| && forall i :: 0 <= i < |u| ==> name[i] as int == u[i]
    ensures IsDevice(name)
  {
    if |u| == 4 {
      assert u[..3][0] == u[0] && u[..3][1] == u[1] && u[..3][2] == u[2];
      assert name[..3] == if u[0] == 67 then "COM" else "LPT";
    } else {
      assert name == if u[0] == 67 then "CON" else if u[0] == 80 then "PRN" else if u[0] == 65 then "AUX" else "NUL";
    }
  }

  lemma DeviceNamed(u: bytes, name: string)
    requires IsDevice(name) && |name| == |u| && forall i :: 0 <= i < |u| ==> u[i] == name[i] as int
    ensures DeviceName(u)
  {
    if |u| == 4 {
      assert name[..3][0] == name[0] && name[..3][1] == name[1] && name[..3][2] == name[2];
      assert u[..3] == if name[0] == 'C' then [67, 79, 77] else [76, 80, 84];
    } else {
      assert u == if name[0] == 'C' then [67, 79, 78] else if name[0] == 'P' then [80, 82, 78]
                  else if name[0] == 'A' then [65, 85, 88] else [78, 85, 76];
    }
  }

  /** Trimming takes off white space, or whatever p says, from the ends, and nothing else. */
  lemma {:induction false} TrimParts(p: rune -> bool, rs: seq<rune>) returns (a: seq<rune>, b: seq<rune>)
    ensures rs == a + Trim(p, rs) + b && (forall r :: r in a || r in b ==> p(r))
    ensures Trim(p, rs) != [] ==> !p(Trim(p, rs)[0]) && !p(Trim(p, rs)[|Trim(p, rs)| - 1])
  {
    TrimKeeps(p, rs);
    a := LeftPart(p, rs);
    b := RightPart(p, TrimLeft(p, rs));
  }

  lemma {:induction false} LeftPart(p: rune -> bool, rs: seq<rune>) returns (a: seq<rune>)
    ensures rs == a + TrimLeft(p, rs) && forall r :: r in a ==> p(r)
  {
    a := [];
    if rs != [] && p(rs[0]) {
      a := LeftPart(p, rs[1..]);
      a := [rs[0]] + a;
    }
  }

  lemma {:induction false} RightPart(p: rune -> bool, rs: seq<rune>) returns (b: seq<rune>)
    ensures rs == TrimRight(p, rs) + b && forall r :: r in b ==> p(r)
  {
    b := [];
    if rs != [] && p(rs[|rs| - 1]) {
      b := RightPart(p, rs[..|rs| - 1]);
      b := b + [rs[|rs| - 1]];
    }
  }

  // ----- SafeName, in its four steps

  method AfterSeparators(name: bytes) returns (last: bytes)
    ensures last == LastComponent(name)
    // it is the end of the name, behind the last slash or backslash
    ensures |last| <= |name| && last == name[|name| - |last|..]
    ensures forall b :: b in last ==> !Spells(b, '/') && !Spells(b, '\\')
    ensures |last| < |name| ==>
              Spells(name[|name| - |last| - 1], '/') || Spells(name[|name| - |last| - 1], '\\')
  {
    var i := |name|;
    assert name[..i] == name;
    while i > 0 && !Separator(name[i - 1])
      invariant 0 <= i <= |name|
      invariant LastComponent(name) == LastComponent(name[..i]) + name[i..]
    {
      i := i - 1;
      assert name[..i + 1][..i] == name[..i] && name[i..] == [name[i]] + name[i + 1..];
    }
    last := name[i..];
    LastComponentBytes(name);
    ghost var dir := SplitName(name);
    JoinedAt(dir, last);
  }

  /** The directory part and the last component. */
  lemma {:induction false} SplitName(name: bytes) returns (dir: bytes)
    ensures name == dir + LastComponent(name) && (dir != [] ==> Separator(dir[|dir| - 1]))
  {
    if name == [] || Separator(name[|name| - 1]) {
      dir := name;
    } else {
      var n := |name| - 1;
      dir := SplitName(name[..n]);
      Regroup(dir, LastComponent(name[..n]), [name[n]]);
      assert name == name[..n] + [name[n]];
    }
  }

  lemma JoinedAt(dir: bytes, last: bytes)
    ensures (dir + last)[|dir|..] == last && (dir != [] ==> (dir + last)[|dir| - 1] == dir[|dir| - 1])
  {
  }

  lemma KeptNext(s: bytes)
    requires s != []
    ensures var d := Decode(s); var rest := Kept(Runes(s[d.width..]));
            Kept(Runes(s)) == if Forbidden(d.rune) then rest else [d.rune] + rest
  {
    var d := Decode(s);
    assert Runes(s) == [d.rune] + Runes(s[d.width..]);
    assert Runes(s)[1..] == Runes(s[d.width..]);
  }

  lemma OneMoreKept(kept: seq<rune>, r: rune, rest: seq<rune>)
    ensures kept + ([r] + rest) == kept + [r] + rest
  {
  }

  /** One turn of the loop below. */
  lemma KeptStep(all: seq<rune>, last: bytes, at: nat, kept: seq<rune>, d: Decoded)
    requires at < |last| && d == Decode(last[at..]) && all == kept + Kept(Runes(last[at..]))
    ensures at + d.width <= |last|
    ensures all == (if Forbidden(d.rune) then kept else kept + [d.rune]) + Kept(Runes(last[at + d.width..]))
  {
    SuffixOfSuffix(last, at, d.width);
    KeptNext(last[at..]);
    OneMoreKept(kept, d.rune, Kept(Runes(last[at + d.width..])));
  }

  lemma KeptEnds(s: bytes)
    ensures s[0..] == s && Kept(Runes(s[|s|..])) == []
  {
  }

  /** One character is kept or dropped. */
  method KeepOne(last: bytes, at: nat, kept: seq<rune>, ghost all: seq<rune>) returns (next: nat, more: seq<rune>)
    requires at < |last| && all == kept + Kept(Runes(last[at..]))
    ensures at < next <= |last| && all == more + Kept(Runes(last[next..]))
  {
    var d := Decode(last[at..]);
    KeptStep(all, last, at, kept, d);
    next, more := at + d.width, if Forbidden(d.rune) then kept else kept + [d.rune];
  }

  method KeepAllowed(last: bytes) returns (kept: seq<rune>)
    ensures kept == Kept(Runes(last))
  {
    var at := 0;
    kept := [];
    KeptEnds(last);
    while at < |last|
      invariant 0 <= at <= |last|
      invariant Kept(Runes(last)) == kept + Kept(Runes(last[at..]))
      decreases |last| - at
    {
      at, kept := KeepOne(last, at, kept, Kept(Runes(last)));
    }
  }

  /** The bytes are cut at the limit and then back to a whole character. */
  method CutToFit(full: bytes, ghost rs: seq<rune>) returns (out: bytes)
    requires full == EncodeAll(rs)
    ensures LongestFit(rs, FitCount(rs, MAX_NAME), out)
    ensures out <= full && ValidString(out)
  {
    out := full;
    EncodedIsValid(rs);
    assert rs[..|rs|] == rs;
    ghost var k := FitCount(rs, MAX_NAME);
    FitCountFits(rs, MAX_NAME);
    EncodedPrefix(rs, k);
    if |out| <= MAX_NAME {
      return out;
    }
    ghost var fit := EncodeAll(rs[..k]);
    out := out[..MAX_NAME];
    EncodedIsValid(rs[..k]);
    while |out| > 0 && !ValidString(out)
      invariant |fit| <= |out| <= MAX_NAME && out == full[..|out|]
    {
      assert out != fit;
      out := out[..|out| - 1];
    }
    if |out| > |fit| {
      var p := |out| - |fit|;
      assert out == fit + Encode(rs[k])[..p];
      SplitCharacter(rs[..k], rs[k], p);
    }
  }

  method SafeName(name: bytes) returns (out: bytes)
    ensures Safe(out) && out == Sanitised(name)
  {
    var last := AfterSeparators(name);
    var kept := KeepAllowed(last);
    var trimmed := Trim(IsDot, Trim(Space, kept));
    var full := EncodeAll(trimmed);
    if DeviceName(Upper(Stem(full))) {
      full := [UNDERSCORE] + full;
    }
    out := CutToFit(full, Guarded(trimmed));
    CleanedIsClean(name);
    GuardedIsSafe(trimmed, FitCount(Guarded(trimmed), MAX_NAME), out);
  }

  // ----- why it is safe

  predicate Harmful(b: byte) {
    Separator(b) || b < 0x20 || b == 0x7F || b in {60, 62, 58, 34, 124, 63, 42}
  }

  ghost predicate Safe(out: bytes) {
    && |out| <= MAX_NAME && ValidString(out)
    && (forall b :: b in out ==> !Harmful(b))
    && (out != [] ==> out[0] != DOT)
    && !DeviceName(Upper(Stem(out)))
  }

  ghost predicate Clean(rs: seq<rune>) {
    && (forall r :: r in rs ==> r < 0x80 ==> !Harmful(r))
    && (rs != [] ==> rs[0] != DOT)
  }

  lemma {:induction false} TrimKeeps(p: rune -> bool, rs: seq<rune>)
    ensures forall r :: r in Trim(p, rs) ==> r in rs
    ensures Trim(p, rs) != [] ==> !p(Trim(p, rs)[0]) && !p(Trim(p, rs)[|Trim(p, rs)| - 1])
  {
    TrimLeftKeeps(p, rs);
    TrimRightKeeps(p, TrimLeft(p, rs));
  }

  lemma {:induction false} TrimLeftKeeps(p: rune -> bool, rs: seq<rune>)
    ensures forall r :: r in TrimLeft(p, rs) ==> r in rs
    ensures TrimLeft(p, rs) != [] ==> !p(TrimLeft(p, rs)[0])
  {
    if rs != [] && p(rs[0]) {
      TrimLeftKeeps(p, rs[1..]);
    }
  }

  lemma {:induction false} TrimRightKeeps(p: rune -> bool, rs: seq<rune>)
    ensures TrimRight(p, rs) <= rs
    ensures TrimRight(p, rs) != [] ==> !p(TrimRight(p, rs)[|TrimRight(p, rs)| - 1])
  {
    if rs != [] && p(rs[|rs| - 1]) {
      TrimRightKeeps(p, rs[..|rs| - 1]);
    }
  }

  lemma {:induction false} KeptMembers(rs: seq<rune>)
    ensures forall r :: r in Kept(rs) ==> r in rs && !Forbidden(r)
  {
    if rs != [] {
      KeptMembers(rs[1..]);
    }
  }

  lemma {:induction false} LastComponentBytes(name: bytes)
    ensures forall b :: b in LastComponent(name) ==> !Separator(b)
  {
    if name != [] && !Separator(name[|name| - 1]) {
      LastComponentBytes(name[..|name| - 1]);
    }
  }

  lemma CleanedIsClean(name: bytes)
    ensures Clean(Cleaned(name))
  {
    var last := LastComponent(name);
    var kept := Kept(Runes(last));
    LastComponentBytes(name);
    KeptMembers(Runes(last));
    TrimKeeps(Space, kept);
    TrimKeeps(IsDot, Trim(Space, kept));
    forall r | r in Cleaned(name) && r < 0x80
      ensures !Harmful(r)
    {
      assert r in Runes(last);
      var k :| 0 <= k < |Runes(last)| && Runes(last)[k] == r;
      AsciiRune(last, k);
    }
  }

  lemma {:induction false} StemOfPrefix(s: bytes, k: nat)
    requires k <= |s|
    ensures Stem(s[..k]) == if k <= |Stem(s)| then s[..k] else Stem(s)
  {
    if k > 0 && s[0] != DOT {
      StemOfPrefix(s[1..], k - 1);
      assert s[..k][1..] == s[1..][..k - 1];
    }
  }

  lemma NoHarm(rs: seq<rune>, k: nat)
    requires Clean(rs) && k <= |Guarded(rs)|
    ensures forall b :: b in EncodeAll(Guarded(rs)[..k]) ==> !Harmful(b)
  {
    var gs := Guarded(rs)[..k];
    forall b | b in EncodeAll(gs)
      ensures !Harmful(b)
    {
      if b < 0x80 {
        AsciiByte(gs, b);
        assert b in Guarded(rs);
      }
    }
  }

  lemma CutLength(gs: seq<rune>, k: nat, out: bytes)
    requires LongestFit(gs, k, out)
    ensures out <= EncodeAll(gs)
    ensures if |EncodeAll(gs)| <= MAX_NAME then out == EncodeAll(gs) else |out| >= MAX_NAME - 3
  {
    EncodedPrefix(gs, k);
    assert gs[..|gs|] == gs;
  }

  /** The whole of it: the cut loses no more than the split character, and what is left has no
      harmful byte, is not hidden, and is no device name even after the cut. */
  lemma GuardedIsSafe(rs: seq<rune>, k: nat, out: bytes)
    requires Clean(rs) && LongestFit(Guarded(rs), k, out)
    ensures Safe(out)
    ensures var full := EncodeAll(Guarded(rs));
            if |full| <= MAX_NAME then out == full else |out| >= MAX_NAME - 3
  {
    var gs := Guarded(rs);
    CutLength(gs, k, out);
    assert ValidString(out) by {
      EncodedIsValid(gs[..k]);
    }
    NoHarm(rs, k);
    NotHidden(rs, k);
    NotADevice(rs);
    CutNotADevice(EncodeAll(gs), out);
  }

  lemma SanitisedIsSafe(name: bytes)
    ensures Safe(Sanitised(name))
  {
    var gs := Guarded(Cleaned(name));
    CleanedIsClean(name);
    FitCountFits(gs, MAX_NAME);
    GuardedIsSafe(Cleaned(name), FitCount(gs, MAX_NAME), Sanitised(name));
  }

  lemma NotHidden(rs: seq<rune>, k: nat)
    requires Clean(rs) && k <= |Guarded(rs)|
    ensures var out := EncodeAll(Guarded(rs)[..k]); out != [] ==> out[0] != DOT
  {
    if k > 0 {
      assert EncodeAll(Guarded(rs)[..k])[0] == Encode(Guarded(rs)[0])[0];
    }
  }

  lemma CutNotADevice(full: bytes, out: bytes)
    requires out <= full && (out == full || |out| > 4)
    requires !DeviceName(Upper(Stem(full)))
    ensures !DeviceName(Upper(Stem(out)))
  {
    StemOfPrefix(full, |out|);
    assert out == full[..|out|];
  }

  lemma NotADevice(rs: seq<rune>)
    ensures !DeviceName(Upper(Stem(EncodeAll(Guarded(rs)))))
  {
    if DeviceName(Upper(Stem(EncodeAll(rs)))) {
      var s := EncodeAll(Guarded(rs));
      assert s == [UNDERSCORE] + EncodeAll(rs);
      assert Stem(s)[0] == UNDERSCORE;
      assert Upper(Stem(s))[0] == UNDERSCORE;
    }
  }

  // ----- what the cut can leave behind

  predicate EndsInDot(s: bytes) {
    s != [] && s[|s| - 1] == DOT
  }

  lemma {:induction false} LastByte(rs: seq<rune>)
    requires rs != []
    ensures EndsInDot(EncodeAll(rs)) <==> rs[|rs| - 1] == DOT
  {
    var xs, r := rs[..|rs| - 1], rs[|rs| - 1];
    assert rs == xs + [r];
    EncodedLast(xs, r);
    assert EncodeAll(rs)[|EncodeAll(rs)| - 1] == Encode(r)[|Encode(r)| - 1];
  }

  /** Dots are trimmed from both ends, but before the cut: the name ends in one exactly when the
      first character that does not fit stands right behind a dot. */
  lemma DotOnlyFromCut(name: bytes)
    ensures var gs := Guarded(Cleaned(name)); var k := FitCount(gs, MAX_NAME);
            EndsInDot(Sanitised(name)) <==> 0 < k < |gs| && gs[k - 1] == DOT
  {
    var rs := Cleaned(name);
    var gs := Guarded(rs);
    var k := FitCount(gs, MAX_NAME);
    if k > 0 {
      LastByte(gs[..k]);
    }
    if k == |gs| && rs != [] {
      TrimKeeps(IsDot, Trim(Space, Kept(Runes(LastComponent(name)))));
      assert gs[..k] == gs && gs[|gs| - 1] == rs[|rs| - 1];
    }
  }

  // ----- a name that is good already

  /** ASCII without separators or forbidden characters. */
  predicate PlainBytes(s: bytes) {
    forall i :: 0 <= i < |s| ==> 0x20 <= s[i] < 0x7F && !Separator(s[i]) && !Forbidden(s[i])
  }

  /** The same, with something other than a space or a dot at both ends. */
  predicate Plain(s: bytes) {
    PlainBytes(s) && s != [] && s[0] !in {32, DOT} && s[|s| - 1] !in {32, DOT}
  }

  predicate AllAscii(s: bytes) {
    forall i :: 0 <= i < |s| ==> s[i] < 0x80
  }

  lemma {:induction false} AsciiRunes(s: bytes)
    requires AllAscii(s)
    ensures Runes(s) == s && EncodeAll(s) == s
  {
    if s != [] {
      AsciiRunes(s[1..]);
      assert s == [s[0]] + s[1..];
    }
  }

  lemma {:induction false} NothingForbidden(rs: seq<rune>)
    requires forall i :: 0 <= i < |rs| ==> !Forbidden(rs[i])
    ensures Kept(rs) == rs
  {
    if rs != [] {
      NothingForbidden(rs[1..]);
    }
  }

  lemma {:induction false} NoSeparator(s: bytes)
    requires forall i :: 0 <= i < |s| ==> !Separator(s[i])
    ensures LastComponent(s) == s
  {
    if s != [] {
      NoSeparator(s[..|s| - 1]);
      assert s == s[..|s| - 1] + [s[|s| - 1]];
    }
  }

  lemma {:induction false} AsciiFit(s: bytes, limit: nat)
    requires AllAscii(s)
    ensures FitCount(s, limit) == if |s| < limit then |s| else limit
  {
    if s != [] && limit > 0 {
      AsciiFit(s[1..], limit - 1);
    }
  }

  lemma PlainRunes(s: bytes)
    requires PlainBytes(s)
    ensures Kept(Runes(LastComponent(s))) == s && EncodeAll(s) == s
  {
    NoSeparator(s);
    AsciiRunes(s);
    NothingForbidden(s);
  }

  lemma PlainIsClean(s: bytes)
    requires Plain(s)
    ensures Cleaned(s) == s && EncodeAll(s) == s
  {
    PlainRunes(s);
    NothingToTrim(s);
  }

  /** Such a name is only ever cut, unless it is a device's. */
  lemma PlainIsKept(s: bytes)
    requires Plain(s) && !DeviceName(Upper(Stem(s)))
    ensures Guarded(Cleaned(s)) == s
    ensures Sanitised(s) == if |s| <= MAX_NAME then s else s[..MAX_NAME]
  {
    PlainIsClean(s);
    CutOfAscii(s);
  }

  /** A device's name gets an underscore in front. */
  lemma DeviceIsMarked(s: bytes)
    requires Plain(s) && DeviceName(Upper(Stem(s)))
    ensures Sanitised(s) == if |s| < MAX_NAME then [95] + s else [95] + s[..MAX_NAME - 1]
  {
    PlainIsClean(s);
    AsciiFront(UNDERSCORE, s);
    CutOfAscii([UNDERSCORE] + s);
    if |s| >= MAX_NAME {
      CutBehind(UNDERSCORE, s);
    }
  }

  lemma CutBehind(b: byte, s: bytes)
    requires |s| >= MAX_NAME
    ensures ([b] + s)[..MAX_NAME] == [b] + s[..MAX_NAME - 1]
  {
  }

  lemma AsciiFront(b: byte, s: bytes)
    requires AllAscii(s) && b < 0x80
    ensures AllAscii([b] + s)
  {
  }

  lemma CutOfAscii(s: bytes)
    requires AllAscii(s)
    ensures EncodeAll(s[..FitCount(s, MAX_NAME)]) == if |s| <= MAX_NAME then s else s[..MAX_NAME]
  {
    AsciiFit(s, MAX_NAME);
    AsciiRunes(s[..FitCount(s, MAX_NAME)]);
    assert s[..|s|] == s;
  }

  lemma NothingToTrim(rs: seq<rune>)
    requires rs != [] && !Space(rs[0]) && !Space(rs[|rs| - 1]) && !IsDot(rs[0]) && !IsDot(rs[|rs| - 1])
    ensures Trim(IsDot, Trim(Space, rs)) == rs
  {
  }

  lemma {:induction false} LongStem(s: bytes, n: nat)
    requires n <= |s| && DOT !in s[..n]
    ensures |Stem(s)| >= n
  {
    if n > 0 {
      assert s[0] == s[..n][0] && s[1..][..n - 1] == s[..n][1..];
      LongStem(s[1..], n - 1);
    }
  }

  ghost predicate Letters(s: bytes) {
    |s| == 119 && forall i :: 0 <= i < 119 ==> s[i] == 97
  }

  lemma PlainJoin(a: bytes, b: bytes)
    requires PlainBytes(a) && PlainBytes(b)
    ensures PlainBytes(a + b)
  {
  }

  lemma LettersArePlain(s: bytes)
    requires Letters(s)
    ensures PlainBytes(s) && Plain(s) && PlainBytes([DOT]) && !Space(s[0])
  {
  }

  lemma FirstTime(letters: bytes)
    requires Letters(letters)
    ensures Sanitised(letters + [DOT, 97]) == letters + [DOT]
  {
    var name := letters + [DOT, 97];
    LongStem(name, 119);
    PlainIsKept(name);
    assert name[..MAX_NAME] == letters + [DOT];
  }

  lemma SecondTime(letters: bytes)
    requires Letters(letters)
    ensures Sanitised(letters + [DOT]) == letters
  {
    LettersArePlain(letters);
    PlainJoin(letters, [DOT]);
    PlainRunes(letters + [DOT]);
    DotTrimmed(letters + [DOT], letters);
    LongStem(letters, 119);
    PlainIsKept(letters);
    PlainIsClean(letters);
  }

  lemma DotTrimmed(rs: seq<rune>, ls: seq<rune>)
    requires rs == ls + [DOT] && ls != [] && !IsDot(ls[0]) && !IsDot(ls[|ls| - 1]) && !Space(ls[0])
    ensures Trim(IsDot, Trim(Space, rs)) == ls
  {
    assert rs[..|ls|] == ls;
    assert TrimRight(IsDot, ls) == ls;
  }

  /** So "no trailing dot" is not what comes out of it for every name, and sanitising the result
      again can change it: 119 letters, a dot, and one letter more. */
  lemma DotLeftBehind() returns (name: bytes)
    ensures EndsInDot(Sanitised(name)) && Sanitised(Sanitised(name)) != Sanitised(name)
  {
    var letters: bytes := seq(119, i => 97);
    FirstTime(letters);
    SecondTime(letters);
    name := letters + [DOT, 97];
  }
}
