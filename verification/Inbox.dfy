/** The directory received files go to: the file calls the node makes in it, and reserving a
    name nobody else has. */
module Inbox {
  import opened Bytes
  import opened SafeName
  import opened Utf8
  import opened Wrappers

  // ----- candidate names

  function Decimal(n: nat): (s: bytes)
    ensures s != []
  {
    if n < 10 then [48 + n] else Decimal(n / 10) + [48 + n % 10]
  }

  lemma {:induction false} DecimalRoundTrip(n: nat)
    ensures FromDecimal(Decimal(n)) == n
  {
    var s := Decimal(n);
    if n >= 10 {
      DecimalRoundTrip(n / 10);
      assert s[..|s| - 1] == Decimal(n / 10);
    } else {
      assert s[..|s| - 1] == [];
    }
  }

  /** filepath.Ext: the last dot and what follows it. */
  function Ext(name: bytes): (e: bytes)
    ensures |e| <= |name| && e == name[|name| - |e|..]
  {
    if name == [] then []
    else if name[|name| - 1] == DOT then [DOT]
    else
      var e := Ext(name[..|name| - 1]);
      if e == [] then [] else e + [name[|name| - 1]]
  }

  function Number(n: nat): bytes {
    [32, 40] + (Decimal(n) + [41])
  }

  /** The name itself, then "stem (1).ext", "stem (2).ext" and so on. */
  function Candidate(name: bytes, n: nat): bytes {
    var ext := Ext(name);
    if n == 0 then name else name[..|name| - |ext|] + (Number(n) + ext)
  }

  lemma Middle(a: bytes, b: bytes, c: bytes)
    ensures (a + (b + c))[|a|..|a + (b + c)| - |c|] == b
  {
  }

  lemma NumbersDiffer(m: nat, n: nat)
    requires Number(m) == Number(n)
    ensures m == n
  {
    Middle([32, 40], Decimal(m), [41]);
    Middle([32, 40], Decimal(n), [41]);
    DecimalRoundTrip(m);
    DecimalRoundTrip(n);
  }

  lemma CandidatesDiffer(name: bytes, m: nat, n: nat)
    requires Candidate(name, m) == Candidate(name, n)
    ensures m == n
  {
    var stem := name[..|name| - |Ext(name)|];
    if m > 0 && n > 0 {
      Middle(stem, Number(m), Ext(name));
      Middle(stem, Number(n), Ext(name));
      NumbersDiffer(m, n);
    } else {
      assert |Candidate(name, m)| == |Candidate(name, n)|;
    }
  }

  const TRIES := 1000

  /** What an empty sanitised name falls back to: "blob". */
  const FALLBACK: bytes := [98, 108, 111, 98]

  function BaseName(name: bytes): bytes {
    if name == [] then FALLBACK else name
  }

  /** A name, if it is free and there is one, and "blob" if it is empty. */
  predicate OwnName(files: map<bytes, bytes>, name: bytes, dest: bytes) {
    && (name != [] && name !in files ==> dest == name)
    && (name == [] && Ascii("blob") !in files ==> dest == Ascii("blob"))
  }

  lemma FirstIsOwn(files: map<bytes, bytes>, name: bytes, n: nat)
    requires FirstFree(files, BaseName(name), n)
    ensures OwnName(files, name, Candidate(BaseName(name), n))
  {
    assert FALLBACK == Ascii("blob");
    assert n > 0 ==> Candidate(BaseName(name), 0) in files;
  }

  lemma {:induction false} ExtOf(stem: bytes, e: bytes)
    requires DOT !in e
    ensures Ext(stem + ([DOT] + e)) == [DOT] + e
    decreases |e|
  {
    var name := stem + ([DOT] + e);
    if e != [] {
      var front := e[..|e| - 1];
      assert e == front + [e[|e| - 1]];
      assert name[..|name| - 1] == stem + ([DOT] + front);
      ExtOf(stem, front);
    }
  }

  lemma {:induction false} NoExt(name: bytes)
    requires DOT !in name
    ensures Ext(name) == []
  {
    if name != [] {
      NoExt(name[..|name| - 1]);
    }
  }

  /** Without leading zeros, the highest digit first. */
  lemma DecimalIs(n: nat)
    requires n < 1000
    ensures Decimal(n) == if n < 10 then [48 + n] else if n < 100 then [48 + n / 10, 48 + n % 10]
                          else [48 + n / 100, 48 + n / 10 % 10, 48 + n % 10]
  {
    if n >= 10 {
      assert Decimal(n) == Decimal(n / 10) + [48 + n % 10];
    }
    if n >= 100 {
      assert Decimal(n / 10) == Decimal(n / 10 / 10) + [48 + n / 10 % 10];
      assert n / 10 / 10 == n / 100;
    }
  }

  /** The candidates of a name: itself first, then numbered in front of its last dot, or at the end
      when it has none. */
  lemma CandidatesAre(stem: bytes, e: bytes, n: nat)
    requires DOT !in e
    ensures Candidate(stem + ([DOT] + e), n) ==
            if n == 0 then stem + ([DOT] + e)
            else stem + (Ascii(" (") + (Decimal(n) + Ascii(")")) + ([DOT] + e))
    ensures Candidate(e, n) == if n == 0 then e else e + (Ascii(" (") + (Decimal(n) + Ascii(")")))
  {
    var name := stem + ([DOT] + e);
    assert Ascii(" (") == [32, 40] && Ascii(")") == [41];
    ExtOf(stem, e);
    NoExt(e);
    assert name[..|name| - |[DOT] + e|] == stem && e[..|e| - 0] == e;
    assert Number(n) + [] == Number(n);
  }

  /** The first candidate that is free. */
  ghost predicate FirstFree(files: map<bytes, bytes>, name: bytes, n: nat) {
    && n < TRIES && Candidate(name, n) !in files
    && forall k :: 0 <= k < n ==> Candidate(name, k) in files
  }

  // ----- every candidate is as safe as the name

  /** What the directory may hold: well-formed text without a separator or a harmful byte, not
      hidden, no device name, and short enough for any file system. */
  ghost predicate SafeFile(file: bytes) {
    && file != [] && |file| <= MAX_NAME + 6 && ValidString(file)
    && (forall b :: b in file ==> !Harmful(b))
    && file[0] != DOT && !DeviceName(Upper(Stem(file)))
  }

  lemma {:induction false} DecimalDigits(n: nat)
    ensures forall i :: 0 <= i < |Decimal(n)| ==> 48 <= Decimal(n)[i] <= 57
    ensures n < 10 ==> |Decimal(n)| == 1
    ensures n < 1000 ==> |Decimal(n)| <= 3
  {
    if n >= 10 {
      DecimalDigits(n / 10);
      assert n < 1000 ==> n / 10 / 10 < 10;
      assert n >= 100 ==> Decimal(n / 10) == Decimal(n / 10 / 10) + [48 + n / 10 % 10];
    }
  }

  lemma NumberIsHarmless(n: nat)
    requires n < TRIES
    ensures |Number(n)| <= 6 && ValidString(Number(n)) && DOT !in Number(n) && Number(n)[0] == 32
    ensures forall b :: b in Number(n) ==> !Harmful(b)
  {
    DecimalDigits(n);
    AsciiIsValid(Number(n));
  }

  lemma {:induction false} ExtStarts(name: bytes)
    ensures Ext(name) != [] ==> Ext(name)[0] == DOT
    ensures Ext(name) == [] ==> DOT !in name
  {
    if name != [] && name[|name| - 1] != DOT {
      ExtStarts(name[..|name| - 1]);
      assert name == name[..|name| - 1] + [name[|name| - 1]];
    }
  }

  lemma StemNext(s: bytes, first: byte, rest: bytes)
    requires s != [] && s[0] == first && s[1..] == rest
    ensures Stem(s) == if first == DOT then [] else [first] + Stem(rest)
  {
  }

  lemma {:induction false} StemOfJoin(a: bytes, b: bytes)
    ensures Stem(a + b) == if DOT in a then Stem(a) else a + Stem(b)
  {
    if a == [] {
      assert a + b == b;
    } else {
      var (first, rest) := (a[0], a[1..]);
      assert a == [first] + rest;
      StemNext(a, first, rest);
      StemNext(a + b, first, rest + b);
      if first != DOT {
        StemOfJoin(rest, b);
        Regroup([first], rest, Stem(b));
      }
    }
  }

  lemma DeviceLetters(u: bytes)
    requires DeviceName(u)
    ensures u != [] && u[0] != 66 && forall i :: 0 <= i < |u| ==> u[i] >= 49
  {
  }

  lemma SpacedIsNoDevice(s: bytes, i: nat)
    requires i < |s| && s[i] == 32
    ensures !DeviceName(Upper(s))
  {
    assert Upper(s)[i] == 32;
    if DeviceName(Upper(s)) {
      DeviceLetters(Upper(s));
    }
  }

  /** A number in front of the extension makes no device name. */
  lemma NumberedStem(stem: bytes, number: bytes, ext: bytes)
    requires number != [] && number[0] == 32
    ensures var s := Stem(stem + (number + ext));
            s == Stem(stem + ext) || (|stem| < |s| && s[|stem|] == 32)
  {
    StemOfJoin(stem, ext);
    StemOfJoin(stem, number + ext);
    if DOT !in stem {
      assert Stem(number + ext)[0] == (number + ext)[0] == 32;
    }
  }

  lemma NumberedIsNoDevice(stem: bytes, number: bytes, ext: bytes)
    requires !DeviceName(Upper(Stem(stem + ext)))
    requires number != [] && number[0] == 32
    ensures !DeviceName(Upper(Stem(stem + (number + ext))))
  {
    NumberedStem(stem, number, ext);
    var s := Stem(stem + (number + ext));
    if s != Stem(stem + ext) {
      SpacedIsNoDevice(s, |stem|);
    }
  }

  lemma NumberedIsValid(stem: bytes, number: bytes, ext: bytes)
    requires ValidString(stem + ext) && ValidString(number) && (ext != [] ==> ext[0] == DOT)
    ensures ValidString(stem + (number + ext))
  {
    if ext == [] {
      assert stem + ext == stem && number + ext == number;
    } else {
      ValidSplit(stem, ext);
      ValidAppend(number, ext);
    }
    ValidAppend(stem, number + ext);
  }

  lemma FallbackIsNoDevice()
    ensures !DeviceName(Upper(Stem(FALLBACK)))
  {
    var u := Upper(Stem(FALLBACK));
    assert Stem(FALLBACK)[0] == 98 && u[0] == 66;
    if DeviceName(u) {
      DeviceLetters(u);
    }
  }

  lemma FallbackIsHarmless()
    ensures forall b :: b in FALLBACK ==> !Harmful(b)
  {
  }

  lemma FallbackIsSafe()
    ensures Safe(FALLBACK)
  {
    AsciiIsValid(FALLBACK);
    FallbackIsHarmless();
    FallbackIsNoDevice();
  }

  lemma BaseIsSafe(name: bytes)
    requires Safe(name)
    ensures Safe(BaseName(name)) && BaseName(name) != []
  {
    FallbackIsSafe();
  }

  lemma Inserted(stem: bytes, number: bytes, ext: bytes)
    requires forall b :: b in stem + ext || b in number ==> !Harmful(b)
    requires stem + ext != [] && (stem + ext)[0] != DOT && number != [] && number[0] == 32
    ensures var s := stem + (number + ext); s[0] != DOT && forall b :: b in s ==> !Harmful(b)
  {
    var s := stem + (number + ext);
    assert stem != [] ==> s[0] == (stem + ext)[0];
    forall b | b in s
      ensures !Harmful(b)
    {
      assert b in number || b in stem || b in ext;
      assert b in stem || b in ext ==> b in stem + ext;
    }
  }

  lemma NumberedIsSafe(stem: bytes, n: nat, ext: bytes)
    requires Safe(stem + ext) && stem + ext != [] && n < TRIES && (ext != [] ==> ext[0] == DOT)
    ensures SafeFile(stem + (Number(n) + ext))
  {
    NumberIsHarmless(n);
    Inserted(stem, Number(n), ext);
    NumberedIsNoDevice(stem, Number(n), ext);
    NumberedIsValid(stem, Number(n), ext);
  }

  lemma UnnumberedIsSafe(name: bytes)
    requires Safe(name) && name != []
    ensures SafeFile(name)
  {
  }

  lemma ExtBehind(name: bytes)
    ensures name == name[..|name| - |Ext(name)|] + Ext(name)
  {
  }

  /** Whatever name was sanitised, and whichever candidate of it was free: the file is safe. */
  lemma CandidateIsSafe(name: bytes, n: nat)
    requires Safe(name) && n < TRIES
    ensures SafeFile(Candidate(BaseName(name), n))
  {
    var base := BaseName(name);
    BaseIsSafe(name);
    if n == 0 {
      UnnumberedIsSafe(base);
    } else {
      ExtBehind(base);
      ExtStarts(base);
      NumberedIsSafe(base[..|base| - |Ext(base)|], n, Ext(base));
    }
  }

  datatype ReserveError = TooMany | Disk

  // ----- the directory

  class Inbox {
    var files: map<bytes, bytes>
    const reliable: bool    // whether the disk never fails

    constructor (files: map<bytes, bytes>, reliable: bool)
      ensures this.files == files && this.reliable == reliable
    {
      this.files, this.reliable := files, reliable;
    }

    /** open with O_CREATE|O_EXCL: creates an empty file, or says it exists, or fails. */
    method CreateExclusive(path: bytes) returns (created: bool, taken: bool)
      modifies this
      ensures created ==> path !in old(files) && files == old(files)[path := []]
      ensures !created ==> files == old(files)
      ensures taken ==> !created && path in files
      ensures reliable ==> created || taken
    {
      var ok := Works(reliable);
      created, taken := ok && path !in files, ok && path in files;
      if created {
        files := files[path := []];
      }
    }

    /** Replaces the content of one file, or fails with that file in any state. */
    method Put(path: bytes, content: bytes) returns (ok: bool)
      modifies this
      ensures ok ==> files == old(files)[path := content]
      ensures !ok ==> files.Keys == old(files).Keys + {path}
      ensures !ok ==> forall p :: p in old(files) && p != path ==> files[p] == old(files)[p]
      ensures reliable ==> ok
    {
      ok := Works(reliable);
      files := files[path := content];
    }

    /** os.Remove. */
    method Remove(path: bytes) returns (ok: bool)
      modifies this
      ensures files == if ok then old(files) - {path} else old(files)
      ensures reliable ==> ok
    {
      ok := Works(reliable);
      if ok {
        files := files - {path};
      }
    }

    method Reserve(name: bytes) returns (r: Result<bytes, ReserveError>)
      modifies this
      ensures r.Ok? ==> exists n :: FirstFree(old(files), BaseName(name), n) && r.value == Candidate(BaseName(name), n)
      // the name itself, when nothing has it yet
      ensures r.Ok? ==> OwnName(old(files), name, r.value)
      ensures r.Ok? ==> files == old(files)[r.value := []]
      ensures r.Err? ==> files == old(files)
      ensures r == Err(TooMany) ==> forall k :: 0 <= k < 1000 ==> Candidate(BaseName(name), k) in files
      ensures reliable ==> r.Ok? || r == Err(TooMany)
    {
      var base := BaseName(name);
      for n := 0 to TRIES
        invariant files == old(files)
        invariant forall k :: 0 <= k < n ==> Candidate(base, k) in files
      {
        var path := Candidate(base, n);
        var created, taken := CreateExclusive(path);
        if created {
          assert FirstFree(old(files), base, n);
          FirstIsOwn(old(files), name, n);
          return Ok(path);
        }
        if !taken {
          return Err(Disk);
        }
      }
      return Err(TooMany);
    }
  }

  // ----- many transfers at once

  /** One inbound transfer as the directory sees it. */
  datatype Phase =
    | Trying(n: nat)
    | Holding(path: bytes)    // reserved, being written
    | Kept(path: bytes)       // finished and verified
    | Stuck(path: bytes)      // failed, and its partial file could not be removed
    | GaveUp

  datatype Transfer = Transfer(name: bytes, phase: Phase)

  datatype Scene = Scene(files: map<bytes, bytes>, transfers: seq<Transfer>)

  predicate Owns(t: Transfer) {
    t.phase.Holding? || t.phase.Kept? || t.phase.Stuck?
  }

  ghost predicate MoveTo(s: Scene, s': Scene, i: nat, files: map<bytes, bytes>, p: Phase) {
    && i < |s.transfers|
    && s' == Scene(files, s.transfers[i := s.transfers[i].(phase := p)])
  }

  /** One atomic file call by transfer i: an exclusive create that wins, finds the name taken or
      fails, a write of some content, the final keep, or the removal of a partial file, which may
      fail and leave it behind. */
  ghost predicate SceneStep(s: Scene, s': Scene, i: nat, content: bytes) {
    && i < |s.transfers|
    && var t := s.transfers[i];
       match t.phase
       case Trying(n) =>
         var path := Candidate(BaseName(t.name), n);
         || MoveTo(s, s', i, s.files, GaveUp)
         || (n < TRIES && if path in s.files then MoveTo(s, s', i, s.files, Trying(n + 1))
                          else MoveTo(s, s', i, s.files[path := []], Holding(path)))
       case Holding(path) =>
         || MoveTo(s, s', i, s.files[path := content], Holding(path))
         || MoveTo(s, s', i, s.files, Kept(path))
         || MoveTo(s, s', i, s.files - {path}, GaveUp)
         || MoveTo(s, s', i, s.files, Stuck(path))
       case _ => false
  }

  ghost predicate SceneNext(s: Scene, s': Scene) {
    exists i, content :: SceneStep(s, s', i, content)
  }

  ghost predicate OwnsOne(before: map<bytes, bytes>, s: Scene, t: Transfer) {
    Owns(t) ==> t.phase.path in s.files && t.phase.path !in before
  }

  ghost predicate Apart(t: Transfer, u: Transfer) {
    Owns(t) && Owns(u) ==> t.phase.path != u.phase.path
  }

  /** Every owned path exists, is nobody else's and was not there at the start; every file
      that was there at the start is as it was. */
  ghost predicate SceneInv(before: map<bytes, bytes>, s: Scene) {
    && (forall i :: 0 <= i < |s.transfers| ==> OwnsOne(before, s, s.transfers[i]))
    && (forall i, j :: 0 <= i < |s.transfers| && 0 <= j < |s.transfers| && i != j ==>
          Apart(s.transfers[i], s.transfers[j]))
    && (forall p :: p in before ==> p in s.files && s.files[p] == before[p])
  }

  lemma SceneStepKeepsInv(before: map<bytes, bytes>, s: Scene, s': Scene, i: nat, content: bytes)
    requires SceneInv(before, s) && SceneStep(s, s', i, content)
    ensures SceneInv(before, s')
    // a file that was kept stays, with the content it was kept with
    ensures forall j :: 0 <= j < |s.transfers| && s.transfers[j].phase.Kept? ==>
              var p := s.transfers[j].phase.path;
              s'.transfers[j] == s.transfers[j] && p in s.files && p in s'.files && s'.files[p] == s.files[p]
  {
    assert OwnsOne(before, s, s.transfers[i]);
    forall j | 0 <= j < |s.transfers| && j != i
      ensures OwnsOne(before, s', s.transfers[j]) && Apart(s'.transfers[i], s.transfers[j])
      ensures s.transfers[j].phase.Kept? ==>
                var p := s.transfers[j].phase.path;
                p in s.files && p in s'.files && s'.files[p] == s.files[p]
    {
      assert OwnsOne(before, s, s.transfers[j]) && Apart(s.transfers[i], s.transfers[j]);
    }
    forall j, k | 0 <= j < |s.transfers| && 0 <= k < |s.transfers| && j != k
      ensures Apart(s'.transfers[j], s'.transfers[k])
    {
      assert Apart(s.transfers[j], s.transfers[k]);
    }
  }

  ghost predicate SceneRun(run: seq<Scene>) {
    forall k :: 0 < k < |run| ==> SceneNext(run[k - 1], run[k])
  }

  /** In every interleaving of any number of transfers, at every moment: the names they hold
      are pairwise distinct and were free, and no file that was there before has changed. */
  lemma {:induction false} ReservationsNeverClash(before: map<bytes, bytes>, run: seq<Scene>)
    requires run != [] && run[0].files == before && SceneRun(run)
    requires forall t :: t in run[0].transfers ==> t.phase == Trying(0)
    ensures SceneInv(before, run[|run| - 1])
  {
    var n := |run| - 1;
    if n > 0 {
      ReservationsNeverClash(before, run[..n]);
      var s, s' := run[n - 1], run[n];
      assert SceneNext(s, s');
      var i, content :| SceneStep(s, s', i, content);
      SceneStepKeepsInv(before, s, s', i, content);
    }
  }
}
