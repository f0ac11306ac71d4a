/** What becomes of a process's output on its way to the dispatcher: kept up to a limit, stored
    inline or turned into a failure, and carried in a response as base64. It is never cut short
    without saying so. */
module Output {
  import opened Bytes
  import Stream
  import opened TaskStore
  import opened Wire
  import opened Wrappers

  const MAX_RUN_OUTPUT := 0x10_0000    // what Bare.Run keeps of stdout
  const MAX_STDERR := 4096

  // ----- cappedBuffer

  function Joined(ps: seq<bytes>): bytes {
    if ps == [] then [] else ps[0] + Joined(ps[1..])
  }

  lemma {:induction false} JoinedLast(ps: seq<bytes>, p: bytes)
    ensures Joined(ps + [p]) == Joined(ps) + p
  {
    if ps == [] {
      assert [p][1..] == [] && ps + [p] == [p];
    } else {
      JoinedLast(ps[1..], p);
      assert (ps + [p])[1..] == ps[1..] + [p];
    }
  }

  function Prefix(s: bytes, n: nat): bytes {
    if |s| <= n then s else s[..n]
  }

  class CappedBuffer {
    var buf: bytes
    const limit: nat
    var overflow: bool
    ghost var writes: seq<bytes>    // everything the process wrote

    constructor (limit: nat)
      ensures Valid() && this.limit == limit && writes == []
    {
      this.limit, buf, overflow, writes := limit, [], false, [];
    }

    /** The buffer holds exactly the first `limit` bytes of everything written, and overflow tells
        exactly whether that is not all of it. */
    ghost predicate Valid()
      reads this
    {
      && buf == Prefix(Joined(writes), limit)
      && (overflow <==> |Joined(writes)| > limit)
    }

    /** Every write reports success in full. */
    method Write(p: bytes) returns (n: nat)
      requires Valid()
      modifies this
      ensures Valid() && writes == old(writes) + [p] && n == |p|
    {
      JoinedLast(writes, p);
      writes := writes + [p];
      var room := limit - |buf|;
      if room < |p| {
        overflow := true;
        if room > 0 {
          buf := buf + p[..room];
        }
        return |p|;
      }
      buf := buf + p;
      return |p|;
    }
  }

  // ----- Bare.Run

  datatype RunError = ExitError(stderr: bytes) | OutputExceeded

  /** What a process wrote, in the pieces the pipes delivered, and whether it exited cleanly. */
  datatype Process = Process(stdout: seq<bytes>, stderr: seq<bytes>, clean: bool)

  function RunResult(p: Process): Result<bytes, RunError> {
    if !p.clean then Err(ExitError(Prefix(Joined(p.stderr), MAX_STDERR)))
    else if |Joined(p.stdout)| > MAX_RUN_OUTPUT then Err(OutputExceeded)
    else Ok(Joined(p.stdout))
  }

  method Run(p: Process) returns (r: Result<bytes, RunError>)
    ensures r == RunResult(p)
    // a clean exit with at most 1 MiB of output is the only success; a failure quotes 4 KiB of stderr
    ensures r.Ok? <==> p.clean && |Joined(p.stdout)| <= 1024 * 1024
    ensures r.Ok? ==> r.value == Joined(p.stdout)
    ensures !p.clean ==> r == Err(ExitError(Prefix(Joined(p.stderr), 4 * 1024)))
  {
    var stdout := new CappedBuffer(MAX_RUN_OUTPUT);
    var stderr := new CappedBuffer(MAX_STDERR);
    for i := 0 to |p.stdout|
      invariant stdout.Valid() && stdout.limit == MAX_RUN_OUTPUT && stdout.writes == p.stdout[..i]
      invariant stderr.Valid() && stderr.writes == []
    {
      var _ := stdout.Write(p.stdout[i]);
      assert p.stdout[..i + 1] == p.stdout[..i] + [p.stdout[i]];
    }
    for i := 0 to |p.stderr|
      invariant stdout.Valid() && stdout.limit == MAX_RUN_OUTPUT && stdout.writes == p.stdout
      invariant stderr.Valid() && stderr.limit == MAX_STDERR && stderr.writes == p.stderr[..i]
    {
      var _ := stderr.Write(p.stderr[i]);
      assert p.stderr[..i + 1] == p.stderr[..i] + [p.stderr[i]];
    }
    assert p.stdout[..|p.stdout|] == p.stdout && p.stderr[..|p.stderr|] == p.stderr;
    if !p.clean {
      return Err(ExitError(stderr.buf));
    }
    if stdout.overflow {
      return Err(OutputExceeded);
    }
    return Ok(stdout.buf);
  }

  /** The row a run leaves behind: the outcome stored by finishTask. */
  function RowOfRun(row: Row, p: Process, cancelled: bool, explain: RunError -> string, now: int): Row {
    match RunResult(p)
    case Ok(out) => Settled(row, Done, out, "", now)
    case Err(e) => Settled(row, if cancelled then Interrupted else Failed, [], explain(e), now)
  }

  /** A stored result is never a part of one: a row is done exactly when the process exited cleanly
      and its whole output fits, and then it holds all of it; any other row holds none of it. */
  lemma DoneIsComplete(row: Row, p: Process, cancelled: bool, explain: RunError -> string, now: int)
    ensures var r := RowOfRun(row, p, cancelled, explain, now);
            && (r.status == Done <==> p.clean && |Joined(p.stdout)| <= MAX_OUTPUT)
            && r.output == (if r.status == Done then Joined(p.stdout) else [])
            && Terminal(r.status)
  {
  }

  // ----- base64, section 4 of RFC 4648

  const PAD: byte := 61

  function Letter(v: int): byte
    requires 0 <= v < 64
  {
    if v < 26 then 65 + v else if v < 52 then 71 + v else if v < 62 then v - 4 else if v == 62 then 43 else 47
  }

  function Value(c: byte): (v: Option<int>)
    ensures v.Some? ==> 0 <= v.value < 64 && Letter(v.value) == c
  {
    if 65 <= c <= 90 then Some(c as int - 65)
    else if 97 <= c <= 122 then Some(c as int - 71)
    else if 48 <= c <= 57 then Some(c as int + 4)
    else if c == 43 then Some(62)
    else if c == 47 then Some(63)
    else None
  }

  lemma ValueOfLetter(v: int)
    requires 0 <= v < 64
    ensures Value(Letter(v)) == Some(v) && Letter(v) != PAD
  {
  }

  /** Table 1 of RFC 4648: upper case, lower case, digits, plus, slash. */
  lemma AlphabetIs(v: int)
    requires 0 <= v < 64
    ensures v < 26 ==> Letter(v) == 'A' as int + v
    ensures 26 <= v < 52 ==> Letter(v) == 'a' as int + (v - 26)
    ensures 52 <= v < 62 ==> Letter(v) == '0' as int + (v - 52)
    ensures v == 62 ==> Letter(v) == '+' as int
    ensures v == 63 ==> Letter(v) == '/' as int
  {
  }

  /** Four letters are the 24 bits of three bytes, the highest six first. */
  lemma GroupBits(x: byte, y: byte, z: byte) returns (a: nat, b: nat, c: nat, d: nat)
    ensures a < 64 && b < 64 && c < 64 && d < 64
    ensures ((a * 64 + b) * 64 + c) * 64 + d == (x as int * 256 + y) * 256 + z
    ensures Encode([x, y, z]) == [Letter(a), Letter(b), Letter(c), Letter(d)]
  {
    a, b, c, d := x / 4, x % 4 * 16 + y / 16, y % 16 * 4 + z / 64, z % 64;
    SixBits(x, y, z);
    EncodeMore([x, y, z]);
    assert [x, y, z][3..] == [];
  }

  lemma SixBits(x: nat, y: nat, z: nat)
    ensures ((x / 4 * 64 + (x % 4 * 16 + y / 16)) * 64 + (y % 16 * 4 + z / 64)) * 64 + z % 64
            == (x * 256 + y) * 256 + z
  {
    assert x == x / 4 * 4 + x % 4 && y == y / 16 * 16 + y % 16 && z == z / 64 * 64 + z % 64;
  }

  /** From section 10 of RFC 4648. */
  lemma Vectors()
    ensures Encode(Ascii("f")) == Ascii("Zg==") && Encode(Ascii("fo")) == Ascii("Zm8=")
    ensures Encode(Ascii("foo")) == Ascii("Zm9v")
  {
    Inputs();
    EncodeOne(102);
    EncodeTwo(102, 111);
    EncodeThree(102, 111, 111);
    Encoded();
  }

  lemma Inputs()
    ensures Ascii("f") == [102] && Ascii("fo") == [102, 111] && Ascii("foo") == [102, 111, 111]
  {
  }

  lemma Encoded()
    ensures Ascii("Zg==") == [90, 103, 61, 61] && Ascii("Zm8=") == [90, 109, 56, 61]
    ensures Ascii("Zm9v") == [90, 109, 57, 118]
  {
  }

  lemma EncodeOne(x: byte)
    ensures Encode([x]) == [Letter(x / 4), Letter(x % 4 * 16), PAD, PAD]
  {
  }

  lemma EncodeTwo(x: byte, y: byte)
    ensures Encode([x, y]) == [Letter(x / 4), Letter(x % 4 * 16 + y / 16), Letter(y % 16 * 4), PAD]
  {
  }

  lemma EncodeThree(x: byte, y: byte, z: byte)
    ensures Encode([x, y, z]) == Group(x, y, z)
  {
    EncodeMore([x, y, z]);
    assert [x, y, z][3..] == [];
  }

  function Group(x: byte, y: byte, z: byte): bytes {
    [Letter(x / 4), Letter(x % 4 * 16 + y / 16), Letter(y % 16 * 4 + z / 64), Letter(z % 64)]
  }

  function Encode(s: bytes): bytes {
    if |s| == 0 then []
    else if |s| == 1 then [Letter(s[0] / 4), Letter(s[0] % 4 * 16), PAD, PAD]
    else if |s| == 2 then [Letter(s[0] / 4), Letter(s[0] % 4 * 16 + s[1] / 16), Letter(s[1] % 16 * 4), PAD]
    else Group(s[0], s[1], s[2]) + Encode(s[3..])
  }

  function Byte(n: int): byte {
    n % 256
  }

  /** A decoder that takes the bits the encoder put in and ignores the unused ones. */
  function Decode(s: bytes): Option<bytes> {
    if |s| == 0 then Some([])
    else if |s| < 4 then None
    else
      var (a, b) := (Value(s[0]), Value(s[1]));
      if a.None? || b.None? then None
      else
        var first := Byte(a.value * 4 + b.value / 16);
        if s[2] == PAD then if s[3] == PAD && |s| == 4 then Some([first]) else None
        else
          var c := Value(s[2]);
          if c.None? then None
          else
            var second := Byte(b.value * 16 + c.value / 4);
            if s[3] == PAD then if |s| == 4 then Some([first, second]) else None
            else
              var d := Value(s[3]);
              if d.None? then None
              else
                match Decode(s[4..])
                case None => None
                case Some(rest) => Some([first, second, Byte(c.value * 64 + d.value)] + rest)
  }

  /** Three bytes are put back together from the four letters they went into. */
  lemma GroupRoundTrip(x: byte, y: byte, z: byte)
    ensures Byte(x / 4 * 4 + (x % 4 * 16 + y / 16) / 16) == x
    ensures Byte((x % 4 * 16 + y / 16) * 16 + (y % 16 * 4 + z / 64) / 4) == y
    ensures Byte((y % 16 * 4 + z / 64) * 64 + z % 64) == z
  {
    assert (x % 4 * 16 + y / 16) / 16 == x % 4;
    assert (y % 16 * 4 + z / 64) / 4 == y % 16;
    LowByte(x % 4, y, (x % 4 * 16 + y / 16) * 16 + y % 16);
    LowByte(y % 16, z, (y % 16 * 4 + z / 64) * 64 + z % 64);
  }

  lemma LowByte(hi: nat, lo: byte, n: nat)
    requires n == hi * 256 + lo
    ensures Byte(n) == lo
  {
  }

  lemma LettersOf(x: byte, y: byte, z: byte)
    ensures Value(Letter(x / 4)) == Some(x / 4)
    ensures Value(Letter(x % 4 * 16 + y / 16)) == Some(x % 4 * 16 + y / 16)
    ensures var c := y % 16 * 4 + z / 64; Value(Letter(c)) == Some(c) && Letter(c) != PAD
    ensures Value(Letter(z % 64)) == Some(z % 64) && Letter(z % 64) != PAD
  {
    ValueOfLetter(x / 4);
    ValueOfLetter(x % 4 * 16 + y / 16);
    ValueOfLetter(y % 16 * 4 + z / 64);
    ValueOfLetter(z % 64);
  }

  lemma DecodeGroup(x: byte, y: byte, z: byte, tail: bytes, rest: bytes)
    requires Decode(tail) == Some(rest)
    ensures Decode(Group(x, y, z) + tail) == Some([x, y, z] + rest)
  {
    LettersOf(x, y, z);
    GroupRoundTrip(x, y, z);
    var s := Group(x, y, z) + tail;
    assert s[0] == Letter(x / 4) && s[1] == Letter(x % 4 * 16 + y / 16);
    assert s[2] == Letter(y % 16 * 4 + z / 64) && s[3] == Letter(z % 64);
    assert s[4..] == tail;
  }

  lemma DecodeOne(x: byte)
    ensures Decode([Letter(x / 4), Letter(x % 4 * 16), PAD, PAD]) == Some([x])
  {
    LettersOf(x, 0, 0);
    GroupRoundTrip(x, 0, 0);
  }

  lemma DecodeTwo(x: byte, y: byte)
    ensures Decode([Letter(x / 4), Letter(x % 4 * 16 + y / 16), Letter(y % 16 * 4), PAD]) == Some([x, y])
  {
    LettersOf(x, y, 0);
    GroupRoundTrip(x, y, 0);
  }

  lemma FirstThree(s: bytes)
    requires |s| >= 3
    ensures s == [s[0], s[1], s[2]] + s[3..]
  {
  }

  lemma EncodeMore(s: bytes)
    requires |s| >= 3
    ensures Encode(s) == Group(s[0], s[1], s[2]) + Encode(s[3..])
  {
  }

  lemma {:induction false} DecodeOfEncode(s: bytes)
    ensures Decode(Encode(s)) == Some(s)
  {
    if |s| == 1 {
      DecodeOne(s[0]);
      assert s == [s[0]];
    } else if |s| == 2 {
      DecodeTwo(s[0], s[1]);
      assert s == [s[0], s[1]];
    } else if |s| > 2 {
      DecodeOfEncode(s[3..]);
      EncodeMore(s);
      DecodeGroup(s[0], s[1], s[2], Encode(s[3..]), s[3..]);
      FirstThree(s);
    }
  }

  lemma {:induction false} EncodedLength(s: bytes)
    ensures |Encode(s)| == (|s| + 2) / 3 * 4
  {
    if |s| > 2 {
      EncodedLength(s[3..]);
    }
  }

  // ----- the response of a done task

  const DONE_HEAD := "{\"status\":\"done\",\"output\":\""
  const DONE_TAIL := "\"}"

  /** The body encoding/json makes of a done response: empty output is left out. */
  function DoneBody(output: bytes): bytes {
    if output == [] then Ascii("{\"status\":\"done\"}") else Ascii(DONE_HEAD) + Encode(output) + Ascii(DONE_TAIL)
  }

  lemma AsciiJoin(a: string, b: string)
    ensures Ascii(a + b) == Ascii(a) + Ascii(b)
  {
  }

  /** The body for the output "f", and for none. */
  lemma DoneText()
    ensures DoneBody(Ascii("f")) == Ascii("{\"status\":\"done\",\"output\":\"Zg==\"}")
    ensures DoneBody([]) == Ascii("{\"status\":\"done\"}")
  {
    Vectors();
    AsciiJoin(DONE_HEAD, "Zg==");
    AsciiJoin(DONE_HEAD + "Zg==", DONE_TAIL);
    assert DONE_HEAD + "Zg==" + DONE_TAIL == "{\"status\":\"done\",\"output\":\"Zg==\"}";
  }

  /** A done response fits its frame exactly up to 98280 bytes of output, so the 65536 a row can
      hold always fit. */
  lemma DoneFits(output: bytes)
    ensures |DoneBody(output)| <= RESULT.cap <==> |output| <= 98280
  {
    EncodedLength(output);
    assert |DONE_HEAD| == 27 && |DONE_TAIL| == 2;
  }

  /** Every done row is servable: its response is accepted by writer and reader alike, and the
      output that arrives is the output that was stored. */
  lemma DoneIsServable(output: bytes, rest: bytes, ending: Stream.Ending)
    requires |output| <= MAX_OUTPUT
    ensures var body := DoneBody(output);
            && |body| <= RESULT.cap
            && ParseRaw(RESULT, PrintRaw(RESULT, Raw(Tag(RESULT), body)) + rest, ending)
               == Got(Raw(Tag(RESULT), body), rest)
            && (output != [] ==>
                  && |DONE_HEAD| + |DONE_TAIL| <= |body|
                  && Decode(body[|DONE_HEAD|..|body| - |DONE_TAIL|]) == Some(output))
  {
    var body := DoneBody(output);
    DoneFits(output);
    ShapesSound();
    ParseOfPrint(RESULT, Raw(Tag(RESULT), body), rest, ending);
    DecodeOfEncode(output);
    if output != [] {
      assert body[|DONE_HEAD|..|body| - |DONE_TAIL|] == Encode(output);
    }
  }
}
