/** Every message of the node is one frame: a fixed header that ends in a big-endian body
    length, then that many body bytes. This module has the printers and parsers of all of
    them, the stream reads and writes that do the same work on a live connection, and the
    proofs that the two agree and undo each other. */
module Wire {
  import opened Bytes
  import opened Stream
  import opened Wrappers

  // ----- the shared layout

  /** `tag` header bytes (index, status or version), then `width` bytes of length, then the
      body. A length above `cap` is refused before any of the body is read. */
  datatype Shape = Shape(tag: nat, width: nat, cap: nat, version: Option<byte>) {
    predicate Sound() {
      cap < Pow256(width) && (version.Some? ==> tag > 0)
    }
  }

  const HELLO := Shape(0, 4, 64 * 1024, None)
  const MANIFEST := Shape(0, 4, 0x400_0000, None)
  const CHUNK := Shape(4, 4, 0x400_0000, None)
  const VERDICT := Shape(1, 2, 1024, None)
  const TASK := Shape(1, 4, 64 * 1024, Some(1))
  const RESULT := Shape(1, 4, 128 * 1024, Some(1))

  lemma ShapesSound()
    ensures HELLO.Sound() && MANIFEST.Sound() && CHUNK.Sound()
    ensures VERDICT.Sound() && TASK.Sound() && RESULT.Sound()
  {
    Pow256Values();
  }

  datatype Raw = Raw(tag: bytes, body: bytes)

  datatype WireError =
    | Io(io: IoError)
    | WrongVersion(got: byte)
    | TooLong(length: nat)
    | UnknownStatus
    | Undecodable

  /** What one read returns and the bytes it leaves on the stream. */
  datatype Parsed<+T> =
    | Got(value: T, rest: bytes)
    | Bad(error: WireError, rest: bytes)

  function Take(s: bytes, n: nat, ending: Ending): Parsed<bytes> {
    if |s| >= n then Got(s[..n], s[n..]) else Bad(Io(Shortfall(|s|, ending)), [])
  }

  ghost predicate Fits(sh: Shape, raw: Raw) {
    && |raw.tag| == sh.tag
    && |raw.body| <= sh.cap
    && (sh.version.Some? && sh.tag > 0 ==> raw.tag[0] == sh.version.value)
  }

  function PrintRaw(sh: Shape, raw: Raw): bytes {
    raw.tag + Be(sh.width, |raw.body|) + raw.body
  }

  function ParseBody(sh: Shape, hdr: bytes, s: bytes, ending: Ending): Parsed<Raw>
    requires |hdr| == sh.tag + sh.width
  {
    if sh.version.Some? && sh.tag > 0 && hdr[0] != sh.version.value then Bad(WrongVersion(hdr[0]), s)
    else
      var n := FromBe(hdr[sh.tag..]);
      if n > sh.cap then Bad(TooLong(n), s)
      else
        match Take(s, n, ending)
        case Got(body, rest) => Got(Raw(hdr[..sh.tag], body), rest)
        case Bad(e, rest) => Bad(e, rest)
  }

  function ParseRaw(sh: Shape, s: bytes, ending: Ending): Parsed<Raw> {
    match Take(s, sh.tag + sh.width, ending)
    case Got(hdr, rest) => ParseBody(sh, hdr, rest, ending)
    case Bad(e, rest) => Bad(e, rest)
  }

  /** A printed frame starts with its header, and the header reads back as the length. */
  lemma HeaderOf(sh: Shape, raw: Raw, rest: bytes)
    requires |raw.tag| == sh.tag && |raw.body| < Pow256(sh.width)
    ensures var s := PrintRaw(sh, raw) + rest; var h := sh.tag + sh.width;
            && |s| >= h && s[h..] == raw.body + rest
            && s[..h][..sh.tag] == raw.tag && FromBe(s[..h][sh.tag..]) == |raw.body|
  {
    FromBeOfBe(sh.width, |raw.body|);
    var s := PrintRaw(sh, raw) + rest;
    assert s[..sh.tag + sh.width][sh.tag..] == Be(sh.width, |raw.body|);
    assert s[sh.tag + sh.width..] == raw.body + rest;
    assert s[..sh.tag + sh.width][..sh.tag] == raw.tag;
  }

  /** Reading a printed frame gives back the frame and exactly what followed it. The cap is
      the whole condition: a longer body is refused with all of it still unread. */
  lemma ParseOfPrint(sh: Shape, raw: Raw, rest: bytes, ending: Ending)
    requires sh.Sound() && |raw.tag| == sh.tag && |raw.body| < Pow256(sh.width)
    requires sh.version.Some? ==> raw.tag[0] == sh.version.value
    ensures ParseRaw(sh, PrintRaw(sh, raw) + rest, ending) ==
            if |raw.body| <= sh.cap then Got(raw, rest) else Bad(TooLong(|raw.body|), raw.body + rest)
  {
    HeaderOf(sh, raw, rest);
    var s := PrintRaw(sh, raw) + rest;
    var h := sh.tag + sh.width;
    if sh.version.Some? {
      assert s[..h][0] == s[..h][..sh.tag][0];
    }
    assert (raw.body + rest)[..|raw.body|] == raw.body;
    assert (raw.body + rest)[|raw.body|..] == rest;
  }

  lemma HeaderRead(sh: Shape, s: bytes, ending: Ending)
    requires |s| >= sh.tag + sh.width
    ensures var h := sh.tag + sh.width;
            ParseRaw(sh, s, ending) == ParseBody(sh, s[..h], s[h..], ending)
  {
  }

  lemma BodyRead(sh: Shape, hdr: bytes, s: bytes, ending: Ending)
    requires |hdr| == sh.tag + sh.width && ParseBody(sh, hdr, s, ending).Got?
    ensures var n := FromBe(hdr[sh.tag..]);
            && n <= |s| && n <= sh.cap
            && ParseBody(sh, hdr, s, ending) == Got(Raw(hdr[..sh.tag], s[..n]), s[n..])
    ensures sh.version.Some? && sh.tag > 0 ==> hdr[0] == sh.version.value
  {
  }

  lemma Reprint(sh: Shape, hdr: bytes, body: bytes, rest: bytes)
    requires |hdr| == sh.tag + sh.width && |body| == FromBe(hdr[sh.tag..])
    ensures PrintRaw(sh, Raw(hdr[..sh.tag], body)) + rest == hdr + (body + rest)
  {
    BeOfFromBe(hdr[sh.tag..]);
    assert hdr[..sh.tag] + hdr[sh.tag..] == hdr;
    Regroup(hdr, body, rest);
  }

  /** Whatever a read accepts is a printed frame that fits, so no two frames look alike. */
  lemma PrintOfParse(sh: Shape, s: bytes, ending: Ending)
    requires sh.Sound() && ParseRaw(sh, s, ending).Got?
    ensures var p := ParseRaw(sh, s, ending);
            Fits(sh, p.value) && s == PrintRaw(sh, p.value) + p.rest
  {
    var h := sh.tag + sh.width;
    var hdr, rest := s[..h], s[h..];
    var n := FromBe(hdr[sh.tag..]);
    HeaderRead(sh, s, ending);
    BodyRead(sh, hdr, rest, ending);
    Reprint(sh, hdr, rest[..n], rest[n..]);
    assert rest[..n] + rest[n..] == rest && hdr + rest == s;
  }

  /** Cut anywhere, a frame is an error that says the stream ended early. */
  lemma PrefixIsShort(sh: Shape, raw: Raw, k: nat)
    requires sh.Sound() && Fits(sh, raw) && k < |PrintRaw(sh, raw)|
    ensures var h := sh.tag + sh.width;
            ParseRaw(sh, PrintRaw(sh, raw)[..k], Closed) ==
              Bad(Io(if k == 0 || k == h then Eof else UnexpectedEof), [])
  {
    var s := PrintRaw(sh, raw);
    var h := sh.tag + sh.width;
    assert s + [] == s;
    HeaderOf(sh, raw, []);
    if k >= h {
      assert s[..k][..h] == s[..h];
      assert |s[..k][h..]| == k - h < |raw.body|;
      if sh.version.Some? {
        assert s[..h][0] == s[..h][..sh.tag][0];
      }
    }
  }

  // ----- streams of frames

  datatype Frame = Frame(shape: Shape, raw: Raw)

  ghost predicate FrameFits(f: Frame) {
    f.shape.Sound() && Fits(f.shape, f.raw)
  }

  function PrintAll(fs: seq<Frame>): bytes {
    if fs == [] then [] else PrintRaw(fs[0].shape, fs[0].raw) + PrintAll(fs[1..])
  }

  function ParseAll(shapes: seq<Shape>, s: bytes, ending: Ending): Parsed<seq<Frame>> {
    if shapes == [] then Got([], s)
    else
      match ParseRaw(shapes[0], s, ending)
      case Bad(e, rest) => Bad(e, rest)
      case Got(raw, rest) =>
        match ParseAll(shapes[1..], rest, ending)
        case Bad(e, rest') => Bad(e, rest')
        case Got(fs, rest') => Got([Frame(shapes[0], raw)] + fs, rest')
  }

  function Shapes(fs: seq<Frame>): seq<Shape> {
    seq(|fs|, i requires 0 <= i < |fs| => fs[i].shape)
  }

  /** Reads stay aligned over any mix of frames back to back, and stop where they should. */
  lemma {:induction false} StreamRoundTrip(fs: seq<Frame>, rest: bytes, ending: Ending)
    requires forall f :: f in fs ==> FrameFits(f)
    ensures ParseAll(Shapes(fs), PrintAll(fs) + rest, ending) == Got(fs, rest)
  {
    if fs != [] {
      var f := fs[0];
      assert FrameFits(f);
      var tail := PrintAll(fs[1..]) + rest;
      assert PrintAll(fs) + rest == PrintRaw(f.shape, f.raw) + tail;
      ParseOfPrint(f.shape, f.raw, tail, ending);
      assert ParseAll(Shapes(fs[1..]), tail, ending) == Got(fs[1..], rest) by {
        StreamRoundTrip(fs[1..], rest, ending);
      }
      assert Shapes(fs)[0] == f.shape && Shapes(fs)[1..] == Shapes(fs[1..]);
      assert fs == [f] + fs[1..];
    }
  }

  /** A stream that ends before its last frame does never passes for a whole one. */
  lemma {:induction false} StreamPrefixIsShort(fs: seq<Frame>, k: nat)
    requires forall f :: f in fs ==> FrameFits(f)
    requires k < |PrintAll(fs)|
    ensures var p := ParseAll(Shapes(fs), PrintAll(fs)[..k], Closed);
            p.Bad? && p.error in {Io(Eof), Io(UnexpectedEof)}
  {
    var f := fs[0];
    assert FrameFits(f);
    var first, others := PrintRaw(f.shape, f.raw), PrintAll(fs[1..]);
    CutInTwo(first, others, k);
    assert Shapes(fs)[0] == f.shape && Shapes(fs)[1..] == Shapes(fs[1..]);
    if k < |first| {
      PrefixIsShort(f.shape, f.raw, k);
    } else {
      StreamPrefixIsShort(fs[1..], k - |first|);
      ParseOfPrint(f.shape, f.raw, others[..k - |first|], Closed);
    }
  }

  lemma CutInTwo(a: bytes, b: bytes, k: nat)
    requires k < |a| + |b|
    ensures (a + b)[..k] == if k < |a| then a[..k] else a + b[..k - |a|]
  {
  }

  // ----- reads and writes on a connection

  method ReadBody(c: Conn, sh: Shape, hdr: bytes) returns (p: Parsed<Raw>)
    requires |hdr| == sh.tag + sh.width
    modifies c`pending
    ensures p == ParseBody(sh, hdr, old(c.pending), c.ending) && c.pending == p.rest
  {
    if sh.version.Some? && sh.tag > 0 && hdr[0] != sh.version.value {
      return Bad(WrongVersion(hdr[0]), c.pending);
    }
    var length := FromBe(hdr[sh.tag..]);
    if length > sh.cap {
      return Bad(TooLong(length), c.pending);
    }
    var body := new byte[length];
    var n, err := c.ReadFull(body, length);
    if err.Some? {
      return Bad(Io(err.value), c.pending);
    }
    assert body[..] == body[..n];
    return Got(Raw(hdr[..sh.tag], body[..]), c.pending);
  }

  method ReadRaw(c: Conn, sh: Shape) returns (p: Parsed<Raw>)
    modifies c`pending
    ensures p == ParseRaw(sh, old(c.pending), c.ending) && c.pending == p.rest
  {
    var hdr := new byte[sh.tag + sh.width];
    var n, err := c.ReadFull(hdr, hdr.Length);
    if err.Some? {
      return Bad(Io(err.value), c.pending);
    }
    assert hdr[..] == hdr[..n];
    HeaderRead(sh, old(c.pending), c.ending);
    p := ReadBody(c, sh, hdr[..]);
  }

  /** Header and body as two writes: the connection takes a prefix of the frame, all of it
      exactly when there is no error. */
  method WriteInTwo(c: Conn, hdr: bytes, body: bytes) returns (err: Option<IoError>)
    modifies c`written, c`room
    ensures err.None? <==> |hdr + body| <= old(c.room)
    ensures c.written == old(c.written) + (hdr + body)[..Min(|hdr + body|, old(c.room))]
    ensures c.room == old(c.room) - Min(|hdr + body|, old(c.room))
  {
    err := c.Write(hdr);
    if err.None? {
      err := c.Write(body);
    }
  }

  // ----- chunk frames

  /** The index goes out as its low 32 bits. */
  function PrintChunk(index: nat, data: bytes): bytes {
    PrintRaw(CHUNK, Raw(Be(4, index), data))
  }

  function ParseChunk(s: bytes, ending: Ending): Parsed<(nat, bytes)> {
    match ParseRaw(CHUNK, s, ending)
    case Got(raw, rest) => Got((FromBe(raw.tag), raw.body), rest)
    case Bad(e, rest) => Bad(e, rest)
  }

  /** Bytes 0 to 3 are the index and 4 to 7 the length, the most significant first; then the data. */
  lemma ChunkOnTheWire(index: nat, data: bytes)
    requires index < 0x1_0000_0000 && |data| < 0x1_0000_0000
    ensures PrintChunk(index, data) ==
            [index / 0x100_0000, index / 0x1_0000 % 256, index / 0x100 % 256, index % 256,
             |data| / 0x100_0000, |data| / 0x1_0000 % 256, |data| / 0x100 % 256, |data| % 256] + data
  {
    BeFour(index);
    BeFour(|data|);
  }

  /** Chunk 1 with the one byte 7. */
  lemma OneChunkOnTheWire()
    ensures PrintChunk(1, [7]) == [0, 0, 0, 1, 0, 0, 0, 1, 7]
  {
    ChunkOnTheWire(1, [7]);
  }

  lemma ChunkRoundTrip(index: nat, data: bytes, rest: bytes, ending: Ending)
    requires index < 0x1_0000_0000 && |data| < 0x1_0000_0000
    ensures ParseChunk(PrintChunk(index, data) + rest, ending) ==
            if |data| <= 64 * 1024 * 1024 then Got((index, data), rest) else Bad(TooLong(|data|), data + rest)
  {
    Pow256Values();
    FromBeOfBe(4, index);
    ParseOfPrint(CHUNK, Raw(Be(4, index), data), rest, ending);
  }

  method ReadChunk(c: Conn) returns (p: Parsed<(nat, bytes)>)
    modifies c`pending
    ensures p == ParseChunk(old(c.pending), c.ending) && c.pending == p.rest
  {
    var r := ReadRaw(c, CHUNK);
    match r {
      case Got(raw, rest) => p := Got((FromBe(raw.tag), raw.body), rest);
      case Bad(e, rest) => p := Bad(e, rest);
    }
  }

  method WriteChunk(c: Conn, index: nat, data: bytes) returns (err: Option<IoError>)
    modifies c`written, c`room
    ensures var f := PrintChunk(index, data);
            && (err.None? <==> |f| <= old(c.room))
            && c.written == old(c.written) + f[..Min(|f|, old(c.room))]
            && c.room == old(c.room) - Min(|f|, old(c.room))
    ensures err.None? && index < 0x1_0000_0000 && |data| < 0x1_0000_0000 ==>
              c.written == old(c.written) +
                ([index / 0x100_0000, index / 0x1_0000 % 256, index / 0x100 % 256, index % 256,
                  |data| / 0x100_0000, |data| / 0x1_0000 % 256, |data| / 0x100 % 256, |data| % 256] + data)
  {
    if index < 0x1_0000_0000 && |data| < 0x1_0000_0000 {
      ChunkOnTheWire(index, data);
    }
    err := WriteInTwo(c, Be(4, index) + Be(4, |data|), data);
  }

  // ----- verdicts

  /** None accepts; Some carries the reason for refusing. */
  type Verdict = Option<bytes>

  /** A reason keeps its first 1024 bytes. */
  function Clip(v: Verdict): Verdict {
    if v.Some? then Some(v.value[..Min(|v.value|, VERDICT.cap)]) else None
  }

  function PrintVerdict(v: Verdict): bytes {
    PrintRaw(VERDICT, if v.Some? then Raw([1], Clip(v).value) else Raw([0], []))
  }

  function ParseVerdict(s: bytes, ending: Ending): Parsed<Verdict> {
    match ParseRaw(VERDICT, s, ending)
    case Bad(e, rest) => Bad(e, rest)
    case Got(raw, rest) =>
      if raw.tag == [0] then Got(None, rest)
      else if raw.tag == [1] then Got(Some(raw.body), rest)
      else Bad(UnknownStatus, rest)
  }

  /** Zeros accept; a refusal is a one, the length of the reason and at most 1024 bytes of it. */
  lemma VerdictOnTheWire(v: Verdict)
    ensures v.None? ==> PrintVerdict(v) == [0, 0, 0]
    ensures v.Some? ==>
              var n := if |v.value| < 1024 then |v.value| else 1024;
              PrintVerdict(v) == [1, n / 256, n % 256] + v.value[..n]
  {
    BeTwo(0);
    if v.Some? {
      BeTwo(|Clip(v).value|);
    }
  }

  lemma VerdictRoundTrip(v: Verdict, rest: bytes, ending: Ending)
    ensures ParseVerdict(PrintVerdict(v) + rest, ending) == Got(Clip(v), rest)
  {
    Pow256Values();
    ParseOfPrint(VERDICT, if v.Some? then Raw([1], Clip(v).value) else Raw([0], []), rest, ending);
  }

  method ReadVerdict(c: Conn) returns (p: Parsed<Verdict>)
    modifies c`pending
    ensures p == ParseVerdict(old(c.pending), c.ending) && c.pending == p.rest
  {
    var r := ReadRaw(c, VERDICT);
    match r {
      case Bad(e, rest) => p := Bad(e, rest);
      case Got(raw, rest) =>
        p := if raw.tag == [0] then Got(None, rest)
        else if raw.tag == [1] then Got(Some(raw.body), rest) else Bad(UnknownStatus, rest);
    }
  }

  method WriteVerdict(c: Conn, v: Verdict) returns (err: Option<IoError>)
    modifies c`written, c`room
    ensures var f := PrintVerdict(v);
            && (err.None? <==> |f| <= old(c.room))
            && c.written == old(c.written) + f[..Min(|f|, old(c.room))]
            && c.room == old(c.room) - Min(|f|, old(c.room))
  {
    var status: byte, reason := 0, [];
    if v.Some? {
      status, reason := 1, v.value;
      if |reason| > VERDICT.cap {
        reason := reason[..VERDICT.cap];
      }
    }
    err := c.Write([status] + Be(2, |reason|) + reason);
  }

  // ----- JSON frames: hello, manifest, task, result request and response

  /** encoding/json for one message type, left abstract. */
  datatype Codec<!T(!new)> = Codec(enc: T -> bytes, dec: bytes -> Option<T>) {
    /** This message survives. Not every one need: a file name that is no well-formed text does
        not come out of JSON as it went in. */
    ghost predicate Keeps(x: T) {
      dec(enc(x)) == Some(x)
    }
  }

  function Tag(sh: Shape): bytes {
    if sh.version.Some? then [sh.version.value] else []
  }

  function PrintJson<T(!new)>(sh: Shape, codec: Codec<T>, x: T): bytes {
    PrintRaw(sh, Raw(Tag(sh), codec.enc(x)))
  }

  function ParseJson<T(!new)>(sh: Shape, codec: Codec<T>, s: bytes, ending: Ending): Parsed<T> {
    match ParseRaw(sh, s, ending)
    case Bad(e, rest) => Bad(e, rest)
    case Got(raw, rest) =>
      match codec.dec(raw.body)
      case Some(x) => Got(x, rest)
      case None => Bad(Undecodable, rest)
  }

  lemma JsonRoundTrip<T(!new)>(sh: Shape, codec: Codec<T>, x: T, rest: bytes, ending: Ending)
    requires sh.Sound() && sh.tag == |Tag(sh)| && codec.Keeps(x)
    requires |codec.enc(x)| < Pow256(sh.width)
    ensures ParseJson(sh, codec, PrintJson(sh, codec, x) + rest, ending) ==
            if |codec.enc(x)| <= sh.cap then Got(x, rest)
            else Bad(TooLong(|codec.enc(x)|), codec.enc(x) + rest)
  {
    ParseOfPrint(sh, Raw(Tag(sh), codec.enc(x)), rest, ending);
  }

  /** Hello and manifest are a length and a body; task, request and response have the version, 1, in
      front. The length is 32 bits, the most significant byte first. */
  lemma MessageOnTheWire<T(!new)>(codec: Codec<T>, x: T)
    requires |codec.enc(x)| < 0x1_0000_0000
    ensures var n := |codec.enc(x)|;
            var message := [n / 0x100_0000, n / 0x1_0000 % 256, n / 0x100 % 256, n % 256] + codec.enc(x);
            && PrintJson(HELLO, codec, x) == PrintJson(MANIFEST, codec, x) == message
            && PrintJson(TASK, codec, x) == PrintJson(RESULT, codec, x) == [1] + message
  {
    BeFour(|codec.enc(x)|);
  }

  /** A message that its encoding keeps arrives exactly when its body is no longer than 64 KiB for
      a hello or a task, 64 MiB for a manifest, 128 KiB for a request or response. */
  lemma MessageLimits<T(!new)>(codec: Codec<T>, x: T, rest: bytes, ending: Ending)
    requires codec.Keeps(x) && |codec.enc(x)| < 0x1_0000_0000
    ensures var (body, n) := (codec.enc(x), |codec.enc(x)|); var refused := Bad(TooLong(n), body + rest);
            && ParseJson(HELLO, codec, PrintJson(HELLO, codec, x) + rest, ending)
               == (if n <= 64 * 1024 then Got(x, rest) else refused)
            && ParseJson(TASK, codec, PrintJson(TASK, codec, x) + rest, ending)
               == (if n <= 64 * 1024 then Got(x, rest) else refused)
            && ParseJson(MANIFEST, codec, PrintJson(MANIFEST, codec, x) + rest, ending)
               == (if n <= 64 * 1024 * 1024 then Got(x, rest) else refused)
            && ParseJson(RESULT, codec, PrintJson(RESULT, codec, x) + rest, ending)
               == (if n <= 128 * 1024 then Got(x, rest) else refused)
  {
    ShapesSound();
    Pow256Values();
    JsonRoundTrip(HELLO, codec, x, rest, ending);
    JsonRoundTrip(TASK, codec, x, rest, ending);
    JsonRoundTrip(MANIFEST, codec, x, rest, ending);
    JsonRoundTrip(RESULT, codec, x, rest, ending);
  }

  /** ReadHello, ReadManifest, ReadTask and readResultFrame, by shape. */
  method ReadJson<T(!new)>(c: Conn, sh: Shape, codec: Codec<T>) returns (p: Parsed<T>)
    modifies c`pending
    ensures p == ParseJson(sh, codec, old(c.pending), c.ending) && c.pending == p.rest
  {
    var r := ReadRaw(c, sh);
    match r {
      case Bad(e, rest) => p := Bad(e, rest);
      case Got(raw, rest) =>
        var x := codec.dec(raw.body);
        p := if x.Some? then Got(x.value, rest) else Bad(Undecodable, rest);
    }
  }

  /** WriteHello, WriteManifest and WriteTask. None of them checks the cap. */
  method WriteJson<T(!new)>(c: Conn, sh: Shape, codec: Codec<T>, x: T) returns (err: Option<IoError>)
    modifies c`written, c`room
    ensures var f := PrintJson(sh, codec, x);
            && (err.None? <==> |f| <= old(c.room))
            && c.written == old(c.written) + f[..Min(|f|, old(c.room))]
            && c.room == old(c.room) - Min(|f|, old(c.room))
  {
    var body := codec.enc(x);
    err := WriteInTwo(c, Tag(sh) + Be(sh.width, |body|), body);
  }
}
