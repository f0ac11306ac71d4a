/** The two ends of a blob transfer as the node runs them on a connection. */
module Transfer {
  import opened BlobManifest
  import opened Bytes
  import opened Inbox
  import opened Landing
  import opened Stream
  import opened Wire
  import opened Wrappers

  datatype Progress = Progress(
    chunksDone: nat, chunksTotal: nat, bytesDone: int, bytesTotal: int, verifying: bool)

  // ----- sending

  datatype SendError = Wire(error: WireError) | Refused(reason: bytes) | Source(io: IoError)

  /** The frames of the first n chunks of `content`, in order. */
  ghost function ChunkStream(cs: seq<ChunkInfo>, content: bytes, n: nat): bytes
    requires n <= |cs|
  {
    if n == 0 then [] else ChunkStream(cs, content, n - 1) + PrintChunk(n - 1, Slice(content, cs[n - 1]))
  }

  ghost predicate SendReports(m: Manifest, reports: seq<Progress>) {
    && |reports| <= |m.chunks|
    && forall k :: 0 <= k < |reports| ==>
         reports[k] == Progress(k + 1, |m.chunks|, Start(m.chunks, k + 1), m.size, false)
  }

  /** Whether the receiver gets the manifest and says yes. */
  ghost predicate Welcome(c: Conn, codec: Codec<Manifest>, m: Manifest)
    reads c
  {
    |PrintJson(MANIFEST, codec, m)| <= c.room && ParseVerdict(c.pending, c.ending).Got?
    && ParseVerdict(c.pending, c.ending).value.None?
  }

  /** What a connection with `room` bytes left has taken of `data`, and how many it takes then. */
  ghost predicate Took(written: bytes, before: bytes, data: bytes, room: nat) {
    written == before + data[..Min(|data|, room)]
  }

  function Left(data: bytes, room: nat): nat {
    room - Min(|data|, room)
  }

  /** One write after the other is one write of both. */
  lemma TookBoth(w0: bytes, w1: bytes, w2: bytes, a: bytes, b: bytes, room: nat)
    requires Took(w1, w0, a, room) && |a| <= room && Took(w2, w1, b, Left(a, room))
    ensures Took(w2, w0, a + b, room) && Left(b, Left(a, room)) == Left(a + b, room)
  {
    var k := Min(|b|, room - |a|);
    assert a[..|a|] == a;
    assert (a + b)[..|a| + k] == a + b[..k];
    Regroup(w0, a, b[..k]);
  }

  /** A connection that is full takes nothing of what would have come next. */
  lemma TookNoMore(w0: bytes, w1: bytes, a: bytes, b: bytes, room: nat)
    requires Took(w1, w0, a, room) && a <= b && room < |a|
    ensures Took(w1, w0, b, room)
  {
    SliceOfSlice(b, 0, |a|, 0, room);
  }

  method OfferManifest(c: Conn, codec: Codec<Manifest>, m: Manifest) returns (err: Option<SendError>)
    modifies c
    ensures err.None? <==> old(Welcome(c, codec, m))
    ensures var p := ParseVerdict(old(c.pending), c.ending);
            var sent := |PrintJson(MANIFEST, codec, m)| <= old(c.room);
            && (err.Some? && err.value.Refused? <==> sent && p.Got? && p.value.Some?)
            && (err.Some? && err.value.Refused? ==> err.value.reason == p.value.value)
            && (sent ==> c.pending == p.rest)
    ensures Took(c.written, old(c.written), PrintJson(MANIFEST, codec, m), old(c.room))
    ensures c.room == Left(PrintJson(MANIFEST, codec, m), old(c.room))
  {
    var e := WriteJson(c, MANIFEST, codec, m);
    if e.Some? {
      return Some(Wire(Io(e.value)));
    }
    var v := ReadVerdict(c);
    match v {
      case Bad(x, _) => err := Some(Wire(x));
      case Got(answer, _) => err := if answer.Some? then Some(Refused(answer.value)) else None;
    }
  }

  /** A chunk goes out exactly when the file still has it and the connection has room for all of
      its frame; a file that is too short stops it before anything is written. */
  method SendChunk(c: Conn, f: Conn, buf: array<byte>, chunk: ChunkInfo)
    returns (buf': array<byte>, err: Option<SendError>)
    requires c != f && chunk.index >= 0 && chunk.length > 0
    modifies c`written, c`room, f`pending, buf
    ensures buf' == buf || fresh(buf')
    ensures err.Some? ==> !err.value.Refused?
    ensures if |old(f.pending)| < chunk.length
            then err.Some? && c.written == old(c.written) && c.room == old(c.room)
            else
              var frame := PrintChunk(chunk.index, old(f.pending)[..chunk.length]);
              && f.pending == old(f.pending)[chunk.length..]
              && (err.None? <==> |frame| <= old(c.room))
              && Took(c.written, old(c.written), frame, old(c.room)) && c.room == Left(frame, old(c.room))
  {
    buf' := buf;
    if buf'.Length < chunk.length {
      buf' := new byte[chunk.length];
    }
    var n, short := f.ReadFull(buf', chunk.length);
    if short.Some? {
      return buf', Some(Source(short.value));
    }
    var e := WriteChunk(c, chunk.index, buf'[..chunk.length]);
    err := if e.Some? then Some(Wire(Io(e.value))) else None;
  }

  /** What is read next is the slice that starts where the last read ended. */
  lemma NextSlice(content: bytes, chunk: ChunkInfo, sent: nat)
    requires sent <= |content| && chunk.offset == sent && 0 <= chunk.length <= |content[sent..]|
    ensures content[sent..][..chunk.length] == Slice(content, chunk)
    ensures content[sent..][chunk.length..] == content[sent + chunk.length..]
  {
  }

  /** How many chunks a file of this size holds in full. */
  ghost function Readable(cs: seq<ChunkInfo>, size: int): (n: nat)
    ensures n <= |cs|
  {
    if cs == [] || End(cs) <= size then |cs| else Readable(cs[..|cs| - 1], size)
  }

  lemma {:induction false} ReadableIs(cs: seq<ChunkInfo>, size: int, n: nat)
    requires Tiled(cs) && n <= |cs| && Start(cs, n) <= size && (n == |cs| || Start(cs, n + 1) > size)
    ensures Readable(cs, size) == n
  {
    if n < |cs| {
      TiledFront(cs, |cs| - 1);
      StartsGrow(cs, n + 1, |cs|);
      if n < |cs| - 1 {
        assert Start(cs[..|cs| - 1], n + 1) == Start(cs, n + 1);
      }
      assert n > 0 ==> Start(cs[..|cs| - 1], n) == Start(cs, n);
      ReadableIs(cs[..|cs| - 1], size, n);
    }
  }

  lemma {:induction false} StartsGrow(cs: seq<ChunkInfo>, i: nat, j: nat)
    requires Tiled(cs) && i <= j <= |cs|
    ensures Start(cs, i) <= Start(cs, j)
    decreases j
  {
    if i < j {
      assert Placed(cs, j - 1);
      StartsGrow(cs, i, j - 1);
    }
  }

  lemma {:induction false} ReadableReached(cs: seq<ChunkInfo>, size: int, n: nat)
    requires Tiled(cs) && n <= |cs| && Start(cs, n) <= size
    ensures n <= Readable(cs, size)
  {
    if !(cs == [] || End(cs) <= size) {
      TiledFront(cs, |cs| - 1);
      assert n > 0 ==> n < |cs| && Start(cs[..|cs| - 1], n) == Start(cs, n);
      ReadableReached(cs[..|cs| - 1], size, n);
    }
  }

  lemma {:induction false} StreamPrefix(cs: seq<ChunkInfo>, content: bytes, i: nat, n: nat)
    requires i <= n <= |cs|
    ensures ChunkStream(cs, content, i) <= ChunkStream(cs, content, n)
    decreases n
  {
    if i < n {
      StreamPrefix(cs, content, i, n - 1);
      OneMoreFrame(cs, content, n - 1);
      LongerPrefix(ChunkStream(cs, content, i), ChunkStream(cs, content, n - 1),
                   PrintChunk(n - 1, Slice(content, cs[n - 1])));
    }
  }

  lemma LongerPrefix(a: bytes, b: bytes, c: bytes)
    requires a <= b
    ensures a <= b + c
  {
  }

  /** The frames of all chunks the file holds. */
  ghost function Sendable(m: Manifest, content: bytes): bytes {
    ChunkStream(m.chunks, content, Readable(m.chunks, |content|))
  }

  /** Every chunk, read one after the other from the file: without a seek, what goes out as
      chunk i is the slice at its offset. It all goes out exactly when the file is long enough and
      the connection has room; otherwise what the connection takes is a prefix of the chunks the
      file does hold. */
  method SendChunks(c: Conn, f: Conn, m: Manifest) returns (err: Option<SendError>, reports: seq<Progress>)
    requires c != f && Tiled(m.chunks)
    modifies c`written, c`room, f`pending
    ensures SendReports(m, reports) && (err.None? ==> |reports| == |m.chunks|)
    ensures err.None? <==> End(m.chunks) <= |old(f.pending)|
                           && |ChunkStream(m.chunks, old(f.pending), |m.chunks|)| <= old(c.room)
    ensures Took(c.written, old(c.written), Sendable(m, old(f.pending)), old(c.room))
    ensures err.Some? ==> !err.value.Refused?
  {
    reports := [];
    err := None;
    ghost var content, w0, room := f.pending, c.written, c.room;
    var buf := new byte[0];
    var sent := 0;
    for i := 0 to |m.chunks|
      invariant fresh(buf) && err.None?
      invariant 0 <= sent == Start(m.chunks, i) <= |content| && f.pending == content[sent..]
      invariant Took(c.written, w0, ChunkStream(m.chunks, content, i), room)
      invariant |ChunkStream(m.chunks, content, i)| <= room && c.room == Left(ChunkStream(m.chunks, content, i), room)
      invariant |reports| == i && SendReports(m, reports)
    {
      var chunk := m.chunks[i];
      assert Placed(m.chunks, i);
      ghost var w1 := c.written;
      buf, err := SendChunk(c, f, buf, chunk);
      if |content| - sent < chunk.length {
        ShortFile(m, content, i, w0, w1, room);
      } else {
        NextSlice(content, chunk, sent);
        OneMoreFrame(m.chunks, content, i);
        TookBoth(w0, w1, c.written, ChunkStream(m.chunks, content, i), PrintChunk(i, Slice(content, chunk)), room);
        if err.Some? {
          FullConnection(m, content, i + 1, w0, c.written, room);
        }
      }
      if err.Some? {
        return;
      }
      sent := sent + chunk.length;
      NextSendReport(m, reports, sent);
      reports := reports + [Progress(i + 1, |m.chunks|, sent, m.size, false)];
    }
    ReadableIs(m.chunks, |content|, |m.chunks|);
  }

  /** The file ends inside chunk i: exactly the chunks before it are out. */
  lemma ShortFile(m: Manifest, content: bytes, i: nat, w0: bytes, w1: bytes, room: nat)
    requires Tiled(m.chunks) && i < |m.chunks| && Start(m.chunks, i) <= |content| < Start(m.chunks, i + 1)
    requires Took(w1, w0, ChunkStream(m.chunks, content, i), room)
    ensures Took(w1, w0, Sendable(m, content), room) && End(m.chunks) > |content|
  {
    ReadableIs(m.chunks, |content|, i);
    StartsGrow(m.chunks, i + 1, |m.chunks|);
  }

  /** The connection was full before the first n chunks were through. */
  lemma FullConnection(m: Manifest, content: bytes, n: nat, w0: bytes, w1: bytes, room: nat)
    requires Tiled(m.chunks) && n <= |m.chunks| && Start(m.chunks, n) <= |content|
    requires Took(w1, w0, ChunkStream(m.chunks, content, n), room) && room < |ChunkStream(m.chunks, content, n)|
    ensures Took(w1, w0, Sendable(m, content), room) && room < |ChunkStream(m.chunks, content, |m.chunks|)|
  {
    ReadableReached(m.chunks, |content|, n);
    StreamPrefix(m.chunks, content, n, Readable(m.chunks, |content|));
    StreamPrefix(m.chunks, content, n, |m.chunks|);
    TookNoMore(w0, w1, ChunkStream(m.chunks, content, n), Sendable(m, content), room);
  }

  lemma NextSendReport(m: Manifest, reports: seq<Progress>, sent: int)
    requires SendReports(m, reports) && |reports| < |m.chunks| && sent == Start(m.chunks, |reports| + 1)
    ensures SendReports(m, reports + [Progress(|reports| + 1, |m.chunks|, sent, m.size, false)])
  {
  }

  lemma OneMoreFrame(cs: seq<ChunkInfo>, content: bytes, i: nat)
    requires i < |cs|
    ensures ChunkStream(cs, content, i + 1) == ChunkStream(cs, content, i) + PrintChunk(i, Slice(content, cs[i]))
  {
  }

  /** Manifest, verdict, chunks. What the connection takes is a prefix of the manifest and, after an
      accept, of the chunks; it takes all and Send returns nil exactly when the receiver said yes,
      the file is long enough and there is room. */
  method Send(c: Conn, f: Conn, codec: Codec<Manifest>, m: Manifest)
    returns (err: Option<SendError>, reports: seq<Progress>)
    requires c != f && Tiled(m.chunks)
    modifies c, f`pending
    ensures SendReports(m, reports) && (err.None? ==> |reports| == |m.chunks|)
    ensures var head := PrintJson(MANIFEST, codec, m); var content := old(f.pending);
            && (err.None? <==> old(Welcome(c, codec, m)) && End(m.chunks) <= |content|
                               && |head| + |ChunkStream(m.chunks, content, |m.chunks|)| <= old(c.room))
            && Took(c.written, old(c.written), head + if old(Welcome(c, codec, m)) then Sendable(m, content) else [],
                    old(c.room))
    ensures |PrintJson(MANIFEST, codec, m)| <= old(c.room) ==> c.pending == ParseVerdict(old(c.pending), c.ending).rest
    ensures var p := ParseVerdict(old(c.pending), c.ending);
            && (err.Some? && err.value.Refused? <==>
                  |PrintJson(MANIFEST, codec, m)| <= old(c.room) && p.Got? && p.value.Some?)
            && (err.Some? && err.value.Refused? ==> err.value.reason == p.value.value)
  {
    ghost var head, w0, room := PrintJson(MANIFEST, codec, m), c.written, c.room;
    err := OfferManifest(c, codec, m);
    if err.Some? {
      assert head + [] == head;
      return err, [];
    }
    ghost var w1 := c.written;
    err, reports := SendChunks(c, f, m);
    TookBoth(w0, w1, c.written, head, Sendable(m, old(f.pending)), room);
  }

  // ----- receiving: the offer

  datatype ReceiveError =
    | BadFrame(error: WireError)
    | BadManifest(fault: Fault)
    | Declined(reason: bytes)
    | NoVerdict
    | Rejected(reject: Reject)
    | DiskFailed
    | WholeHashMismatch

  /** Reads a manifest and answers an invalid one with a refusal. */
  method ReadOffer(c: Conn, codec: Codec<Manifest>, explain: Fault -> bytes)
    returns (r: Result<Manifest, ReceiveError>)
    modifies c`pending, c`written, c`room
    ensures var p := ParseJson(MANIFEST, codec, old(c.pending), c.ending);
            && c.pending == p.rest
            && (r.Ok? <==> p.Got? && Valid(p.value))
            && (r.Ok? ==> r.value == p.value)
            && (p.Bad? ==> r == Err(BadFrame(p.error)))
            && (p.Bad? || r.Ok? ==> c.written == old(c.written) && c.room == old(c.room))
            && (p.Got? && r.Err? ==>
                  && r.error.BadManifest? && Explains(p.value, r.error.fault)
                  && Took(c.written, old(c.written), PrintVerdict(Some(explain(r.error.fault))), old(c.room)))
  {
    var p := ReadJson(c, MANIFEST, codec);
    match p {
      case Bad(e, _) =>
        return Err(BadFrame(e));
      case Got(m, _) =>
        var fault := Validate(m);
        if fault.Some? {
          var _ := WriteVerdict(c, Some(explain(fault.value)));
          return Err(BadManifest(fault.value));
        }
        return Ok(m);
    }
  }

  // ----- receiving: the chunks

  /** The first n chunk frames on a stream. */
  ghost function Arrivals(s: bytes, ending: Ending, n: nat): Parsed<seq<Arrival>> {
    if n == 0 then Got([], s)
    else
      match Arrivals(s, ending, n - 1)
      case Bad(e, rest) => Bad(e, rest)
      case Got(fs, rest) =>
        match ParseChunk(rest, ending)
        case Bad(e, rest') => Bad(e, rest')
        case Got((index, data), rest') => Got(fs + [Arrival(index, data)], rest')
  }

  /** Whether a stream carries a complete, genuine blob for `m`. */
  ghost predicate Delivers(h: Hash, m: Manifest, s: bytes, ending: Ending)
    requires Valid(m)
  {
    ValidSize(m.chunks);
    var p := Arrivals(s, ending, |m.chunks|);
    && p.Got? && LandAll(h, m, p.value).Ok?
    && h(LandAll(h, m, p.value).value.file) == m.sha256
  }

  /** The blob such a stream carries. */
  ghost function Delivered(h: Hash, m: Manifest, s: bytes, ending: Ending): bytes
    requires Valid(m) && Delivers(h, m, s, ending)
  {
    ValidSize(m.chunks);
    LandAll(h, m, Arrivals(s, ending, |m.chunks|).value).value.file
  }

  /** Progress as a receiver reports it: counts start at zero and grow by the chunk just
      taken, never past the size, and `verifying` is set once all chunks are in. */
  ghost predicate ReceiveReports(m: Manifest, reports: seq<Progress>) {
    && (reports != [] ==> reports[0] == Progress(0, |m.chunks|, 0, m.size, false))
    && |reports| <= |m.chunks| + 2
    && (forall k :: 0 <= k < |reports| ==>
          && reports[k].chunksTotal == |m.chunks| && reports[k].bytesTotal == m.size
          && reports[k].bytesDone <= m.size
          && reports[k].verifying == (k == |m.chunks| + 1)
          && reports[k].chunksDone == Min(k, |m.chunks|)
          && (reports[k].bytesDone == m.size <==> k >= |m.chunks|))
    && (forall k :: 0 < k < |reports| && k <= |m.chunks| ==>
          reports[k - 1].bytesDone < reports[k].bytesDone)
  }

  lemma ReportNext(m: Manifest, reports: seq<Progress>, got: int)
    requires ReceiveReports(m, reports) && 0 < |reports| <= |m.chunks|
    requires reports[|reports| - 1].bytesDone < got <= m.size
    requires got == m.size <==> |reports| == |m.chunks|
    ensures ReceiveReports(m, reports + [Progress(|reports|, |m.chunks|, got, m.size, false)])
  {
  }

  /** A landing is short of the size until the last chunk is in. */
  lemma PartialVolume(h: Hash, m: Manifest, fs: seq<Arrival>, st: Landing)
    requires Valid(m) && m.size >= 0 && LandAll(h, m, fs) == Ok(st)
    ensures |fs| <= |m.chunks| && |st.file| == m.size
    ensures 0 <= st.got <= m.size && (st.got == m.size <==> |fs| == |m.chunks|)
  {
    LandAllMeaning(h, m, fs);
    forall i | i in st.seen
      ensures i < |m.chunks|
    {
      var k :| 0 <= k < |fs| && fs[k].index == i;
      assert fs[k] in fs;
    }
    SmallSet(st.seen, |m.chunks|);
    VolumeBound(m.chunks, st.seen, |m.chunks|);
    if |fs| == |m.chunks| {
      Pigeonhole(st.seen, |m.chunks|);
    } else if forall i :: 0 <= i < |m.chunks| ==> i in st.seen {
      CoversAll(st.seen, |m.chunks|);
    }
  }

  lemma {:induction false} CoversAll(s: set<nat>, n: nat)
    requires forall i :: 0 <= i < n ==> i in s
    ensures |s| >= n
  {
    if n > 0 {
      CoversAll(s - {n - 1}, n - 1);
    }
  }

  ghost predicate Wanted(want: map<nat, ChunkInfo>, m: Manifest, n: nat) {
    && (forall k: nat :: k in want <==> k < n && k < |m.chunks|)
    && (forall k: nat :: k in want && k < |m.chunks| ==> want[k] == m.chunks[k])
  }

  method WantedChunks(m: Manifest) returns (want: map<nat, ChunkInfo>)
    requires Tiled(m.chunks)
    ensures Wanted(want, m, |m.chunks|)
  {
    want := map[];
    for i := 0 to |m.chunks|
      invariant Wanted(want, m, i)
    {
      assert Placed(m.chunks, i);
      want := want[m.chunks[i].index := m.chunks[i]];
    }
  }

  /** Reads one frame and either lands it or says why not. The in-memory bookkeeping and the
      file move together. */
  method TakeChunk(c: Conn, inbox: Inbox, path: bytes, h: Hash, m: Manifest, want: map<nat, ChunkInfo>,
                   st0: Landing) returns (err: Option<ReceiveError>, st: Landing)
    requires Valid(m) && Wanted(want, m, |m.chunks|) && path in inbox.files && st0.file == inbox.files[path]
    modifies c`pending, inbox
    ensures path in inbox.files && inbox.files == old(inbox.files)[path := inbox.files[path]]
    ensures var p := ParseChunk(old(c.pending), c.ending);
            && c.pending == p.rest
            && match p
               case Bad(e, _) => err == Some(BadFrame(e)) && inbox.files == old(inbox.files)
               case Got((index, data), _) =>
                 match Land(h, m, st0, Arrival(index, data))
                 case Err(reject) => err == Some(Rejected(reject)) && inbox.files == old(inbox.files)
                 case Ok(landed) =>
                   if inbox.reliable || err.None? then err.None? && st == landed && inbox.files[path] == landed.file
                   else err == Some(DiskFailed)
  {
    st := st0;
    var frame := ReadChunk(c);
    match frame {
      case Bad(e, _) =>
        return Some(BadFrame(e)), st;
      case Got(pair, _) =>
        var (index, data) := pair;
        if index !in want {
          return Some(Rejected(NotInManifest)), st;
        }
        var chunk := want[index];
        if index in st.seen {
          return Some(Rejected(SentTwice)), st;
        }
        if |data| != chunk.length {
          return Some(Rejected(WrongLength)), st;
        }
        if h(data) != chunk.sha256 {
          return Some(Rejected(WrongHash)), st;
        }
        ChunkInside(m.chunks, index);
        var file := WriteAt(inbox.files[path], chunk.offset, data);
        var ok := inbox.Put(path, file);
        if !ok {
          return Some(DiskFailed), st;
        }
        return None, Landing(file, st.seen + {index}, st.got + chunk.length);
    }
  }

  /** O_TRUNC and Truncate: the file is there, `size` zeros long. */
  method CreateSized(inbox: Inbox, path: bytes, size: nat) returns (ok: bool)
    modifies inbox
    ensures ok ==> inbox.files == old(inbox.files)[path := Zeros(size)]
    ensures ok ==> |inbox.files[path]| == size && forall i :: 0 <= i < size ==> inbox.files[path][i] == 0
    ensures path in inbox.files && inbox.files == old(inbox.files)[path := inbox.files[path]]
    ensures inbox.reliable ==> ok
  {
    ok := inbox.Put(path, []);
    if ok {
      ok := inbox.Put(path, Zeros(size));
    }
  }

  /** Where a receiver stands after i frames. */
  ghost predicate Midway(h: Hash, m: Manifest, s0: bytes, ending: Ending, s: bytes, i: nat, fs: seq<Arrival>,
                         st: Landing)
    requires Valid(m)
  {
    && m.size >= 0 && Arrivals(s0, ending, i) == Got(fs, s) && |fs| == i
    && LandAll(h, m, fs) == Ok(st)
  }

  lemma MidwayNext(h: Hash, m: Manifest, s0: bytes, ending: Ending, s: bytes, i: nat, fs: seq<Arrival>, st: Landing)
    requires Valid(m) && Midway(h, m, s0, ending, s, i, fs, st)
    requires ParseChunk(s, ending).Got?
    ensures var p := ParseChunk(s, ending); var a := Arrival(p.value.0, p.value.1);
            && Arrivals(s0, ending, i + 1) == Got(fs + [a], p.rest)
            && LandAll(h, m, fs + [a]) == Land(h, m, st, a)
  {
    var p := ParseChunk(s, ending);
    var a := Arrival(p.value.0, p.value.1);
    var gs := fs + [a];
    assert gs[..|gs| - 1] == fs && gs[|gs| - 1] == a;
    assert LandAll(h, m, gs) == Land(h, m, st, a);
  }

  /** A frame that cannot be read or is turned down dooms the delivery. */
  lemma MidwayStop(h: Hash, m: Manifest, s0: bytes, ending: Ending, s: bytes, i: nat, fs: seq<Arrival>, st: Landing)
    requires Valid(m) && Midway(h, m, s0, ending, s, i, fs, st) && i < |m.chunks|
    requires var p := ParseChunk(s, ending);
             p.Bad? || Land(h, m, st, Arrival(p.value.0, p.value.1)).Err?
    ensures !Delivers(h, m, s0, ending)
  {
    if ParseChunk(s, ending).Bad? {
      ArrivalsStop(s0, ending, i + 1, |m.chunks|);
    } else {
      MidwayNext(h, m, s0, ending, s, i, fs, st);
      RejectionIsFinal(h, m, s0, ending, i + 1, |m.chunks|);
    }
  }

  lemma Advance(h: Hash, m: Manifest, s0: bytes, ending: Ending, s: bytes, i: nat, fs: seq<Arrival>,
                st: Landing, st': Landing, reports: seq<Progress>) returns (gs: seq<Arrival>)
    requires Valid(m) && Midway(h, m, s0, ending, s, i, fs, st) && i < |m.chunks|
    requires var p := ParseChunk(s, ending);
             p.Got? && Land(h, m, st, Arrival(p.value.0, p.value.1)) == Ok(st')
    requires ReceiveReports(m, reports) && |reports| == i + 1 && reports[i].bytesDone == st.got
    ensures Midway(h, m, s0, ending, ParseChunk(s, ending).rest, i + 1, gs, st')
    ensures ReceiveReports(m, reports + [Progress(i + 1, |m.chunks|, st'.got, m.size, false)])
    ensures |st'.file| == m.size
  {
    var p := ParseChunk(s, ending);
    MidwayNext(h, m, s0, ending, s, i, fs, st);
    gs := fs + [Arrival(p.value.0, p.value.1)];
    assert Placed(m.chunks, p.value.0);
    PartialVolume(h, m, gs, st');
    ReportNext(m, reports, st'.got);
  }

  /** What has been reported of i frames. */
  ghost predicate Reported(m: Manifest, reports: seq<Progress>, i: nat, st: Landing) {
    ReceiveReports(m, reports) && |reports| == i + 1 && reports[i].bytesDone == st.got
  }

  lemma Begins(h: Hash, m: Manifest, s: bytes, ending: Ending)
    requires Valid(m) && m.size >= 0
    ensures Midway(h, m, s, ending, s, 0, [], Fresh(m)) && |Fresh(m).file| == m.size
    ensures Reported(m, [Progress(0, |m.chunks|, 0, m.size, false)], 0, Fresh(m))
  {
    PartialVolume(h, m, [], Fresh(m));
  }

  /** One more frame, for a receiver that has taken i of them. */
  method TakeNext(c: Conn, inbox: Inbox, path: bytes, h: Hash, m: Manifest, want: map<nat, ChunkInfo>,
                  ghost s0: bytes, i: nat, ghost fs0: seq<Arrival>, st0: Landing, reports0: seq<Progress>)
    returns (err: Option<ReceiveError>, reports: seq<Progress>, st: Landing, ghost fs: seq<Arrival>)
    requires Valid(m) && m.size >= 0 && Wanted(want, m, |m.chunks|) && i < |m.chunks|
    requires path in inbox.files && st0.file == inbox.files[path] && |st0.file| == m.size
    requires Midway(h, m, s0, c.ending, c.pending, i, fs0, st0)
    requires Reported(m, reports0, i, st0)
    modifies c`pending, inbox
    ensures path in inbox.files && inbox.files == old(inbox.files)[path := inbox.files[path]]
    ensures err.None? ==>
              && Midway(h, m, s0, c.ending, c.pending, i + 1, fs, st) && st.file == inbox.files[path]
              && Reported(m, reports, i + 1, st)
    ensures err.Some? ==> reports == reports0
    ensures err.Some? && inbox.reliable ==> !Delivers(h, m, s0, c.ending)
    ensures inbox.reliable || err.None? ==> |inbox.files[path]| == m.size
  {
    ghost var s := c.pending;
    err, st := TakeChunk(c, inbox, path, h, m, want, st0);
    fs, reports := fs0, reports0;
    if err.None? {
      fs := Advance(h, m, s0, c.ending, s, i, fs0, st0, st, reports);
      reports := reports + [Progress(i + 1, |m.chunks|, st.got, m.size, false)];
    } else if inbox.reliable {
      MidwayStop(h, m, s0, c.ending, s, i, fs0, st0);
    }
  }

  /** Reads exactly as many frames as the manifest promises, no more, reporting after each. */
  method TakeFrames(c: Conn, inbox: Inbox, path: bytes, h: Hash, m: Manifest, want: map<nat, ChunkInfo>)
    returns (err: Option<ReceiveError>, reports: seq<Progress>, st: Landing, ghost fs: seq<Arrival>)
    requires Valid(m) && m.size >= 0 && Wanted(want, m, |m.chunks|)
    requires path in inbox.files && inbox.files[path] == Zeros(m.size)
    modifies c`pending, inbox
    ensures path in inbox.files && inbox.files == old(inbox.files)[path := inbox.files[path]]
    ensures ReceiveReports(m, reports)
    ensures err.None? ==>
              && Midway(h, m, old(c.pending), c.ending, c.pending, |m.chunks|, fs, st)
              && st.file == inbox.files[path] && |reports| == |m.chunks| + 1
    ensures err.Some? && inbox.reliable ==> !Delivers(h, m, old(c.pending), c.ending)
    ensures inbox.reliable || err.None? ==> |inbox.files[path]| == m.size
  {
    ghost var s0 := c.pending;
    err, st, fs := None, Fresh(m), [];
    reports := [Progress(0, |m.chunks|, 0, m.size, false)];
    Begins(h, m, s0, c.ending);
    for i := 0 to |m.chunks|
      invariant err.None? && Midway(h, m, s0, c.ending, c.pending, i, fs, st)
      invariant path in inbox.files && inbox.files == old(inbox.files)[path := st.file]
      invariant Reported(m, reports, i, st) && |st.file| == m.size
    {
      ghost var st0 := st;
      err, reports, st, fs := TakeNext(c, inbox, path, h, m, want, s0, i, fs, st, reports);
      Rewritten(old(inbox.files), path, st0.file, inbox.files[path]);
      if err.Some? {
        return;
      }
    }
  }

  /** And reports once more when all are in. */
  method TakeAll(c: Conn, inbox: Inbox, path: bytes, h: Hash, m: Manifest, want: map<nat, ChunkInfo>)
    returns (err: Option<ReceiveError>, reports: seq<Progress>)
    requires Valid(m) && m.size >= 0 && Wanted(want, m, |m.chunks|)
    requires path in inbox.files && inbox.files[path] == Zeros(m.size)
    modifies c`pending, inbox
    ensures path in inbox.files && inbox.files == old(inbox.files)[path := inbox.files[path]]
    ensures ReceiveReports(m, reports)
    ensures err.None? ==>
              && (Delivers(h, m, old(c.pending), c.ending) <==> h(inbox.files[path]) == m.sha256)
              && (Delivers(h, m, old(c.pending), c.ending) ==>
                    Delivered(h, m, old(c.pending), c.ending) == inbox.files[path])
              && c.pending == Arrivals(old(c.pending), c.ending, |m.chunks|).rest
              && |reports| == |m.chunks| + 2
    ensures err.Some? && inbox.reliable ==> !Delivers(h, m, old(c.pending), c.ending)
    ensures inbox.reliable ==> |inbox.files[path]| == m.size
  {
    ghost var s0 := c.pending;
    ghost var fs;
    var st;
    err, reports, st, fs := TakeFrames(c, inbox, path, h, m, want);
    if err.None? {
      DeliveryDecided(h, m, s0, c.ending, c.pending, fs, st);
      LastReport(h, m, fs, st, reports);
      reports := reports + [Progress(|m.chunks|, |m.chunks|, st.got, m.size, true)];
    }
  }

  lemma DeliveryDecided(h: Hash, m: Manifest, s0: bytes, ending: Ending, s: bytes, fs: seq<Arrival>, st: Landing)
    requires Valid(m) && Midway(h, m, s0, ending, s, |m.chunks|, fs, st)
    ensures Delivers(h, m, s0, ending) <==> h(st.file) == m.sha256
    ensures Delivers(h, m, s0, ending) ==> Delivered(h, m, s0, ending) == st.file
    ensures Arrivals(s0, ending, |m.chunks|).rest == s
  {
  }

  /** Success means the stream carried a complete genuine blob, and the file is that blob; on
      a disk that works, a stream that carries one succeeds. Whatever happens, no file but
      `path` changes, and no write reaches past the size the manifest declared. */
  method ReceiveChunks(c: Conn, inbox: Inbox, path: bytes, h: Hash, m: Manifest)
    returns (err: Option<ReceiveError>, reports: seq<Progress>)
    requires Valid(m)
    modifies c`pending, inbox
    ensures err.None? ==> Delivers(h, m, old(c.pending), c.ending)
    ensures inbox.reliable && Delivers(h, m, old(c.pending), c.ending) ==> err.None?
    ensures err.None? ==>
              && c.pending == Arrivals(old(c.pending), c.ending, |m.chunks|).rest
              && inbox.files == old(inbox.files)[path := Delivered(h, m, old(c.pending), c.ending)]
    ensures path in inbox.files && inbox.files == old(inbox.files)[path := inbox.files[path]]
    ensures inbox.reliable ==> |inbox.files[path]| == m.size
    ensures ReceiveReports(m, reports)
    ensures err.None? ==> |reports| == |m.chunks| + 2
  {
    reports := [];
    ValidSize(m.chunks);
    var want := WantedChunks(m);
    var ok := CreateSized(inbox, path, m.size);
    if !ok {
      return Some(DiskFailed), reports;
    }
    err, reports := TakeAll(c, inbox, path, h, m, want);
    Rewritten(old(inbox.files), path, Zeros(m.size), inbox.files[path]);
    if err.Some? {
      return;
    }
    err := VerifyWhole(inbox, path, h, m.sha256);
  }

  lemma Rewritten(files: map<bytes, bytes>, path: bytes, a: bytes, b: bytes)
    ensures files[path := a][path := b] == files[path := b]
  {
  }

  lemma LastReport(h: Hash, m: Manifest, fs: seq<Arrival>, st: Landing, reports: seq<Progress>)
    requires Valid(m) && m.size >= 0 && LandAll(h, m, fs) == Ok(st) && |fs| == |m.chunks|
    requires ReceiveReports(m, reports) && |reports| == |m.chunks| + 1
    ensures ReceiveReports(m, reports + [Progress(|m.chunks|, |m.chunks|, st.got, m.size, true)])
  {
    PartialVolume(h, m, fs, st);
  }

  /** Flushes the finished file and checks it against the whole-file hash. */
  method VerifyWhole(inbox: Inbox, path: bytes, h: Hash, want: string) returns (err: Option<ReceiveError>)
    requires path in inbox.files
    ensures err.None? ==> h(inbox.files[path]) == want
    ensures inbox.reliable && h(inbox.files[path]) == want ==> err.None?
  {
    var flushed := Works(inbox.reliable);
    if !flushed {
      return Some(DiskFailed);
    }
    return if h(inbox.files[path]) != want then Some(WholeHashMismatch) else None;
  }

  lemma {:induction false} ArrivalsStop(s: bytes, ending: Ending, i: nat, n: nat)
    requires i <= n && Arrivals(s, ending, i).Bad?
    ensures Arrivals(s, ending, n).Bad?
    decreases n
  {
    if i < n {
      ArrivalsStop(s, ending, i, n - 1);
    }
  }

  lemma {:induction false} EarlierArrivals(s: bytes, ending: Ending, i: nat, n: nat)
    requires i <= n && Arrivals(s, ending, n).Got?
    ensures Arrivals(s, ending, i).Got? && Arrivals(s, ending, i).value <= Arrivals(s, ending, n).value
    decreases n
  {
    if i < n {
      EarlierArrivals(s, ending, i, n - 1);
    }
  }

  lemma {:induction false} StaysRejected(h: Hash, m: Manifest, fs: seq<Arrival>, gs: seq<Arrival>)
    requires Tiled(m.chunks) && m.size >= 0 && fs <= gs && LandAll(h, m, fs).Err?
    ensures LandAll(h, m, gs).Err?
    decreases |gs|
  {
    if |fs| < |gs| {
      StaysRejected(h, m, fs, gs[..|gs| - 1]);
    } else {
      assert fs == gs;
    }
  }

  lemma RejectionIsFinal(h: Hash, m: Manifest, s: bytes, ending: Ending, i: nat, n: nat)
    requires Tiled(m.chunks) && m.size >= 0
    requires i <= n && Arrivals(s, ending, i).Got? && LandAll(h, m, Arrivals(s, ending, i).value).Err?
    ensures Arrivals(s, ending, n).Got? ==> LandAll(h, m, Arrivals(s, ending, n).value).Err?
  {
    if Arrivals(s, ending, n).Got? {
      EarlierArrivals(s, ending, i, n);
      StaysRejected(h, m, Arrivals(s, ending, i).value, Arrivals(s, ending, n).value);
    }
  }

  // ----- what an honest sender's stream does at the other end

  ghost function HonestArrivals(cs: seq<ChunkInfo>, content: bytes, n: nat): (fs: seq<Arrival>)
    requires n <= |cs|
    ensures |fs| == n && forall i :: 0 <= i < n ==> fs[i] == Arrival(i, Slice(content, cs[i]))
  {
    if n == 0 then []
    else HonestArrivals(cs, content, n - 1) + [Arrival(n - 1, Slice(content, cs[n - 1]))]
  }

  lemma HonestFrame(cs: seq<ChunkInfo>, content: bytes, i: nat, rest: bytes, ending: Ending)
    requires Tiled(cs) && WithinLimits(cs) && End(cs) <= |content| && i < |cs|
    ensures var data := Slice(content, cs[i]);
            ParseChunk(PrintChunk(i, data) + rest, ending) == Got((i, data), rest)
  {
    ChunkInside(cs, i);
    ChunkRoundTrip(i, Slice(content, cs[i]), rest, ending);
  }

  lemma {:induction false} HonestFrames(cs: seq<ChunkInfo>, content: bytes, n: nat, rest: bytes, ending: Ending)
    requires Tiled(cs) && WithinLimits(cs) && End(cs) <= |content| && n <= |cs|
    ensures Arrivals(ChunkStream(cs, content, n) + rest, ending, n) ==
            Got(HonestArrivals(cs, content, n), rest)
    decreases n
  {
    if n == 0 {
      assert ChunkStream(cs, content, 0) + rest == rest;
    } else {
      var tail := PrintChunk(n - 1, Slice(content, cs[n - 1])) + rest;
      HonestFrames(cs, content, n - 1, tail, ending);
      HonestStep(cs, content, n, ChunkStream(cs, content, n - 1) + tail, tail, rest, ending);
      LastFrame(cs, content, n, rest);
    }
  }

  lemma HonestStep(cs: seq<ChunkInfo>, content: bytes, n: nat, s: bytes, tail: bytes, rest: bytes, ending: Ending)
    requires Tiled(cs) && WithinLimits(cs) && End(cs) <= |content| && 0 < n <= |cs|
    requires tail == PrintChunk(n - 1, Slice(content, cs[n - 1])) + rest
    requires Arrivals(s, ending, n - 1) == Got(HonestArrivals(cs, content, n - 1), tail)
    ensures Arrivals(s, ending, n) == Got(HonestArrivals(cs, content, n), rest)
  {
    HonestFrame(cs, content, n - 1, rest, ending);
    LastHonestArrival(cs, content, n);
    OneMoreArrival(s, ending, n, HonestArrivals(cs, content, n - 1), HonestArrivals(cs, content, n), tail,
                   Slice(content, cs[n - 1]), rest);
  }

  lemma LastFrame(cs: seq<ChunkInfo>, content: bytes, n: nat, rest: bytes)
    requires 0 < n <= |cs|
    ensures ChunkStream(cs, content, n) + rest ==
            ChunkStream(cs, content, n - 1) + (PrintChunk(n - 1, Slice(content, cs[n - 1])) + rest)
  {
    Regroup(ChunkStream(cs, content, n - 1), PrintChunk(n - 1, Slice(content, cs[n - 1])), rest);
  }

  lemma LastHonestArrival(cs: seq<ChunkInfo>, content: bytes, n: nat)
    requires 0 < n <= |cs|
    ensures HonestArrivals(cs, content, n) ==
            HonestArrivals(cs, content, n - 1) + [Arrival(n - 1, Slice(content, cs[n - 1]))]
  {
  }

  lemma OneMoreArrival(s: bytes, ending: Ending, n: nat, before: seq<Arrival>, after: seq<Arrival>, tail: bytes,
                       data: bytes, rest: bytes)
    requires n > 0 && Arrivals(s, ending, n - 1) == Got(before, tail)
    requires ParseChunk(tail, ending) == Got((n - 1, data), rest) && after == before + [Arrival(n - 1, data)]
    ensures Arrivals(s, ending, n) == Got(after, rest)
  {
  }

  lemma HonestAreGenuine(h: Hash, m: Manifest, content: bytes, n: nat)
    requires Describes(h, m, content) && n <= |m.chunks|
    ensures forall a :: a in HonestArrivals(m.chunks, content, n) ==> Genuine(h, m, a)
    ensures NoRepeats(HonestArrivals(m.chunks, content, n))
  {
    var fs := HonestArrivals(m.chunks, content, n);
    forall a | a in fs
      ensures Genuine(h, m, a)
    {
      var i :| 0 <= i < n && fs[i] == a;
      ChunkInside(m.chunks, i);
    }
  }

  lemma HonestLanding(h: Hash, m: Manifest, content: bytes, n: nat)
    requires Valid(m) && Describes(h, m, content) && n <= |m.chunks|
    ensures m.size >= 0 && LandAll(h, m, HonestArrivals(m.chunks, content, n)).Ok?
    ensures n == |m.chunks| ==>
              LandAll(h, m, HonestArrivals(m.chunks, content, n)).value.file == content
  {
    ValidSize(m.chunks);
    HonestAreGenuine(h, m, content, n);
    var fs := HonestArrivals(m.chunks, content, n);
    LandAllMeaning(h, m, fs);
    if n == |m.chunks| {
      var file := LandAll(h, m, fs).value.file;
      forall i | 0 <= i < n
        ensures Slice(file, m.chunks[i]) == Slice(content, m.chunks[i])
      {
        assert fs[i] == Arrival(i, Slice(content, m.chunks[i]));
      }
      SlicesDecide(m.chunks, file, content);
    }
  }

  /** What Send puts on the wire after the verdict, any receiver of the same manifest turns
      back into the file, with no assumption on the hash. */
  lemma SentIsDelivered(h: Hash, m: Manifest, content: bytes, rest: bytes, ending: Ending)
    requires Valid(m) && Describes(h, m, content)
    ensures var s := ChunkStream(m.chunks, content, |m.chunks|) + rest;
            && Delivers(h, m, s, ending) && Delivered(h, m, s, ending) == content
            && Arrivals(s, ending, |m.chunks|).rest == rest
  {
    HonestFrames(m.chunks, content, |m.chunks|, rest, ending);
    HonestLanding(h, m, content, |m.chunks|);
  }

  /** Against any stream at all and for any hash, if the manifest describes a file: as many accepted
      frames as there are chunks leave that file, exactly when no two different chunks with one hash
      are among them, and then the check of the whole file does not turn it away. So whoever gets
      another file delivered has found two collisions, one of chunks and one of files. */
  lemma DeliveredIsSource(h: Hash, m: Manifest, source: bytes, s: bytes, ending: Ending)
    requires Valid(m) && Describes(h, m, source)
    ensures var p := Arrivals(s, ending, |m.chunks|);
            p.Got? && LandAll(h, m, p.value).Ok? ==>
              var file := LandAll(h, m, p.value).value.file;
              && (file == source <==> !Collided(h, m, file, source))
              && (file == source ==> Delivers(h, m, s, ending))
    ensures Delivers(h, m, s, ending) ==>
              var file := Delivered(h, m, s, ending);
              file == source || (Collided(h, m, file, source) && Collision(h, file, source))
  {
    var p := Arrivals(s, ending, |m.chunks|);
    if p.Got? && LandAll(h, m, p.value).Ok? {
      ArrivalsCount(s, ending, |m.chunks|);
      FullLandingIsSource(h, m, p.value, source);
    }
  }

  lemma {:induction false} ArrivalsCount(s: bytes, ending: Ending, n: nat)
    ensures Arrivals(s, ending, n).Got? ==> |Arrivals(s, ending, n).value| == n
  {
    if n > 0 {
      ArrivalsCount(s, ending, n - 1);
    }
  }
}
