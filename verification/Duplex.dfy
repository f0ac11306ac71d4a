/** A whole blob connection as two processes and two bounded pipes: the hello exchange, the
    manifest, the verdict and the chunks, moved in pieces of any size and in any interleaving.
    Proved: nobody ever waits for ever, every run ends, and it ends with the file delivered or
    the refusal understood. */
module Duplex {
  import opened BlobManifest
  import opened Bytes
  import opened Landing
  import opened Stream
  import opened Transfer
  import opened Wire
  import opened Wrappers

  datatype Intent = HelloOnly | BlobFollows | TaskFollows | ResultFollows

  datatype Hello = Hello(nodeID: string, intent: Intent)

  /** What the two nodes bring along. `answer` is what Validate and the receiver's policy
      make of a manifest, together. */
  datatype Setup = Setup(
    h: Hash, hellos: Codec<Hello>, manifests: Codec<Manifest>,
    dialer: Hello, listener: Hello, m: Manifest, content: bytes,
    answer: Manifest -> Verdict, outCap: nat, backCap: nat)
  {
    /** An honest pair: the manifest describes the file, the three messages survive their encoding
        and keep to their size limits, and the receiver accepts only what Validate accepts. */
    ghost predicate Honest() {
      && Describes(h, m, content)
      && hellos.Keeps(dialer) && hellos.Keeps(listener) && manifests.Keeps(m)
      && dialer.intent == BlobFollows
      && |hellos.enc(dialer)| <= HELLO.cap && |hellos.enc(listener)| <= HELLO.cap
      && |manifests.enc(m)| <= MANIFEST.cap
      && (answer(m).None? ==> Valid(m))
      && outCap >= 1 && backCap >= 1
    }

    ghost function N(): nat {
      if answer(m).None? then |m.chunks| else 0
    }
  }

  // ----- processes

  /** What a process is busy with: a Write with `left` still to go, or ReadFull calls for one
      frame with `got` already in. */
  datatype Io =
    | Put(left: bytes)
    | Get(shape: Shape, got: bytes)
    | Idle

  /** How many bytes the ReadFull under way still asks for. */
  function Need(sh: Shape, got: bytes): nat {
    var head := sh.tag + sh.width;
    if |got| < head then head - |got|
    else if sh.version.Some? && sh.tag > 0 && got[0] != sh.version.value then 0
    else
      var n := FromBe(got[..head][sh.tag..]);
      if n > sh.cap || head + n < |got| then 0 else head + n - |got|
  }

  predicate Complete(io: Io) {
    match io
    case Put(left) => left == []
    case Get(sh, got) => Need(sh, got) == 0
    case Idle => false
  }

  datatype Ended = Fine | TurnedDown(reason: bytes) | Failed

  datatype DStage = SayHello | HearHello | SayManifest | HearVerdict | SayChunk(i: nat) | DGone(end: Ended)

  datatype LStage =
    | LHearHello
    | LSayHello(peer: Hello)
    | HearManifest
    | SayVerdict(m: Manifest, v: Verdict)
    | HearChunk(m: Manifest, i: nat, st: Landing)
    | LGone(end: Ended, file: bytes)

  datatype Dialer = Dialer(stage: DStage, io: Io)

  datatype Listener = Listener(stage: LStage, io: Io)

  ghost function ChunkFrame(u: Setup, i: nat): bytes
    requires i < |u.m.chunks|
  {
    PrintChunk(i, Slice(u.content, u.m.chunks[i]))
  }

  ghost function ToChunk(u: Setup, i: nat): Dialer {
    if i < |u.m.chunks| then Dialer(SayChunk(i), Put(ChunkFrame(u, i))) else Dialer(DGone(Fine), Idle)
  }

  /** Where SendBlob goes when its current read or write is complete. */
  ghost function DNext(u: Setup, d: Dialer): Dialer
    requires Complete(d.io)
  {
    match d.stage
    case SayHello => Dialer(HearHello, Get(HELLO, []))
    case HearHello =>
      if d.io.Get? && ParseJson(HELLO, u.hellos, d.io.got, Closed).Got?
      then Dialer(SayManifest, Put(PrintJson(MANIFEST, u.manifests, u.m)))
      else Dialer(DGone(Failed), Idle)
    case SayManifest => Dialer(HearVerdict, Get(VERDICT, []))
    case HearVerdict =>
      if d.io.Get? && ParseVerdict(d.io.got, Closed).Got? then
        var v := ParseVerdict(d.io.got, Closed).value;
        if v.Some? then Dialer(DGone(TurnedDown(v.value)), Idle) else ToChunk(u, 0)
      else Dialer(DGone(Failed), Idle)
    case SayChunk(i) => ToChunk(u, i + 1)
    case DGone(_) => d
  }

  ghost function FromChunk(u: Setup, m: Manifest, i: nat, st: Landing): Listener {
    if i < |m.chunks| then Listener(HearChunk(m, i, st), Get(CHUNK, []))
    else if u.h(st.file) == m.sha256 then Listener(LGone(Fine, st.file), Idle)
    else Listener(LGone(Failed, []), Idle)
  }

  /** The same for the node that answers: the hello, then Receive. */
  ghost function LNext(u: Setup, l: Listener): Listener
    requires Complete(l.io)
  {
    var failed := Listener(LGone(Failed, []), Idle);
    match l.stage
    case LHearHello =>
      if !l.io.Get? then failed else
      (match ParseJson(HELLO, u.hellos, l.io.got, Closed)
       case Got(peer, _) => Listener(LSayHello(peer), Put(PrintJson(HELLO, u.hellos, u.listener)))
       case Bad(_, _) => failed)
    case LSayHello(peer) =>
      if peer.intent == BlobFollows then Listener(HearManifest, Get(MANIFEST, []))
      else Listener(LGone(Fine, []), Idle)
    case HearManifest =>
      if !l.io.Get? then failed else
      (match ParseJson(MANIFEST, u.manifests, l.io.got, Closed)
       case Got(m, _) => Listener(SayVerdict(m, u.answer(m)), Put(PrintVerdict(u.answer(m))))
       case Bad(_, _) => failed)
    case SayVerdict(m, v) =>
      if v.Some? then Listener(LGone(TurnedDown(v.value), []), Idle)
      else if m.size < 0 then failed
      else FromChunk(u, m, 0, Fresh(m))
    case HearChunk(m, i, st) =>
      if !l.io.Get? then failed else
      (match ParseChunk(l.io.got, Closed)
       case Bad(_, _) => failed
       case Got(pair, _) =>
         if !Tiled(m.chunks) then failed else
         match Land(u.h, m, st, Arrival(pair.0, pair.1))
         case Ok(st') => FromChunk(u, m, i + 1, st')
         case Err(_) => failed)
    case LGone(_, _) => l
  }

  // ----- the two together

  /** `out` and `back` are the pipes; `sent` and `replied` count all bytes ever put in. */
  datatype Net = Net(d: Dialer, l: Listener, out: bytes, back: bytes, sent: nat, replied: nat)

  ghost function Initial(u: Setup): Net {
    Net(Dialer(SayHello, Put(PrintJson(HELLO, u.hellos, u.dialer))), Listener(LHearHello, Get(HELLO, [])),
        [], [], 0, 0)
  }

  /** n bytes of a Write go into a pipe that has room for them. */
  predicate Pushes(io: Io, io': Io, pipe: bytes, pipe': bytes, cap: nat, n: nat) {
    && io.Put? && 1 <= n <= |io.left| && |pipe| + n <= cap
    && io' == Put(io.left[n..]) && pipe' == pipe + io.left[..n]
  }

  /** n bytes come out of a pipe into the buffer of a ReadFull. */
  predicate Pulls(io: Io, io': Io, pipe: bytes, pipe': bytes, n: nat) {
    && io.Get? && 1 <= n <= Need(io.shape, io.got) && n <= |pipe|
    && io' == Get(io.shape, io.got + pipe[..n]) && pipe' == pipe[n..]
  }

  datatype Move = DWrite(n: nat) | DRead(n: nat) | DTurn | LWrite(n: nat) | LRead(n: nat) | LTurn

  ghost predicate NetStep(u: Setup, s: Net, s': Net, move: Move) {
    match move
    case DWrite(n) =>
      && Pushes(s.d.io, s'.d.io, s.out, s'.out, u.outCap, n)
      && s' == s.(d := s.d.(io := s'.d.io), out := s'.out, sent := s.sent + n)
    case DRead(n) =>
      && Pulls(s.d.io, s'.d.io, s.back, s'.back, n)
      && s' == s.(d := s.d.(io := s'.d.io), back := s'.back)
    case DTurn => Complete(s.d.io) && s' == s.(d := DNext(u, s.d))
    case LWrite(n) =>
      && Pushes(s.l.io, s'.l.io, s.back, s'.back, u.backCap, n)
      && s' == s.(l := s.l.(io := s'.l.io), back := s'.back, replied := s.replied + n)
    case LRead(n) =>
      && Pulls(s.l.io, s'.l.io, s.out, s'.out, n)
      && s' == s.(l := s.l.(io := s'.l.io), out := s'.out)
    case LTurn => Complete(s.l.io) && s' == s.(l := LNext(u, s.l))
  }

  // ----- what crosses the wire in an honest run

  ghost function H(u: Setup): Frame {
    Frame(HELLO, Raw([], u.hellos.enc(u.dialer)))
  }

  ghost function HL(u: Setup): Frame {
    Frame(HELLO, Raw([], u.hellos.enc(u.listener)))
  }

  ghost function M(u: Setup): Frame {
    Frame(MANIFEST, Raw([], u.manifests.enc(u.m)))
  }

  ghost function V(u: Setup): Frame {
    var v := u.answer(u.m);
    Frame(VERDICT, if v.Some? then Raw([1], Clip(v).value) else Raw([0], []))
  }

  ghost function C(u: Setup, i: nat): Frame
    requires i < |u.m.chunks|
  {
    Frame(CHUNK, Raw(Be(4, i), Slice(u.content, u.m.chunks[i])))
  }

  ghost function Text(f: Frame): bytes {
    PrintRaw(f.shape, f.raw)
  }

  /** Everything the dialer sends up to chunk i, and everything the listener replies. */
  ghost function Outbound(u: Setup, i: nat): bytes
    requires i <= |u.m.chunks|
  {
    Text(H(u)) + Text(M(u)) + ChunkStream(u.m.chunks, u.content, i)
  }

  ghost function Reply(u: Setup): bytes {
    Text(HL(u)) + Text(V(u))
  }

  /** A process at a known place: busy with `frame`, which starts at `w` of what it writes or
      at `r` of what it reads. */
  datatype Spot = Spot(w: nat, r: nat, frame: Option<Frame>, writing: bool)

  ghost predicate At(p: Spot, io: Io, w: nat, r: nat) {
    if p.frame.None? then io == Idle && w == p.w && r == p.r
    else if p.writing then
      && r == p.r && p.w <= w <= p.w + |Text(p.frame.value)| && io == Put(Text(p.frame.value)[w - p.w..])
    else
      && w == p.w && p.r <= r <= p.r + |Text(p.frame.value)|
      && io == Get(p.frame.value.shape, Text(p.frame.value)[..r - p.r])
  }

  ghost predicate DOk(u: Setup, stage: DStage) {
    match stage
    case SayChunk(i) => u.answer(u.m).None? && i < |u.m.chunks|
    case DGone(end) =>
      if u.answer(u.m).None? then end == Fine else end == TurnedDown(Clip(u.answer(u.m)).value)
    case _ => true
  }

  ghost function DSpot(u: Setup, stage: DStage): Spot
    requires DOk(u, stage)
  {
    var (h, m, hl) := (|Text(H(u))|, |Text(M(u))|, |Text(HL(u))|);
    match stage
    case SayHello => Spot(0, 0, Some(H(u)), true)
    case HearHello => Spot(h, 0, Some(HL(u)), false)
    case SayManifest => Spot(h, hl, Some(M(u)), true)
    case HearVerdict => Spot(h + m, hl, Some(V(u)), false)
    case SayChunk(i) => Spot(|Outbound(u, i)|, |Reply(u)|, Some(C(u, i)), true)
    case DGone(_) => Spot(|Outbound(u, u.N())|, |Reply(u)|, None, true)
  }

  ghost predicate LOk(u: Setup, stage: LStage) {
    match stage
    case LSayHello(peer) => peer == u.dialer
    case SayVerdict(m, v) => m == u.m && v == u.answer(u.m)
    case HearChunk(m, i, st) =>
      && m == u.m && u.answer(u.m).None? && i < |m.chunks| && Valid(m) && m.size >= 0
      && LandAll(u.h, m, HonestArrivals(m.chunks, u.content, i)) == Ok(st)
    case LGone(end, file) =>
      if u.answer(u.m).None? then end == Fine && file == u.content else end == TurnedDown(u.answer(u.m).value)
    case _ => true
  }

  ghost function LSpot(u: Setup, stage: LStage): Spot
    requires LOk(u, stage)
  {
    var (h, m, hl) := (|Text(H(u))|, |Text(M(u))|, |Text(HL(u))|);
    match stage
    case LHearHello => Spot(0, 0, Some(H(u)), false)
    case LSayHello(_) => Spot(0, h, Some(HL(u)), true)
    case HearManifest => Spot(hl, h, Some(M(u)), false)
    case SayVerdict(_, _) => Spot(hl, h + m, Some(V(u)), true)
    case HearChunk(_, i, _) => Spot(|Reply(u)|, |Outbound(u, i)|, Some(C(u, i)), false)
    case LGone(_, _) => Spot(|Reply(u)|, |Outbound(u, u.N())|, None, true)
  }

  /** The pipe holds the last bytes put in, out of all that ever will be. */
  ghost predicate Carries(pipe: bytes, all: bytes, put: nat) {
    |pipe| <= put <= |all| && pipe == all[put - |pipe|..put]
  }

  /** Both processes are where the bytes put and taken say they are, and the pipes hold
      exactly the bytes in between. */
  ghost predicate Linked(out: bytes, reply: bytes, p: Spot, q: Spot, s: Net) {
    && Carries(s.out, out, s.sent) && Carries(s.back, reply, s.replied)
    && At(p, s.d.io, s.sent, s.replied - |s.back|)
    && At(q, s.l.io, s.replied, s.sent - |s.out|)
  }

  ghost predicate Inv(u: Setup, s: Net) {
    && DOk(u, s.d.stage) && LOk(u, s.l.stage)
    && Linked(Outbound(u, u.N()), Reply(u), DSpot(u, s.d.stage), LSpot(u, s.l.stage), s)
  }

  // ----- geometry of the byte streams

  lemma HonestFits(u: Setup)
    requires u.Honest()
    ensures FrameFits(H(u)) && FrameFits(HL(u)) && FrameFits(M(u)) && FrameFits(V(u))
  {
    ShapesSound();
  }

  lemma ChunkFits(u: Setup, i: nat)
    requires u.Honest() && Valid(u.m) && i < |u.m.chunks|
    ensures FrameFits(C(u, i)) && Text(C(u, i)) == ChunkFrame(u, i)
  {
    ShapesSound();
    ChunkInside(u.m.chunks, i);
  }

  /** A ReadFull never asks past the end of its frame, and is satisfied exactly there. */
  lemma NeedOfPrefix(f: Frame, k: nat)
    requires FrameFits(f) && k <= |Text(f)|
    ensures var need := Need(f.shape, Text(f)[..k]);
            need <= |Text(f)| - k && (need == 0 <==> k == |Text(f)|)
  {
    var s, head := Text(f), f.shape.tag + f.shape.width;
    assert s + [] == s;
    HeaderOf(f.shape, f.raw, []);
    if k >= head {
      assert s[..k][..head] == s[..head];
      if f.shape.version.Some? {
        assert s[..k][0] == s[..head][..f.shape.tag][0];
      }
    }
  }

  lemma PrefixOfMore(a: bytes, b: bytes, x: bytes)
    requires a <= b
    ensures a <= b + x
  {
  }

  lemma {:induction false} StreamGrows(u: Setup, i: nat, n: nat)
    requires i <= n <= |u.m.chunks|
    ensures Outbound(u, i) <= Outbound(u, n)
    decreases n
  {
    if i < n {
      StreamGrows(u, i, n - 1);
      OutboundNext(u, n - 1);
      PrefixOfMore(Outbound(u, i), Outbound(u, n - 1), Text(C(u, n - 1)));
    }
  }

  lemma OutboundNext(u: Setup, i: nat)
    requires i < |u.m.chunks|
    ensures Outbound(u, i + 1) == Outbound(u, i) + Text(C(u, i))
  {
  }

  /** `f` is what stands at position `at` of `s`. */
  ghost predicate Stands(s: bytes, at: nat, f: bytes) {
    at + |f| <= |s| && s[at..at + |f|] == f
  }

  lemma PrefixStands(s: bytes, a: bytes, f: bytes)
    requires a + f <= s
    ensures Stands(s, |a|, f)
  {
    assert s[..|a + f|] == a + f;
  }

  lemma ChunkStands(u: Setup, i: nat)
    requires u.Honest() && u.answer(u.m).None? && i < |u.m.chunks|
    ensures FrameFits(C(u, i)) && Stands(Outbound(u, u.N()), |Outbound(u, i)|, Text(C(u, i)))
  {
    ChunkFits(u, i);
    OutboundNext(u, i);
    StreamGrows(u, i + 1, u.N());
    PrefixStands(Outbound(u, u.N()), Outbound(u, i), Text(C(u, i)));
  }

  lemma HeadStands(u: Setup)
    requires u.Honest()
    ensures Stands(Outbound(u, u.N()), 0, Text(H(u))) && Stands(Outbound(u, u.N()), |Text(H(u))|, Text(M(u)))
    ensures Stands(Reply(u), 0, Text(HL(u))) && Stands(Reply(u), |Text(HL(u))|, Text(V(u)))
  {
    StreamGrows(u, 0, u.N());
    assert Outbound(u, 0) == Text(H(u)) + Text(M(u));
    PrefixStands(Outbound(u, u.N()), [], Text(H(u)));
    PrefixStands(Outbound(u, u.N()), Text(H(u)), Text(M(u)));
    PrefixStands(Reply(u), [], Text(HL(u)));
    PrefixStands(Reply(u), Text(HL(u)), Text(V(u)));
  }

  /** The frame a process is busy with is where the script of the connection has it. */
  ghost predicate InScript(p: Spot, written: bytes, read: bytes) {
    p.frame.Some? ==>
      && FrameFits(p.frame.value)
      && if p.writing then Stands(written, p.w, Text(p.frame.value)) else Stands(read, p.r, Text(p.frame.value))
  }

  lemma DStands(u: Setup, stage: DStage)
    requires u.Honest() && DOk(u, stage)
    ensures InScript(DSpot(u, stage), Outbound(u, u.N()), Reply(u))
  {
    HonestFits(u);
    HeadStands(u);
    if stage.SayChunk? {
      ChunkStands(u, stage.i);
    }
  }

  lemma LStands(u: Setup, stage: LStage)
    requires u.Honest() && LOk(u, stage)
    ensures InScript(LSpot(u, stage), Reply(u), Outbound(u, u.N()))
  {
    HonestFits(u);
    HeadStands(u);
    if stage.HearChunk? {
      ChunkStands(u, stage.i);
    }
  }

  // ----- moving bytes keeps everyone in place

  lemma PushKeeps(all: bytes, p: Spot, io: Io, io': Io, pipe: bytes, pipe': bytes, cap: nat, n: nat, put: nat, r: nat)
    requires At(p, io, put, r) && Pushes(io, io', pipe, pipe', cap, n) && Carries(pipe, all, put)
    requires p.frame.Some? ==> p.writing ==> Stands(all, p.w, Text(p.frame.value))
    ensures At(p, io', put + n, r) && Carries(pipe', all, put + n) && |pipe'| == |pipe| + n
  {
    var f := Text(p.frame.value);
    var k := put - p.w;
    TakenFrom(all, p.w, f, k, n);
    assert all[put - |pipe|..put] + all[put..put + n] == all[put - |pipe|..put + n];
  }

  lemma TakenFrom(all: bytes, at: nat, f: bytes, k: nat, n: nat)
    requires Stands(all, at, f) && k + n <= |f|
    ensures f[k..][..n] == all[at + k..at + k + n] && f[k..][n..] == f[k + n..]
  {
    SliceOfSlice(all, at, at + |f|, k, k + n);
    SliceOfSlice(f, k, |f|, 0, n);
    SliceOfSlice(f, k, |f|, n, |f| - k);
  }

  lemma Joined(all: bytes, at: nat, f: bytes, r: nat, n: nat)
    requires Stands(all, at, f) && at <= r && r + n <= at + |f|
    ensures f[..r - at] + all[r..r + n] == f[..r + n - at]
  {
    var k := r - at;
    SliceOfSlice(all, at, at + |f|, k, k + n);
    assert f[..k] + f[k..k + n] == f[..k + n];
  }

  lemma PullKeeps(all: bytes, p: Spot, io: Io, io': Io, pipe: bytes, pipe': bytes, n: nat, put: nat, w: nat)
    requires |pipe| <= put && At(p, io, w, put - |pipe|) && Pulls(io, io', pipe, pipe', n) && Carries(pipe, all, put)
    requires p.frame.Some? ==> FrameFits(p.frame.value) && (!p.writing ==> Stands(all, p.r, Text(p.frame.value)))
    ensures At(p, io', w, put - |pipe'|) && Carries(pipe', all, put) && |pipe'| == |pipe| - n
  {
    var r := put - |pipe|;
    NeedOfPrefix(p.frame.value, r - p.r);
    Joined(all, p.r, Text(p.frame.value), r, n);
    SliceOfSlice(all, r, put, 0, n);
    SliceOfSlice(all, r, put, n, put - r);
  }

  // ----- a finished read or write leads to the next place

  lemma CompleteAt(p: Spot, io: Io, w: nat, r: nat)
    requires At(p, io, w, r) && Complete(io)
    requires p.frame.Some? ==> FrameFits(p.frame.value)
    ensures p.frame.Some?
    ensures if p.writing then w == p.w + |Text(p.frame.value)| && r == p.r && io.Put?
            else w == p.w && r == p.r + |Text(p.frame.value)| && io == Get(p.frame.value.shape, Text(p.frame.value))
  {
    if p.frame.Some? && !p.writing {
      NeedOfPrefix(p.frame.value, r - p.r);
    }
  }

  lemma HeardHello(u: Setup, x: Hello)
    requires u.Honest() && (x == u.dialer || x == u.listener)
    ensures ParseJson(HELLO, u.hellos, Text(Frame(HELLO, Raw([], u.hellos.enc(x)))), Closed) == Got(x, [])
  {
    ShapesSound();
    JsonRoundTrip(HELLO, u.hellos, x, [], Closed);
    assert PrintJson(HELLO, u.hellos, x) + [] == PrintJson(HELLO, u.hellos, x);
  }

  lemma HeardManifest(u: Setup)
    requires u.Honest()
    ensures ParseJson(MANIFEST, u.manifests, Text(M(u)), Closed) == Got(u.m, [])
  {
    ShapesSound();
    JsonRoundTrip(MANIFEST, u.manifests, u.m, [], Closed);
    assert PrintJson(MANIFEST, u.manifests, u.m) + [] == PrintJson(MANIFEST, u.manifests, u.m);
  }

  lemma HeardVerdict(u: Setup)
    ensures ParseVerdict(Text(V(u)), Closed) == Got(Clip(u.answer(u.m)), [])
  {
    VerdictRoundTrip(u.answer(u.m), [], Closed);
    assert PrintVerdict(u.answer(u.m)) + [] == PrintVerdict(u.answer(u.m));
  }

  lemma HeardChunk(u: Setup, i: nat)
    requires u.Honest() && Valid(u.m) && i < |u.m.chunks|
    ensures ParseChunk(Text(C(u, i)), Closed) == Got((i, Slice(u.content, u.m.chunks[i])), [])
  {
    HonestFrame(u.m.chunks, u.content, i, [], Closed);
    assert ChunkFrame(u, i) + [] == ChunkFrame(u, i);
  }

  lemma DTurnKeeps(u: Setup, d: Dialer, w: nat, r: nat)
    requires u.Honest() && DOk(u, d.stage) && At(DSpot(u, d.stage), d.io, w, r) && Complete(d.io)
    ensures var d' := DNext(u, d);
            DOk(u, d'.stage) && At(DSpot(u, d'.stage), d'.io, w, r)
  {
    DStands(u, d.stage);
    CompleteAt(DSpot(u, d.stage), d.io, w, r);
    match d.stage
    case HearHello => ReplyTurn(u, d);
    case HearVerdict => VerdictTurn(u, d, w, r);
    case SayChunk(i) => SaidChunk(u, d);
    case _ =>
  }

  lemma SaidChunk(u: Setup, d: Dialer)
    requires u.Honest() && d.stage.SayChunk? && DOk(u, d.stage) && Complete(d.io)
    ensures var d' := DNext(u, d); var p := DSpot(u, d.stage);
            DOk(u, d'.stage) && At(DSpot(u, d'.stage), d'.io, p.w + |Text(p.frame.value)|, p.r)
  {
    var i := d.stage.i;
    OutboundNext(u, i);
    ToChunkOk(u, i + 1);
    assert DNext(u, d) == ToChunk(u, i + 1);
    assert DSpot(u, d.stage) == Spot(|Outbound(u, i)|, |Reply(u)|, Some(C(u, i)), true);
  }

  lemma ReplyTurn(u: Setup, d: Dialer)
    requires u.Honest() && d == Dialer(HearHello, Get(HELLO, Text(HL(u)))) && Complete(d.io)
    ensures DNext(u, d) == Dialer(SayManifest, Put(Text(M(u))))
  {
    HeardHello(u, u.listener);
  }

  lemma ToChunkOk(u: Setup, i: nat)
    requires u.Honest() && u.answer(u.m).None? && i <= |u.m.chunks|
    ensures var d := ToChunk(u, i);
            DOk(u, d.stage) && At(DSpot(u, d.stage), d.io, |Outbound(u, i)|, |Reply(u)|)
  {
    if i < |u.m.chunks| {
      ChunkFits(u, i);
    }
  }

  lemma VerdictTurn(u: Setup, d: Dialer, w: nat, r: nat)
    requires u.Honest() && d.stage == HearVerdict && d.io == Get(VERDICT, Text(V(u)))
    requires w == |Text(H(u))| + |Text(M(u))| && r == |Reply(u)| && Complete(d.io)
    ensures var d' := DNext(u, d);
            DOk(u, d'.stage) && At(DSpot(u, d'.stage), d'.io, w, r)
  {
    HeardVerdict(u);
    assert |Outbound(u, 0)| == w;
    if u.answer(u.m).None? {
      ToChunkOk(u, 0);
    }
  }

  lemma LandHonest(u: Setup, i: nat, st: Landing)
    requires u.Honest() && Valid(u.m) && u.m.size >= 0 && i < |u.m.chunks|
    requires LandAll(u.h, u.m, HonestArrivals(u.m.chunks, u.content, i)) == Ok(st)
    ensures var next := Land(u.h, u.m, st, Arrival(i, Slice(u.content, u.m.chunks[i])));
            next.Ok? && LandAll(u.h, u.m, HonestArrivals(u.m.chunks, u.content, i + 1)) == next
  {
    HonestLanding(u.h, u.m, u.content, i + 1);
    var fs := HonestArrivals(u.m.chunks, u.content, i + 1);
    assert fs[..i] == HonestArrivals(u.m.chunks, u.content, i);
  }

  /** With all chunks in, the listener holds the file and the last check passes. */
  lemma FromChunkOk(u: Setup, i: nat, st: Landing)
    requires u.Honest() && u.answer(u.m).None? && u.m.size >= 0 && i <= |u.m.chunks|
    requires LandAll(u.h, u.m, HonestArrivals(u.m.chunks, u.content, i)) == Ok(st)
    ensures var l := FromChunk(u, u.m, i, st);
            LOk(u, l.stage) && At(LSpot(u, l.stage), l.io, |Reply(u)|, |Outbound(u, i)|)
  {
    HonestLanding(u.h, u.m, u.content, i);
  }

  lemma ChunkRead(u: Setup, l: Listener, landed: Landing)
    requires u.Honest() && LOk(u, l.stage) && l.stage.HearChunk?
    requires l.io == Get(CHUNK, Text(C(u, l.stage.i))) && Complete(l.io)
    requires Land(u.h, u.m, l.stage.st, Arrival(l.stage.i, Slice(u.content, u.m.chunks[l.stage.i]))) == Ok(landed)
    ensures LNext(u, l) == FromChunk(u, u.m, l.stage.i + 1, landed)
  {
    HeardChunk(u, l.stage.i);
  }

  /** A listener that has read the frame of chunk i lands it and goes on to the next. */
  lemma ChunkHeard(u: Setup, l: Listener) returns (landed: Landing)
    requires u.Honest() && LOk(u, l.stage) && l.stage.HearChunk?
    requires l.io == Get(CHUNK, Text(C(u, l.stage.i))) && Complete(l.io)
    ensures LNext(u, l) == FromChunk(u, u.m, l.stage.i + 1, landed)
    ensures LandAll(u.h, u.m, HonestArrivals(u.m.chunks, u.content, l.stage.i + 1)) == Ok(landed)
  {
    var (i, st) := (l.stage.i, l.stage.st);
    LandHonest(u, i, st);
    landed := Land(u.h, u.m, st, Arrival(i, Slice(u.content, u.m.chunks[i]))).value;
    ChunkRead(u, l, landed);
  }

  lemma ChunkTurn(u: Setup, l: Listener)
    requires u.Honest() && LOk(u, l.stage) && l.stage.HearChunk?
    requires l.io == Get(CHUNK, Text(C(u, l.stage.i))) && Complete(l.io)
    ensures var l' := LNext(u, l);
            LOk(u, l'.stage) && At(LSpot(u, l'.stage), l'.io, |Reply(u)|, |Outbound(u, l.stage.i + 1)|)
  {
    var landed := ChunkHeard(u, l);
    FromChunkOk(u, l.stage.i + 1, landed);
  }

  lemma AnswerTurn(u: Setup, l: Listener)
    requires u.Honest() && l == Listener(SayVerdict(u.m, u.answer(u.m)), Put([]))
    ensures var l' := LNext(u, l);
            LOk(u, l'.stage) && At(LSpot(u, l'.stage), l'.io, |Reply(u)|, |Outbound(u, 0)|)
  {
    if u.answer(u.m).None? {
      ValidSize(u.m.chunks);
      FromChunkOk(u, 0, Fresh(u.m));
    }
  }

  lemma HelloTurn(u: Setup, l: Listener)
    requires u.Honest() && l == Listener(LHearHello, Get(HELLO, Text(H(u)))) && Complete(l.io)
    ensures LNext(u, l) == Listener(LSayHello(u.dialer), Put(Text(HL(u))))
  {
    HeardHello(u, u.dialer);
  }

  lemma ManifestTurn(u: Setup, l: Listener)
    requires u.Honest() && l == Listener(HearManifest, Get(MANIFEST, Text(M(u)))) && Complete(l.io)
    ensures LNext(u, l) == Listener(SayVerdict(u.m, u.answer(u.m)), Put(Text(V(u))))
  {
    HeardManifest(u);
  }

  lemma LTurnKeeps(u: Setup, l: Listener, w: nat, r: nat)
    requires u.Honest() && LOk(u, l.stage) && At(LSpot(u, l.stage), l.io, w, r) && Complete(l.io)
    ensures var l' := LNext(u, l);
            LOk(u, l'.stage) && At(LSpot(u, l'.stage), l'.io, w, r)
  {
    assert !l.stage.LGone?;
    if l.stage.HearChunk? {
      ChunkStands(u, l.stage.i);
      CompleteAt(LSpot(u, l.stage), l.io, w, r);
      OutboundNext(u, l.stage.i);
      ChunkTurn(u, l);
    } else if l.stage.SayVerdict? {
      MiddleTurn(u, l, w, r);
    } else {
      OpeningTurn(u, l, w, r);
    }
  }

  lemma MiddleTurn(u: Setup, l: Listener, w: nat, r: nat)
    requires u.Honest() && l.stage.SayVerdict?
    requires LOk(u, l.stage) && At(LSpot(u, l.stage), l.io, w, r) && Complete(l.io)
    ensures var l' := LNext(u, l);
            LOk(u, l'.stage) && At(LSpot(u, l'.stage), l'.io, w, r)
  {
    HonestFits(u);
    CompleteAt(LSpot(u, l.stage), l.io, w, r);
    assert |Outbound(u, 0)| == |Text(H(u))| + |Text(M(u))|;
    AnswerTurn(u, l);
  }

  lemma OpeningTurn(u: Setup, l: Listener, w: nat, r: nat)
    requires u.Honest() && (l.stage.LHearHello? || l.stage.LSayHello? || l.stage.HearManifest?)
    requires LOk(u, l.stage) && At(LSpot(u, l.stage), l.io, w, r) && Complete(l.io)
    ensures var l' := LNext(u, l);
            LOk(u, l'.stage) && At(LSpot(u, l'.stage), l'.io, w, r)
  {
    LStands(u, l.stage);
    CompleteAt(LSpot(u, l.stage), l.io, w, r);
    if l.stage.LHearHello? {
      HelloTurn(u, l);
    } else if l.stage.HearManifest? {
      ManifestTurn(u, l);
    }
  }

  // ----- every step keeps the invariant

  lemma InitialInv(u: Setup)
    requires u.Honest()
    ensures Inv(u, Initial(u))
  {
  }

  lemma DialerMoves(u: Setup, out: bytes, reply: bytes, p: Spot, q: Spot, s: Net, s': Net, move: Move)
    requires InScript(p, out, reply) && Linked(out, reply, p, q, s)
    requires NetStep(u, s, s', move) && (move.DWrite? || move.DRead?)
    ensures Linked(out, reply, p, q, s') && s'.d.stage == s.d.stage && s'.l == s.l
  {
    if move.DWrite? {
      PushKeeps(out, p, s.d.io, s'.d.io, s.out, s'.out, u.outCap, move.n, s.sent, s.replied - |s.back|);
    } else {
      PullKeeps(reply, p, s.d.io, s'.d.io, s.back, s'.back, move.n, s.replied, s.sent);
    }
  }

  lemma ListenerMoves(u: Setup, out: bytes, reply: bytes, p: Spot, q: Spot, s: Net, s': Net, move: Move)
    requires InScript(q, reply, out) && Linked(out, reply, p, q, s)
    requires NetStep(u, s, s', move) && (move.LWrite? || move.LRead?)
    ensures Linked(out, reply, p, q, s') && s'.l.stage == s.l.stage && s'.d == s.d
  {
    if move.LWrite? {
      PushKeeps(reply, q, s.l.io, s'.l.io, s.back, s'.back, u.backCap, move.n, s.replied, s.sent - |s.out|);
    } else {
      PullKeeps(out, q, s.l.io, s'.l.io, s.out, s'.out, move.n, s.sent, s.replied);
    }
  }

  lemma DialerTurned(u: Setup, s: Net)
    requires u.Honest() && Inv(u, s) && Complete(s.d.io)
    ensures var d := DNext(u, s.d); DOk(u, d.stage) && At(DSpot(u, d.stage), d.io, s.sent, s.replied - |s.back|)
  {
    DTurnKeeps(u, s.d, s.sent, s.replied - |s.back|);
  }

  lemma ListenerTurned(u: Setup, s: Net)
    requires u.Honest() && Inv(u, s) && Complete(s.l.io)
    ensures var l := LNext(u, s.l); LOk(u, l.stage) && At(LSpot(u, l.stage), l.io, s.replied, s.sent - |s.out|)
  {
    LTurnKeeps(u, s.l, s.replied, s.sent - |s.out|);
  }

  lemma DialerReplaced(u: Setup, s: Net, d: Dialer)
    requires Inv(u, s) && DOk(u, d.stage) && At(DSpot(u, d.stage), d.io, s.sent, s.replied - |s.back|)
    ensures Inv(u, s.(d := d))
  {
  }

  lemma ListenerReplaced(u: Setup, s: Net, l: Listener)
    requires Inv(u, s) && LOk(u, l.stage) && At(LSpot(u, l.stage), l.io, s.replied, s.sent - |s.out|)
    ensures Inv(u, s.(l := l))
  {
  }

  lemma DialerTurnKeepsInv(u: Setup, s: Net, s': Net)
    requires u.Honest() && Inv(u, s) && NetStep(u, s, s', DTurn)
    ensures Inv(u, s')
  {
    DialerTurned(u, s);
    DialerReplaced(u, s, DNext(u, s.d));
  }

  lemma ListenerTurnKeepsInv(u: Setup, s: Net, s': Net)
    requires u.Honest() && Inv(u, s) && NetStep(u, s, s', LTurn)
    ensures Inv(u, s')
  {
    ListenerTurned(u, s);
    ListenerReplaced(u, s, LNext(u, s.l));
  }

  lemma DialerMoveKeepsInv(u: Setup, s: Net, s': Net, move: Move)
    requires u.Honest() && Inv(u, s) && NetStep(u, s, s', move) && (move.DWrite? || move.DRead?)
    ensures Inv(u, s')
  {
    DStands(u, s.d.stage);
    DialerMoves(u, Outbound(u, u.N()), Reply(u), DSpot(u, s.d.stage), LSpot(u, s.l.stage), s, s', move);
  }

  lemma ListenerMoveKeepsInv(u: Setup, s: Net, s': Net, move: Move)
    requires u.Honest() && Inv(u, s) && NetStep(u, s, s', move) && (move.LWrite? || move.LRead?)
    ensures Inv(u, s')
  {
    LStands(u, s.l.stage);
    ListenerMoves(u, Outbound(u, u.N()), Reply(u), DSpot(u, s.d.stage), LSpot(u, s.l.stage), s, s', move);
  }

  lemma StepKeepsInv(u: Setup, s: Net, s': Net, move: Move)
    requires u.Honest() && Inv(u, s) && NetStep(u, s, s', move)
    ensures Inv(u, s')
  {
    match move
    case DTurn => DialerTurnKeepsInv(u, s, s');
    case LTurn => ListenerTurnKeepsInv(u, s, s');
    case DWrite(_) => DialerMoveKeepsInv(u, s, s', move);
    case DRead(_) => DialerMoveKeepsInv(u, s, s', move);
    case LWrite(_) => ListenerMoveKeepsInv(u, s, s', move);
    case LRead(_) => ListenerMoveKeepsInv(u, s, s', move);
  }

  // ----- every step makes progress

  function DRank(stage: DStage, n: nat): int {
    match stage
    case SayHello => n + 5
    case HearHello => n + 4
    case SayManifest => n + 3
    case HearVerdict => n + 2
    case SayChunk(i) => 1 + n - i
    case DGone(_) => 0
  }

  function LRank(stage: LStage, n: nat): int {
    match stage
    case LHearHello => n + 5
    case LSayHello(_) => n + 4
    case HearManifest => n + 3
    case SayVerdict(_, _) => n + 2
    case HearChunk(_, i, _) => 1 + n - i
    case LGone(_, _) => 0
  }

  /** Bytes still to be written count twice, bytes in a pipe once, and turns to be taken once. */
  ghost function Measure(u: Setup, s: Net): int {
    2 * (|Outbound(u, u.N())| - s.sent) + |s.out| + 2 * (|Reply(u)| - s.replied) + |s.back|
    + DRank(s.d.stage, |u.m.chunks|) + LRank(s.l.stage, |u.m.chunks|)
  }

  lemma StepDecreases(u: Setup, s: Net, s': Net, move: Move)
    requires Inv(u, s) && NetStep(u, s, s', move)
    ensures Measure(u, s') < Measure(u, s)
  {
    match move
    case DTurn => DTurnCounts(u, s.d);
    case LTurn => LTurnCounts(u, s.l);
    case _ =>
  }

  lemma DTurnCounts(u: Setup, d: Dialer)
    requires DOk(u, d.stage) && !d.stage.DGone? && Complete(d.io)
    ensures DRank(DNext(u, d).stage, |u.m.chunks|) < DRank(d.stage, |u.m.chunks|)
  {
  }

  lemma LTurnCounts(u: Setup, l: Listener)
    requires LOk(u, l.stage) && !l.stage.LGone? && Complete(l.io)
    ensures LRank(LNext(u, l).stage, |u.m.chunks|) < LRank(l.stage, |u.m.chunks|)
  {
  }

  lemma RanksBounded(u: Setup, d: DStage, l: LStage)
    requires DOk(u, d) && LOk(u, l)
    ensures DRank(d, |u.m.chunks|) >= 0 && LRank(l, |u.m.chunks|) >= 0
  {
  }

  lemma MeasureBound(u: Setup, s: Net)
    requires Inv(u, s)
    ensures Measure(u, s) >= 0
  {
    RanksBounded(u, s.d.stage, s.l.stage);
  }

  // ----- nobody waits for ever

  ghost predicate Over(u: Setup, s: Net) {
    s.d.stage.DGone? && s.l.stage.LGone?
  }

  /** Waiting: in a Write with no room, in a read with nothing to read, or gone. */
  predicate Waiting(io: Io, mine: bytes, cap: nat, other: bytes) {
    match io
    case Put(left) => left != [] && |mine| >= cap
    case Get(sh, got) => Need(sh, got) > 0 && other == []
    case Idle => true
  }

  lemma CanMove(u: Setup, s: Net)
    requires u.Honest()
    ensures !Waiting(s.d.io, s.out, u.outCap, s.back) || !Waiting(s.l.io, s.back, u.backCap, s.out) ==>
              exists s', move :: NetStep(u, s, s', move)
  {
    if !Waiting(s.d.io, s.out, u.outCap, s.back) {
      if Complete(s.d.io) {
        assert NetStep(u, s, s.(d := DNext(u, s.d)), DTurn);
      } else if s.d.io.Put? {
        var s' := s.(d := s.d.(io := Put(s.d.io.left[1..])), out := s.out + s.d.io.left[..1], sent := s.sent + 1);
        assert NetStep(u, s, s', DWrite(1));
      } else {
        var s' := s.(d := s.d.(io := Get(s.d.io.shape, s.d.io.got + s.back[..1])), back := s.back[1..]);
        assert NetStep(u, s, s', DRead(1));
      }
    } else if !Waiting(s.l.io, s.back, u.backCap, s.out) {
      if Complete(s.l.io) {
        assert NetStep(u, s, s.(l := LNext(u, s.l)), LTurn);
      } else if s.l.io.Put? {
        var left := s.l.io.left;
        var s' := s.(l := s.l.(io := Put(left[1..])), back := s.back + left[..1], replied := s.replied + 1);
        assert NetStep(u, s, s', LWrite(1));
      } else {
        var s' := s.(l := s.l.(io := Get(s.l.io.shape, s.l.io.got + s.out[..1])), out := s.out[1..]);
        assert NetStep(u, s, s', LRead(1));
      }
    }
  }

  /** Strictly inside its frame while it waits. */
  ghost predicate Short(p: Spot, w: nat, r: nat) {
    p.frame.Some? && if p.writing then w < p.w + |Text(p.frame.value)| else r < p.r + |Text(p.frame.value)|
  }

  lemma WaitingIsShort(p: Spot, io: Io, w: nat, r: nat, mine: bytes, cap: nat, other: bytes)
    requires At(p, io, w, r) && Waiting(io, mine, cap, other) && cap >= 1
    requires p.frame.Some? ==> FrameFits(p.frame.value)
    ensures p.frame.Some? ==> Short(p, w, r)
    ensures p.frame.Some? ==> if p.writing then mine != [] else other == []
  {
    if p.frame.Some? && !p.writing {
      NeedOfPrefix(p.frame.value, r - p.r);
    }
  }

  /** The turns the two sides take leave no pair of places in which both wait. */
  lemma NoDeadlock(u: Setup, s: Net)
    requires u.Honest() && Inv(u, s) && !Over(u, s)
    ensures exists s', move :: NetStep(u, s, s', move)
  {
    if Waiting(s.d.io, s.out, u.outCap, s.back) && Waiting(s.l.io, s.back, u.backCap, s.out) {
      var taken, heard := s.sent - |s.out|, s.replied - |s.back|;
      DStands(u, s.d.stage);
      LStands(u, s.l.stage);
      WaitingIsShort(DSpot(u, s.d.stage), s.d.io, s.sent, heard, s.out, u.outCap, s.back);
      WaitingIsShort(LSpot(u, s.l.stage), s.l.io, s.replied, taken, s.back, u.backCap, s.out);
      BothWait(u, s.d.stage, s.l.stage, s.sent, heard, s.replied, taken);
    }
    CanMove(u, s);
  }

  /** A side that waits, or is gone: where it can be in what it writes and reads, given how far
      the other side has got. */
  ghost predicate Held(p: Spot, written: nat, read: nat, taken: nat, put: nat) {
    if p.frame.None? then written == p.w && read == p.r
    else
      && Short(p, written, read) && p.w <= written && p.r <= read
      && if p.writing then read == p.r && taken < written else written == p.w && read == put
  }

  /** The arithmetic of it: the positions of two waiting sides contradict each other. */
  lemma BothWait(u: Setup, d: DStage, l: LStage, sent: nat, heard: nat, replied: nat, taken: nat)
    requires u.Honest() && DOk(u, d) && LOk(u, l) && taken <= sent && heard <= replied
    ensures Held(DSpot(u, d), sent, heard, taken, replied) && Held(LSpot(u, l), replied, taken, heard, sent)
            ==> d.DGone? && l.LGone?
  {
    if l.HearChunk? {
      WaitForChunk(u, d, l, sent, heard, replied, taken);
    } else if d.SayChunk? {
      ChunkWaits(u, d, l, sent, heard, replied, taken);
    } else {
      assert |Outbound(u, 0)| == |Text(H(u))| + |Text(M(u))|;
      StreamGrows(u, 0, u.N());
    }
  }

  lemma WaitForChunk(u: Setup, d: DStage, l: LStage, sent: nat, heard: nat, replied: nat, taken: nat)
    requires u.Honest() && DOk(u, d) && LOk(u, l) && taken <= sent && heard <= replied && l.HearChunk?
    ensures !(Held(DSpot(u, d), sent, heard, taken, replied) && Held(LSpot(u, l), replied, taken, heard, sent))
  {
    assert |Outbound(u, 0)| == |Text(H(u))| + |Text(M(u))|;
    OutboundNext(u, l.i);
    StreamGrows(u, 0, l.i);
    StreamGrows(u, l.i + 1, u.N());
  }

  lemma ChunkWaits(u: Setup, d: DStage, l: LStage, sent: nat, heard: nat, replied: nat, taken: nat)
    requires u.Honest() && DOk(u, d) && LOk(u, l) && taken <= sent && heard <= replied && d.SayChunk? && !l.HearChunk?
    ensures !(Held(DSpot(u, d), sent, heard, taken, replied) && Held(LSpot(u, l), replied, taken, heard, sent))
  {
    assert |Outbound(u, 0)| == |Text(H(u))| + |Text(M(u))|;
    OutboundNext(u, d.i);
    StreamGrows(u, 0, d.i);
    StreamGrows(u, d.i + 1, u.N());
  }

  // ----- whole runs

  ghost predicate NetNext(u: Setup, s: Net, s': Net) {
    exists move :: NetStep(u, s, s', move)
  }

  ghost predicate NetRun(u: Setup, run: seq<Net>) {
    var n := |run| - 1;
    && run != []
    && if n == 0 then run[0] == Initial(u) else NetRun(u, run[..n]) && NetNext(u, run[n - 1], run[n])
  }

  lemma NextKeepsInv(u: Setup, s: Net, s': Net)
    requires u.Honest() && Inv(u, s) && NetNext(u, s, s')
    ensures Inv(u, s') && Measure(u, s') < Measure(u, s)
  {
    var move :| NetStep(u, s, s', move);
    StepKeepsInv(u, s, s', move);
    StepDecreases(u, s, s', move);
  }

  lemma {:induction false} RunInv(u: Setup, run: seq<Net>)
    requires u.Honest() && NetRun(u, run)
    ensures Inv(u, run[|run| - 1])
    ensures |run| + Measure(u, run[|run| - 1]) <= 1 + Measure(u, Initial(u))
  {
    var n := |run| - 1;
    if n == 0 {
      InitialInv(u);
    } else {
      RunInv(u, run[..n]);
      NextKeepsInv(u, run[n - 1], run[n]);
    }
  }

  /** For every file, every way to cut it, every pair of pipe sizes and every interleaving of
      an honest pair: no run is longer than the measure of its first state, and a run that
      cannot go on has ended on both sides. If the receiver said yes, both report success and
      the receiver holds the sender's file; if it said no, the sender knows the first 1024
      bytes of the reason. */
  lemma HonestRunsDeliver(u: Setup, run: seq<Net>)
    requires u.Honest() && NetRun(u, run)
    ensures |run| <= 1 + Measure(u, Initial(u))
    ensures var last := run[|run| - 1];
            (forall s' :: !NetNext(u, last, s')) ==>
              && Over(u, last)
              && if u.answer(u.m).None?
                 then last.d.stage.end == Fine && last.l.stage == LGone(Fine, u.content)
                 else last.d.stage.end == TurnedDown(Clip(u.answer(u.m)).value)
                      && last.l.stage.end == TurnedDown(u.answer(u.m).value)
  {
    RunInv(u, run);
    var last := run[|run| - 1];
    MeasureBound(u, last);
    if forall s' :: !NetNext(u, last, s') {
      if !Over(u, last) {
        NoDeadlock(u, last);
        var s', move :| NetStep(u, last, s', move);
        assert NetNext(u, last, s');
      }
    }
  }

  /** There is such a pair for every file a manifest can be accepted for, so this is said of
      something. */
  lemma HonestPairExists(h: Hash, content: bytes, outCap: nat, backCap: nat) returns (u: Setup)
    requires |content| <= MAX_CHUNKS * DEFAULT_CHUNK && outCap >= 1 && backCap >= 1
    ensures u.Honest() && u.answer(u.m).None?
    ensures u.h == h && u.content == content && u.outCap == outCap && u.backCap == backCap
  {
    var m := ManifestExists(h, content, DEFAULT_CHUNK);
    BuiltIsValid(h, m, content, DEFAULT_CHUNK);
    var hello := Hello("", BlobFollows);
    u := Setup(h, Codec(_ => [], _ => Some(hello)), Codec(_ => [], _ => Some(m)), hello, hello, m, content,
               _ => None, outCap, backCap);
  }
}
