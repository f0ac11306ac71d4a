/** The two processes of Duplex against the code of Transfer: what the stepped dialer writes is what
    Send writes, and the stepped listener, fed any stream in any pieces, does what Receive does
    with it. */
module DuplexCode {
  import opened BlobManifest
  import opened Bytes
  import opened Duplex
  import opened Landing
  import Stream
  import opened Transfer
  import opened Wire

  // ----- the dialer

  /** All the dialer ever puts into its pipe is its hello and what Send's contract says a
      connection takes that never fills up. */
  lemma DialerIsSend(u: Setup)
    requires u.Honest()
    ensures Outbound(u, u.N()) ==
              PrintJson(HELLO, u.hellos, u.dialer)
              + (PrintJson(MANIFEST, u.manifests, u.m) + if u.answer(u.m).None? then Sendable(u.m, u.content) else [])
  {
    ReadableIs(u.m.chunks, |u.content|, |u.m.chunks|);
    Regroup(Text(H(u)), Text(M(u)), ChunkStream(u.m.chunks, u.content, u.N()));
  }

  // ----- the listener

  /** The listener alone, with all that is still to come in its pipe. */
  datatype Ear = Ear(l: Listener, pipe: bytes)

  /** It takes some of the bytes it asks for, or turns. */
  ghost predicate HearStep(u: Setup, e: Ear, e': Ear, n: nat) {
    || (Pulls(e.l.io, e'.l.io, e.pipe, e'.pipe, n) && e'.l.stage == e.l.stage)
    || (Complete(e.l.io) && e' == Ear(LNext(u, e.l), e.pipe))
  }

  ghost predicate HearNext(u: Setup, e: Ear, e': Ear) {
    exists n :: HearStep(u, e, e', n)
  }

  /** From the first chunk on, which is right after an accept was sent. */
  ghost predicate HearRun(u: Setup, m: Manifest, s: bytes, run: seq<Ear>)
    requires m.size >= 0
  {
    && run != [] && run[0] == Ear(FromChunk(u, m, 0, Fresh(m)), s)
    && forall k :: 0 < k < |run| ==> HearNext(u, run[k - 1], run[k])
  }

  /** Not more than one chunk frame. */
  ghost predicate Fitted(got: bytes) {
    |got| <= 8 || (FromBe(got[..8][4..]) <= CHUNK.cap && |got| <= 8 + FromBe(got[..8][4..]))
  }

  /** In the middle of frame i, with fs before it. */
  ghost predicate Hearing(u: Setup, m: Manifest, s: bytes, e: Ear, i: nat, fs: seq<Arrival>, st: Landing)
    requires Valid(m)
  {
    && i < |m.chunks| && e.l.stage == HearChunk(m, i, st)
    && e.l.io.Get? && e.l.io.shape == CHUNK && Fitted(e.l.io.got)
    && Midway(u.h, m, s, Stream.Closed, e.l.io.got + e.pipe, i, fs, st)
  }

  /** Through, with the outcome the stream deserves. */
  ghost predicate Settled(u: Setup, m: Manifest, s: bytes, e: Ear)
    requires Valid(m)
  {
    e.l == Listener(if Delivers(u.h, m, s, Stream.Closed) then LGone(Fine, Delivered(u.h, m, s, Stream.Closed))
                    else LGone(Failed, []), Idle)
  }

  ghost predicate EarOk(u: Setup, m: Manifest, s: bytes, e: Ear)
    requires Valid(m)
  {
    Settled(u, m, s, e) || exists i, fs, st :: Hearing(u, m, s, e, i, fs, st)
  }

  lemma FromChunkIsOk(u: Setup, m: Manifest, s: bytes, pipe: bytes, i: nat, fs: seq<Arrival>, st: Landing)
    requires Valid(m) && i <= |m.chunks| && Midway(u.h, m, s, Stream.Closed, pipe, i, fs, st)
    ensures EarOk(u, m, s, Ear(FromChunk(u, m, i, st), pipe))
  {
    if i == |m.chunks| {
      DeliveryDecided(u.h, m, s, Stream.Closed, pipe, fs, st);
    } else {
      assert [] + pipe == pipe;
      assert Hearing(u, m, s, Ear(FromChunk(u, m, i, st), pipe), i, fs, st);
    }
  }

  /** Once the reads are satisfied, what was read is a frame, or is none whatever follows. */
  lemma WholeFrame(got: bytes, pipe: bytes)
    requires Fitted(got) && Need(CHUNK, got) == 0
    ensures var p := ParseChunk(got, Stream.Closed);
            if p.Bad? then ParseChunk(got + pipe, Stream.Closed).Bad?
            else p.rest == [] && ParseChunk(got + pipe, Stream.Closed) == Got(p.value, pipe)
  {
    var t := got + pipe;
    assert t[..8] == got[..8];
    assert t[8..] == got[8..] + pipe;
    var n := FromBe(got[..8][4..]);
    if n <= CHUNK.cap {
      assert (got[8..] + pipe)[..n] == got[8..] && (got[8..] + pipe)[n..] == pipe;
      assert got[8..][..n] == got[8..] && got[8..][n..] == [];
    }
  }

  /** And before that there is no frame yet. */
  lemma NoFrameYet(got: bytes)
    requires Need(CHUNK, got) > 0
    ensures ParseChunk(got, Stream.Closed).Bad?
  {
  }

  lemma TurnIsOk(u: Setup, m: Manifest, s: bytes, e: Ear, i: nat, fs: seq<Arrival>, st: Landing)
    requires Valid(m) && Hearing(u, m, s, e, i, fs, st) && Complete(e.l.io)
    ensures EarOk(u, m, s, Ear(LNext(u, e.l), e.pipe))
  {
    var (got, tail) := (e.l.io.got, e.l.io.got + e.pipe);
    WholeFrame(got, e.pipe);
    var p := ParseChunk(got, Stream.Closed);
    if p.Bad? {
      MidwayStop(u.h, m, s, Stream.Closed, tail, i, fs, st);
    } else {
      var a := Arrival(p.value.0, p.value.1);
      if Land(u.h, m, st, a).Err? {
        MidwayStop(u.h, m, s, Stream.Closed, tail, i, fs, st);
      } else {
        MidwayNext(u.h, m, s, Stream.Closed, tail, i, fs, st);
        FromChunkIsOk(u, m, s, e.pipe, i + 1, fs + [a], Land(u.h, m, st, a).value);
      }
    }
  }

  lemma PullIsOk(u: Setup, m: Manifest, s: bytes, e: Ear, e': Ear, n: nat, i: nat, fs: seq<Arrival>, st: Landing)
    requires Valid(m) && Hearing(u, m, s, e, i, fs, st)
    requires Pulls(e.l.io, e'.l.io, e.pipe, e'.pipe, n) && e'.l.stage == e.l.stage
    ensures Hearing(u, m, s, e', i, fs, st)
  {
    var (got, got') := (e.l.io.got, e'.l.io.got);
    assert got' + e'.pipe == got + e.pipe;
    if |got| >= 8 {
      assert got'[..8] == got[..8];
    }
  }

  lemma HearStepKeeps(u: Setup, m: Manifest, s: bytes, e: Ear, e': Ear)
    requires Valid(m) && EarOk(u, m, s, e) && HearNext(u, e, e')
    ensures EarOk(u, m, s, e')
  {
    var n :| HearStep(u, e, e', n);
    assert !Settled(u, m, s, e);
    var i, fs, st :| Hearing(u, m, s, e, i, fs, st);
    if Complete(e.l.io) && e' == Ear(LNext(u, e.l), e.pipe) {
      TurnIsOk(u, m, s, e, i, fs, st);
    } else {
      PullIsOk(u, m, s, e, e', n, i, fs, st);
    }
  }

  lemma {:induction false} HearRunOk(u: Setup, m: Manifest, s: bytes, run: seq<Ear>)
    requires Valid(m) && m.size >= 0 && HearRun(u, m, s, run)
    ensures EarOk(u, m, s, run[|run| - 1])
  {
    var n := |run| - 1;
    if n == 0 {
      Begins(u.h, m, s, Stream.Closed);
      FromChunkIsOk(u, m, s, s, 0, [], Fresh(m));
    } else {
      HearRunOk(u, m, s, run[..n]);
      assert HearNext(u, run[n - 1], run[n]);
      HearStepKeeps(u, m, s, run[n - 1], run[n]);
    }
  }

  /** Nothing more can happen to it: it is through, or waits for bytes that do not come. */
  ghost predicate Stopped(u: Setup, e: Ear) {
    forall e' :: !HearNext(u, e, e')
  }

  lemma StoppedHearing(u: Setup, m: Manifest, s: bytes, e: Ear, i: nat, fs: seq<Arrival>, st: Landing)
    requires Valid(m) && Hearing(u, m, s, e, i, fs, st) && Stopped(u, e)
    ensures !Delivers(u.h, m, s, Stream.Closed)
  {
    if Complete(e.l.io) {
      assert HearStep(u, e, Ear(LNext(u, e.l), e.pipe), 0);
      assert HearNext(u, e, Ear(LNext(u, e.l), e.pipe));
    } else if e.pipe != [] {
      var e' := Ear(e.l.(io := Get(CHUNK, e.l.io.got + e.pipe[..1])), e.pipe[1..]);
      assert HearStep(u, e, e', 1);
      assert HearNext(u, e, e');
    } else {
      assert e.l.io.got + e.pipe == e.l.io.got;
      NoFrameYet(e.l.io.got);
      MidwayStop(u.h, m, s, Stream.Closed, e.l.io.got, i, fs, st);
    }
  }

  /** Whatever the stream, and however it is cut into pieces: a listener that has accepted a manifest
      ends with success and file f exactly when the stream delivers f in the sense of Receive. */
  lemma ListenerIsReceive(u: Setup, m: Manifest, s: bytes, run: seq<Ear>, f: bytes)
    requires Valid(m) && m.size >= 0 && HearRun(u, m, s, run) && Stopped(u, run[|run| - 1])
    ensures run[|run| - 1].l.stage == LGone(Fine, f) <==>
              Delivers(u.h, m, s, Stream.Closed) && Delivered(u.h, m, s, Stream.Closed) == f
  {
    var e := run[|run| - 1];
    HearRunOk(u, m, s, run);
    if !Settled(u, m, s, e) {
      var i, fs, st :| Hearing(u, m, s, e, i, fs, st);
      StoppedHearing(u, m, s, e, i, fs, st);
    }
  }
}
