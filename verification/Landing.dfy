/** What a receiver does with one chunk after another, as a function of the chunks alone:
    which are taken, where their bytes land, and why the order they come in does not matter. */
module Landing {
  import opened BlobManifest
  import opened Bytes
  import opened Wrappers

  datatype Arrival = Arrival(index: nat, data: bytes)

  /** The file being assembled, the indices taken so far and their total length. */
  datatype Landing = Landing(file: bytes, seen: set<nat>, got: int)

  datatype Reject = NotInManifest | SentTwice | WrongLength | WrongHash

  function Zeros(n: nat): bytes {
    seq(n, _ => 0)
  }

  /** pwrite: bytes past the end make the file longer, with zeros in the gap. */
  function WriteAt(file: bytes, offset: nat, data: bytes): bytes {
    var padded := if offset + |data| > |file| then file + Zeros(offset + |data| - |file|) else file;
    padded[..offset] + data + padded[offset + |data|..]
  }

  function Fresh(m: Manifest): Landing
    requires m.size >= 0
  {
    Landing(Zeros(m.size), {}, 0)
  }

  /** One chunk: checked against the manifest, then written at its offset. */
  function Land(h: Hash, m: Manifest, st: Landing, a: Arrival): Result<Landing, Reject>
    requires Tiled(m.chunks)
  {
    if a.index >= |m.chunks| then Err(NotInManifest)
    else if a.index in st.seen then Err(SentTwice)
    else
      var c := m.chunks[a.index];
      if |a.data| != c.length then Err(WrongLength)
      else if h(a.data) != c.sha256 then Err(WrongHash)
      else
        ChunkInside(m.chunks, a.index);
        Ok(Landing(WriteAt(st.file, c.offset, a.data), st.seen + {a.index}, st.got + c.length))
  }

  function LandAll(h: Hash, m: Manifest, fs: seq<Arrival>): Result<Landing, Reject>
    requires Tiled(m.chunks) && m.size >= 0
  {
    if fs == [] then Ok(Fresh(m))
    else
      match LandAll(h, m, fs[..|fs| - 1])
      case Err(e) => Err(e)
      case Ok(st) => Land(h, m, st, fs[|fs| - 1])
  }

  // ----- what a landing means

  ghost predicate Genuine(h: Hash, m: Manifest, a: Arrival) {
    && a.index < |m.chunks|
    && |a.data| == m.chunks[a.index].length
    && h(a.data) == m.chunks[a.index].sha256
  }

  ghost predicate NoRepeats(fs: seq<Arrival>) {
    forall k, l :: 0 <= k < l < |fs| ==> fs[k].index != fs[l].index
  }

  ghost function Indices(fs: seq<Arrival>): set<nat> {
    set k | 0 <= k < |fs| :: fs[k].index
  }

  /** How many bytes the chunks in `seen` have, among the first n. */
  ghost function Volume(cs: seq<ChunkInfo>, seen: set<nat>, n: nat): int
    requires n <= |cs|
  {
    if n == 0 then 0 else Volume(cs, seen, n - 1) + if n - 1 in seen then cs[n - 1].length else 0
  }

  /** The file holds every chunk that came, at its place, and zeros everywhere else. */
  ghost predicate Holds(m: Manifest, fs: seq<Arrival>, file: bytes) {
    && |file| == m.size
    && (forall k :: 0 <= k < |fs| && fs[k].index < |m.chunks| ==>
          Slice(file, m.chunks[fs[k].index]) == fs[k].data)
    && (forall i :: 0 <= i < |m.chunks| && i !in Indices(fs) ==>
          Slice(file, m.chunks[i]) == Zeros(|Slice(file, m.chunks[i])|))
  }

  lemma WriteAtInside(file: bytes, offset: nat, data: bytes)
    requires offset + |data| <= |file|
    ensures var w := WriteAt(file, offset, data);
            |w| == |file| && w[offset..offset + |data|] == data
    ensures forall lo: nat, hi: nat :: lo <= hi <= |file| && (hi <= offset || offset + |data| <= lo) ==>
              WriteAt(file, offset, data)[lo..hi] == file[lo..hi]
  {
  }

  lemma SliceKept(m: Manifest, file: bytes, i: nat, j: nat, data: bytes)
    requires Tiled(m.chunks) && End(m.chunks) == m.size == |file|
    requires i < |m.chunks| && j < |m.chunks| && i != j && |data| == m.chunks[j].length
    requires 0 <= m.chunks[j].offset
    ensures Slice(WriteAt(file, m.chunks[j].offset, data), m.chunks[i]) == Slice(file, m.chunks[i])
  {
    ChunkInside(m.chunks, i);
    ChunkInside(m.chunks, j);
    WriteAtInside(file, m.chunks[j].offset, data);
    if i < j {
      ChunksInOrder(m.chunks, i, j);
    } else {
      ChunksInOrder(m.chunks, j, i);
    }
  }

  lemma HoldsNext(h: Hash, m: Manifest, fs: seq<Arrival>, file: bytes, a: Arrival)
    requires Tiled(m.chunks) && End(m.chunks) == m.size
    requires Holds(m, fs, file) && Genuine(h, m, a) && a.index !in Indices(fs)
    requires 0 <= m.chunks[a.index].offset
    ensures Holds(m, fs + [a], WriteAt(file, m.chunks[a.index].offset, a.data))
  {
    var gs, j := fs + [a], a.index;
    var w := WriteAt(file, m.chunks[j].offset, a.data);
    ChunkInside(m.chunks, j);
    WriteAtInside(file, m.chunks[j].offset, a.data);
    assert gs[|fs|] == a && j in Indices(gs);
    forall k | 0 <= k < |gs| && gs[k].index < |m.chunks|
      ensures Slice(w, m.chunks[gs[k].index]) == gs[k].data
    {
      if k < |fs| {
        assert gs[k] == fs[k] && fs[k].index in Indices(fs);
        SliceKept(m, file, fs[k].index, j, a.data);
      }
    }
    forall i | 0 <= i < |m.chunks| && i !in Indices(gs)
      ensures Slice(w, m.chunks[i]) == Zeros(|Slice(w, m.chunks[i])|)
    {
      assert forall k :: 0 <= k < |fs| ==> gs[k] == fs[k];
      SliceKept(m, file, i, j, a.data);
    }
  }

  lemma {:induction false} VolumeAdd(cs: seq<ChunkInfo>, seen: set<nat>, i: nat, n: nat)
    requires n <= |cs| && i < |cs| && i !in seen
    ensures Volume(cs, seen + {i}, n) == Volume(cs, seen, n) + if i < n then cs[i].length else 0
  {
    if n > 0 {
      VolumeAdd(cs, seen, i, n - 1);
    }
  }

  lemma {:induction false} VolumeBound(cs: seq<ChunkInfo>, seen: set<nat>, n: nat)
    requires Tiled(cs) && n <= |cs|
    ensures 0 <= Volume(cs, seen, n) <= Start(cs, n)
    ensures (forall i :: 0 <= i < n ==> i in seen) ==> Volume(cs, seen, n) == Start(cs, n)
    ensures (exists i :: 0 <= i < n && i !in seen) ==> Volume(cs, seen, n) < Start(cs, n)
  {
    if n > 0 {
      assert Placed(cs, n - 1);
      VolumeBound(cs, seen, n - 1);
    }
  }

  /** The whole meaning of an accepted sequence of chunks. */
  ghost predicate Landed(h: Hash, m: Manifest, fs: seq<Arrival>, st: Landing)
  {
    && (forall a :: a in fs ==> Genuine(h, m, a)) && NoRepeats(fs)
    && Holds(m, fs, st.file)
    && st.seen == Indices(fs) && |st.seen| == |fs|
    && st.got == Volume(m.chunks, st.seen, |m.chunks|)
  }

  lemma {:induction false} LandedStart(h: Hash, m: Manifest)
    requires Tiled(m.chunks) && End(m.chunks) == m.size >= 0
    ensures Landed(h, m, [], Fresh(m))
  {
    forall i | 0 <= i < |m.chunks|
      ensures var s := Slice(Zeros(m.size), m.chunks[i]); s == Zeros(|s|)
    {
      ChunkInside(m.chunks, i);
    }
    VolumeEmpty(m.chunks, |m.chunks|);
  }

  lemma {:induction false} VolumeEmpty(cs: seq<ChunkInfo>, n: nat)
    requires n <= |cs|
    ensures Volume(cs, {}, n) == 0
  {
    if n > 0 {
      VolumeEmpty(cs, n - 1);
    }
  }

  lemma IndicesNext(fs: seq<Arrival>, a: Arrival)
    ensures Indices(fs + [a]) == Indices(fs) + {a.index}
    ensures NoRepeats(fs + [a]) <==> NoRepeats(fs) && a.index !in Indices(fs)
  {
    var gs := fs + [a];
    assert gs[|fs|] == a && forall k :: 0 <= k < |fs| ==> gs[k] == fs[k];
    if NoRepeats(fs) && a.index !in Indices(fs) {
      forall k, l | 0 <= k < l < |gs|
        ensures gs[k].index != gs[l].index
      {
        assert fs[k].index in Indices(fs);
      }
    }
  }

  lemma LandedNext(h: Hash, m: Manifest, fs: seq<Arrival>, st: Landing, a: Arrival)
    requires Tiled(m.chunks) && End(m.chunks) == m.size && Landed(h, m, fs, st)
    ensures Land(h, m, st, a).Ok? <==> Genuine(h, m, a) && a.index !in Indices(fs)
    ensures Land(h, m, st, a).Ok? ==> Landed(h, m, fs + [a], Land(h, m, st, a).value)
  {
    if Land(h, m, st, a).Ok? {
      IndicesNext(fs, a);
      assert 0 <= m.chunks[a.index].offset by {
        ChunkInside(m.chunks, a.index);
      }
      HoldsNext(h, m, fs, st.file, a);
      VolumeAdd(m.chunks, st.seen, a.index, |m.chunks|);
    }
  }

  /** A sequence of chunks is taken exactly when each is genuine and none comes twice, and
      then the file is what the chunks say. */
  lemma {:induction false} LandAllMeaning(h: Hash, m: Manifest, fs: seq<Arrival>)
    requires Tiled(m.chunks) && End(m.chunks) == m.size >= 0
    ensures LandAll(h, m, fs).Ok? <==> (forall a :: a in fs ==> Genuine(h, m, a)) && NoRepeats(fs)
    ensures LandAll(h, m, fs).Ok? ==> Landed(h, m, fs, LandAll(h, m, fs).value)
  {
    if fs == [] {
      LandedStart(h, m);
    } else {
      var n := |fs| - 1;
      var gs, a := fs[..n], fs[n];
      assert fs == gs + [a];
      LandAllMeaning(h, m, gs);
      IndicesNext(gs, a);
      if LandAll(h, m, gs).Ok? {
        LandedNext(h, m, gs, LandAll(h, m, gs).value, a);
      }
    }
  }

  // ----- order does not matter

  lemma SameIndices(fs: seq<Arrival>, gs: seq<Arrival>)
    requires forall a :: a in fs <==> a in gs
    ensures Indices(fs) == Indices(gs)
  {
    forall i | i in Indices(fs)
      ensures i in Indices(gs)
    {
      var k :| 0 <= k < |fs| && fs[k].index == i;
      assert fs[k] in gs;
    }
    forall i | i in Indices(gs)
      ensures i in Indices(fs)
    {
      var k :| 0 <= k < |gs| && gs[k].index == i;
      assert gs[k] in fs;
    }
  }

  /** Two files that hold the same chunks are the same file: between them the chunks cover
      every byte. */
  lemma SameFile(m: Manifest, fs: seq<Arrival>, gs: seq<Arrival>, file: bytes, file': bytes)
    requires Tiled(m.chunks) && End(m.chunks) == m.size
    requires Holds(m, fs, file) && Holds(m, gs, file')
    requires forall a :: a in fs <==> a in gs
    ensures file == file'
  {
    forall i | 0 <= i < |m.chunks|
      ensures Slice(file, m.chunks[i]) == Slice(file', m.chunks[i])
    {
      ChunkInside(m.chunks, i);
      SameIndices(fs, gs);
      if i in Indices(fs) {
        var k :| 0 <= k < |fs| && fs[k].index == i;
        assert fs[k] in gs;
        var l :| 0 <= l < |gs| && gs[l] == fs[k];
      }
    }
    SlicesDecide(m.chunks, file, file');
  }

  lemma CountAtMostOne(fs: seq<Arrival>, a: Arrival)
    requires NoRepeats(fs)
    ensures multiset(fs)[a] <= 1
  {
    if a in fs {
      var k :| 0 <= k < |fs| && fs[k] == a;
      assert fs == fs[..k] + [a] + fs[k + 1..];
      assert forall l :: 0 <= l < |fs| && l != k ==> fs[l] != a;
      assert a !in fs[..k] && a !in fs[k + 1..];
    }
  }

  lemma CountAtLeastTwo(fs: seq<Arrival>, k: nat, l: nat)
    requires k < l < |fs| && fs[k] == fs[l]
    ensures multiset(fs)[fs[k]] >= 2
  {
    assert fs == fs[..l] + [fs[l]] + fs[l + 1..];
    assert fs[k] in fs[..l];
  }

  lemma NoRepeatsPermuted(fs: seq<Arrival>, gs: seq<Arrival>)
    requires NoRepeats(fs) && multiset(fs) == multiset(gs)
    ensures NoRepeats(gs)
  {
    forall k, l | 0 <= k < l < |gs|
      ensures gs[k].index != gs[l].index
    {
      if gs[k].index == gs[l].index {
        assert gs[k] in multiset(fs) && gs[l] in multiset(fs);
        var p :| 0 <= p < |fs| && fs[p] == gs[k];
        var q :| 0 <= q < |fs| && fs[q] == gs[l];
        assert p == q;
        CountAtLeastTwo(gs, k, l);
        CountAtMostOne(fs, gs[k]);
      }
    }
  }

  /** Any reordering of an accepted sequence of chunks is accepted and leaves the same file,
      the same indices and the same byte count. */
  lemma OrderIndependent(h: Hash, m: Manifest, fs: seq<Arrival>, gs: seq<Arrival>)
    requires Tiled(m.chunks) && End(m.chunks) == m.size >= 0
    requires LandAll(h, m, fs).Ok? && multiset(fs) == multiset(gs)
    ensures LandAll(h, m, gs) == LandAll(h, m, fs)
  {
    assert forall a :: a in fs <==> a in gs by {
      assert forall a :: a in fs <==> a in multiset(fs);
      assert forall a :: a in gs <==> a in multiset(gs);
    }
    assert Landed(h, m, fs, LandAll(h, m, fs).value) by {
      LandAllMeaning(h, m, fs);
    }
    assert LandAll(h, m, gs).Ok? && Landed(h, m, gs, LandAll(h, m, gs).value) by {
      LandAllMeaning(h, m, gs);
      NoRepeatsPermuted(fs, gs);
    }
    SameIndices(fs, gs);
    SameFile(m, fs, gs, LandAll(h, m, fs).value.file, LandAll(h, m, gs).value.file);
  }

  // ----- a full set of chunks

  lemma {:induction false} Pigeonhole(s: set<nat>, n: nat)
    requires |s| == n && forall i :: i in s ==> i < n
    ensures forall i :: 0 <= i < n ==> i in s
  {
    if n > 0 {
      if n - 1 in s {
        Pigeonhole(s - {n - 1}, n - 1);
      } else {
        SmallSet(s, n - 1);
      }
    }
  }

  lemma {:induction false} SmallSet(s: set<nat>, n: nat)
    requires forall i :: i in s ==> i < n
    ensures |s| <= n
  {
    if n > 0 {
      SmallSet(s - {n - 1}, n - 1);
    } else {
      assert s == {};
    }
  }

  /** As many accepted chunks as the manifest lists are all of them, once each: every index
      has come, every chunk of the file has its hash and the byte count is the size. */
  lemma FullLanding(h: Hash, m: Manifest, fs: seq<Arrival>)
    requires Tiled(m.chunks) && End(m.chunks) == m.size >= 0
    requires LandAll(h, m, fs).Ok? && |fs| == |m.chunks|
    ensures var st := LandAll(h, m, fs).value;
            && st.got == m.size == |st.file|
            && (forall i :: 0 <= i < |m.chunks| ==> i in st.seen)
            && (forall i :: 0 <= i < |m.chunks| ==> h(Slice(st.file, m.chunks[i])) == m.chunks[i].sha256)
  {
    LandAllMeaning(h, m, fs);
    var st := LandAll(h, m, fs).value;
    forall i | i in st.seen
      ensures i < |m.chunks|
    {
      var k :| 0 <= k < |fs| && fs[k].index == i;
      assert fs[k] in fs;
    }
    Pigeonhole(st.seen, |m.chunks|);
    VolumeBound(m.chunks, st.seen, |m.chunks|);
    forall i | 0 <= i < |m.chunks|
      ensures h(Slice(st.file, m.chunks[i])) == m.chunks[i].sha256
    {
      assert i in st.seen;
      var k :| 0 <= k < |fs| && fs[k].index == i;
      assert fs[k] in fs;
      assert Genuine(h, m, fs[k]);
    }
  }

  predicate Collision(h: Hash, a: bytes, b: bytes) {
    a != b && h(a) == h(b)
  }

  /** The same chunk of two files, different and with the same hash. */
  ghost predicate Collided(h: Hash, m: Manifest, file: bytes, source: bytes) {
    exists i :: 0 <= i < |m.chunks| && Collision(h, Slice(file, m.chunks[i]), Slice(source, m.chunks[i]))
  }

  /** A file is what its chunks are. */
  lemma SlicesDecide(cs: seq<ChunkInfo>, file: bytes, file': bytes)
    requires Tiled(cs) && End(cs) == |file| == |file'|
    requires forall i :: 0 <= i < |cs| ==> Slice(file, cs[i]) == Slice(file', cs[i])
    ensures file == file'
  {
    forall p | 0 <= p < |file|
      ensures file[p] == file'[p]
    {
      var i := OwnerOf(cs, p);
      ChunkInside(cs, i);
      assert file[p] == Slice(file, cs[i])[p - cs[i].offset];
      assert file'[p] == Slice(file', cs[i])[p - cs[i].offset];
    }
  }

  /** With a manifest that truly describes a file, chunk hashes alone pin the file down: what landed
      is that file exactly when no two different chunks with one hash have been found, and then the
      whole-file check passes too. That check only ever catches a manifest whose two kinds of hash
      disagree. */
  lemma FullLandingIsSource(h: Hash, m: Manifest, fs: seq<Arrival>, source: bytes)
    requires Describes(h, m, source)
    requires LandAll(h, m, fs).Ok? && |fs| == |m.chunks|
    ensures var file := LandAll(h, m, fs).value.file;
            && (file == source <==> !Collided(h, m, file, source))
            && (file == source ==> h(file) == m.sha256)
  {
    var file := LandAll(h, m, fs).value.file;
    FullLanding(h, m, fs);
    FullFileIsSource(h, m, file, source);
  }

  lemma FullFileIsSource(h: Hash, m: Manifest, file: bytes, source: bytes)
    requires Describes(h, m, source) && |file| == m.size
    requires forall i :: 0 <= i < |m.chunks| ==> h(Slice(file, m.chunks[i])) == m.chunks[i].sha256
    ensures file == source <==> !Collided(h, m, file, source)
  {
    if !Collided(h, m, file, source) {
      forall i | 0 <= i < |m.chunks|
        ensures Slice(file, m.chunks[i]) == Slice(source, m.chunks[i])
      {
        assert !Collision(h, Slice(file, m.chunks[i]), Slice(source, m.chunks[i]));
      }
      SlicesDecide(m.chunks, file, source);
    }
  }
}
