/** The manifest of a blob: how a file is cut and hashed, and what a receiver checks before it
    trusts one. */
module BlobManifest {
  import opened Bytes
  import opened Stream
  import opened Wrappers

  /** Hex SHA-256, left abstract. */
  type Hash = bytes -> string

  const MAX_CHUNK := 0x400_0000      // 64 MiB in one frame
  const MAX_CHUNKS := 0x10_0000
  const DEFAULT_CHUNK := 0x40_0000   // 4 MiB

  datatype ChunkInfo = ChunkInfo(index: int, offset: int, length: int, sha256: string)

  datatype Manifest = Manifest(
    name: bytes, mediaType: string, size: int, sha256: string, chunks: seq<ChunkInfo>)

  /** Where chunk `i` has to start: at the end of the one before it. */
  function Start(cs: seq<ChunkInfo>, i: nat): int
    requires i <= |cs|
  {
    if i == 0 then 0 else cs[i - 1].offset + cs[i - 1].length
  }

  /** Where the last chunk ends. */
  function End(cs: seq<ChunkInfo>): int {
    Start(cs, |cs|)
  }

  /** One non-empty chunk after the other, numbered by position, with no gap or overlap. */
  ghost predicate Tiled(cs: seq<ChunkInfo>) {
    forall i :: 0 <= i < |cs| ==> Placed(cs, i)
  }

  ghost predicate Placed(cs: seq<ChunkInfo>, i: nat)
    requires i < |cs|
  {
    cs[i].index == i && cs[i].length > 0 && cs[i].offset == Start(cs, i)
  }

  ghost predicate WithinLimits(cs: seq<ChunkInfo>) {
    |cs| <= MAX_CHUNKS && forall i :: 0 <= i < |cs| ==> cs[i].length <= MAX_CHUNK
  }

  ghost predicate Valid(m: Manifest) {
    Tiled(m.chunks) && WithinLimits(m.chunks) && End(m.chunks) == m.size
  }

  // ----- geometry of a tiling

  lemma TiledFront(cs: seq<ChunkInfo>, n: nat)
    requires Tiled(cs) && n <= |cs|
    ensures Tiled(cs[..n]) && End(cs[..n]) == Start(cs, n)
  {
    forall i | 0 <= i < n
      ensures Placed(cs[..n], i)
    {
      assert Placed(cs, i);
    }
  }

  lemma TiledNext(cs: seq<ChunkInfo>, n: nat)
    requires n < |cs| && Tiled(cs[..n]) && Placed(cs, n)
    ensures Tiled(cs[..n + 1]) && End(cs[..n + 1]) == cs[n].offset + cs[n].length
  {
    var longer := cs[..n + 1];
    forall i | 0 <= i < |longer|
      ensures Placed(longer, i)
    {
      assert i < n ==> Placed(cs[..n], i);
    }
  }

  lemma {:induction false} ChunksInOrder(cs: seq<ChunkInfo>, i: nat, j: nat)
    requires Tiled(cs) && i < j < |cs|
    ensures cs[i].offset + cs[i].length <= cs[j].offset
    decreases j
  {
    assert Placed(cs, j) && Placed(cs, j - 1);
    if i < j - 1 {
      ChunksInOrder(cs, i, j - 1);
    }
  }

  lemma ChunkInside(cs: seq<ChunkInfo>, i: nat)
    requires Tiled(cs) && i < |cs|
    ensures 0 <= cs[i].offset < cs[i].offset + cs[i].length <= End(cs)
  {
    assert Placed(cs, 0) && Placed(cs, i) && Placed(cs, |cs| - 1);
    if i > 0 {
      ChunksInOrder(cs, 0, i);
    }
    if i < |cs| - 1 {
      ChunksInOrder(cs, i, |cs| - 1);
    }
  }

  /** Every byte position belongs to a chunk, and (ChunksInOrder) to only one. */
  lemma {:induction false} OwnerOf(cs: seq<ChunkInfo>, p: nat) returns (i: nat)
    requires Tiled(cs) && p < End(cs)
    ensures i < |cs| && cs[i].offset <= p < cs[i].offset + cs[i].length
  {
    var n := |cs| - 1;
    assert Placed(cs, n);
    if p < cs[n].offset {
      TiledFront(cs, n);
      i := OwnerOf(cs[..n], p);
    } else {
      i := n;
    }
  }

  lemma {:induction false} ValidSize(cs: seq<ChunkInfo>)
    requires Tiled(cs) && (forall i :: 0 <= i < |cs| ==> cs[i].length <= MAX_CHUNK)
    ensures 0 <= End(cs) <= |cs| * MAX_CHUNK
  {
    if cs != [] {
      var n := |cs| - 1;
      assert Placed(cs, n);
      TiledFront(cs, n);
      ValidSize(cs[..n]);
    }
  }

  // ----- Validate

  datatype Fault =
    | NegativeSize
    | TooManyChunks
    | WrongIndex(at: nat)
    | EmptyChunk(at: nat)
    | OversizedChunk(at: nat)
    | WrongOffset(at: nat)
    | WrongTotal

  /** The chunk at position `at` is the first bad one, and bad in the way `f` says. */
  ghost predicate FirstBad(m: Manifest, f: Fault, at: nat) {
    && at < |m.chunks| <= MAX_CHUNKS && Tiled(m.chunks[..at]) && WithinLimits(m.chunks[..at])
    && var c := m.chunks[at];
       match f
       case WrongIndex(_) => c.index != at
       case EmptyChunk(_) => c.index == at && c.length <= 0
       case OversizedChunk(_) => c.index == at && c.length > MAX_CHUNK
       case WrongOffset(_) => c.index == at && 0 < c.length <= MAX_CHUNK && c.offset != Start(m.chunks, at)
       case _ => false
  }

  ghost predicate Explains(m: Manifest, f: Fault) {
    match f
    case NegativeSize => m.size < 0
    case TooManyChunks => m.size >= 0 && |m.chunks| > MAX_CHUNKS
    case WrongTotal => Tiled(m.chunks) && WithinLimits(m.chunks) && End(m.chunks) != m.size
    case _ => m.size >= 0 && FirstBad(m, f, f.at)
  }

  /** Accepts exactly the valid manifests and otherwise names the first thing wrong. The
      running offset stays below 2^46, far from the end of an int64. */
  method Validate(m: Manifest) returns (fault: Option<Fault>)
    ensures fault.None? <==> Valid(m)
    ensures fault.Some? ==> Explains(m, fault.value)
  {
    if m.size < 0 {
      if Valid(m) {
        ValidSize(m.chunks);
      }
      return Some(NegativeSize);
    }
    if |m.chunks| > MAX_CHUNKS {
      return Some(TooManyChunks);
    }
    var offset := 0;
    for i := 0 to |m.chunks|
      invariant Tiled(m.chunks[..i]) && WithinLimits(m.chunks[..i])
      invariant offset == Start(m.chunks, i)
      invariant 0 <= offset <= i * MAX_CHUNK
    {
      var c := m.chunks[i];
      assert Valid(m) ==> Placed(m.chunks, i);
      if c.index != i {
        return Some(WrongIndex(i));
      }
      if c.length <= 0 {
        return Some(EmptyChunk(i));
      }
      if c.length > MAX_CHUNK {
        return Some(OversizedChunk(i));
      }
      if c.offset != offset {
        return Some(WrongOffset(i));
      }
      offset := offset + c.length;
      TiledNext(m.chunks, i);
    }
    assert m.chunks[..|m.chunks|] == m.chunks;
    if offset != m.size {
      return Some(WrongTotal);
    }
    return None;
  }

  // ----- BuildManifest

  ghost function Slice(content: bytes, c: ChunkInfo): (s: bytes) {
    if 0 <= c.offset <= c.offset + c.length <= |content| then content[c.offset..c.offset + c.length] else []
  }

  /** `cs` tiles the first End(cs) bytes of `content` and carries their hashes. */
  ghost predicate Hashed(h: Hash, cs: seq<ChunkInfo>, content: bytes) {
    && Tiled(cs) && End(cs) <= |content|
    && forall i :: 0 <= i < |cs| ==> cs[i].sha256 == h(Slice(content, cs[i]))
  }

  /** `m` is a true account of `content`. */
  ghost predicate Describes(h: Hash, m: Manifest, content: bytes) {
    Hashed(h, m.chunks, content) && End(m.chunks) == |content| == m.size && m.sha256 == h(content)
  }

  /** Only the last chunk may be shorter than `k`, and none is longer. */
  ghost predicate CutBy(cs: seq<ChunkInfo>, k: nat) {
    forall i :: 0 <= i < |cs| ==> if i < |cs| - 1 then cs[i].length == k else cs[i].length <= k
  }

  function EffectiveChunkSize(chunkSize: int): (k: nat)
    ensures k > 0
  {
    if chunkSize <= 0 then DEFAULT_CHUNK else chunkSize
  }

  /** A manifest of the bytes read so far, extended by the next piece. */
  lemma NextChunk(h: Hash, cs: seq<ChunkInfo>, content: bytes, fed: bytes, piece: bytes, rest: bytes, c: ChunkInfo)
    requires Hashed(h, cs, content) && End(cs) == |fed| && content == fed + (piece + rest) && piece != []
    requires c == ChunkInfo(|cs|, |fed|, |piece|, h(piece))
    ensures Hashed(h, cs + [c], content) && End(cs + [c]) == |fed| + |piece|
    ensures content == fed + piece + rest
  {
    assert piece == Slice(content, c);
    var longer := cs + [c];
    assert longer[..|cs|] == cs && longer[..|cs| + 1] == longer;
    TiledNext(longer, |cs|);
  }

  method BuildManifest(f: Conn, h: Hash, name: bytes, mediaType: string, chunkSize: int)
    returns (r: Result<Manifest, IoError>)
    modifies f`pending
    ensures r.Ok? <==> f.ending.Closed?
    ensures r.Ok? ==> Describes(h, r.value, old(f.pending))
    ensures r.Ok? ==> CutBy(r.value.chunks, if chunkSize > 0 then chunkSize else 4 * 1024 * 1024)
    ensures r.Ok? ==> r.value.name == name && r.value.mediaType == mediaType
  {
    var k := EffectiveChunkSize(chunkSize);
    ghost var content := f.pending;
    var fed: bytes := [];    // what the whole-file hasher has been given
    var buf := new byte[k];
    var chunks: seq<ChunkInfo>, offset, index := [], 0, 0;
    while true
      invariant index == |chunks| && offset == End(chunks) == |fed|
      invariant Hashed(h, chunks, content)
      invariant forall i :: 0 <= i < |chunks| ==> chunks[i].length == k
      invariant content == fed + f.pending
      decreases |f.pending|
    {
      ghost var unread := f.pending;
      var n, err := f.ReadFull(buf, k);
      assert unread == buf[..n] + f.pending;
      if n > 0 {
        var c := ChunkInfo(index, offset, n, h(buf[..n]));
        NextChunk(h, chunks, content, fed, buf[..n], f.pending, c);
        chunks := chunks + [c];
        fed := fed + buf[..n];
        offset := offset + n;
        index := index + 1;
      }
      if err == Some(Eof) || err == Some(UnexpectedEof) {
        break;
      }
      if err.Some? {
        return Err(err.value);
      }
    }
    assert fed == content;
    return Ok(Manifest(name, mediaType, offset, h(fed), chunks));
  }

  // ----- what a cut says about the file

  ghost function Joined(content: bytes, cs: seq<ChunkInfo>): bytes {
    if cs == [] then [] else Joined(content, cs[..|cs| - 1]) + Slice(content, cs[|cs| - 1])
  }

  /** The slices, put one after the other, are the file. */
  lemma {:induction false} SlicesJoin(content: bytes, cs: seq<ChunkInfo>)
    requires Tiled(cs) && End(cs) <= |content|
    ensures 0 <= End(cs) && Joined(content, cs) == content[..End(cs)]
  {
    if cs != [] {
      var n := |cs| - 1;
      var at := cs[n].offset;
      assert at == End(cs[..n]) by {
        assert Placed(cs, n);
        TiledFront(cs, n);
      }
      assert 0 <= at <= End(cs) by {
        ChunkInside(cs, n);
      }
      assert Joined(content, cs[..n]) == content[..at] by {
        TiledFront(cs, n);
        SlicesJoin(content, cs[..n]);
      }
      assert content[..at] + content[at..End(cs)] == content[..End(cs)];
    }
  }

  lemma {:induction false} FullChunksEnd(cs: seq<ChunkInfo>, k: nat)
    requires Tiled(cs) && forall i :: 0 <= i < |cs| ==> cs[i].length == k
    ensures End(cs) == |cs| * k
  {
    if cs != [] {
      var n := |cs| - 1;
      assert Placed(cs, n);
      TiledFront(cs, n);
      FullChunksEnd(cs[..n], k);
    }
  }

  /** The number of chunks is the size divided by the chunk size, rounded up. */
  lemma CutCount(cs: seq<ChunkInfo>, k: nat)
    requires Tiled(cs) && CutBy(cs, k) && k > 0
    ensures (|cs| - 1) * k < End(cs) <= |cs| * k || (cs == [] && End(cs) == 0)
  {
    if cs != [] {
      FullFront(cs, k, |cs| - 1);
    }
  }

  lemma CountAtMost(cs: seq<ChunkInfo>, k: nat, n: nat)
    requires Tiled(cs) && CutBy(cs, k) && k > 0
    ensures |cs| <= n <==> End(cs) <= n * k
  {
    CutCount(cs, k);
    if |cs| <= n {
      assert |cs| * k <= n * k;
    } else {
      assert n * k <= (|cs| - 1) * k;
    }
  }

  /** There is one way to cut and hash a file. */
  lemma CutUnique(h: Hash, cs: seq<ChunkInfo>, ds: seq<ChunkInfo>, content: bytes, k: nat)
    requires Hashed(h, cs, content) && Hashed(h, ds, content) && CutBy(cs, k) && CutBy(ds, k)
    requires End(cs) == End(ds) == |content|
    requires k > 0
    ensures cs == ds
  {
    CutCount(cs, k);
    CutCount(ds, k);
    CountAtMost(cs, k, |ds|);
    CountAtMost(ds, k, |cs|);
    forall i | 0 <= i < |cs|
      ensures cs[i] == ds[i]
    {
      FullFront(cs, k, i);
      FullFront(ds, k, i);
      assert Placed(cs, i) && Placed(ds, i);
    }
  }

  lemma FullFront(cs: seq<ChunkInfo>, k: nat, i: nat)
    requires Tiled(cs) && CutBy(cs, k) && i < |cs|
    ensures cs[i].offset == i * k && 0 < cs[i].length <= k
    ensures cs[i].length == if i < |cs| - 1 then k else End(cs) - i * k
  {
    assert Placed(cs, i);
    TiledFront(cs, i);
    FullChunksEnd(cs[..i], k);
  }

  /** Whether a manifest this node builds passes its own check is decided by two numbers. */
  lemma BuiltIsValid(h: Hash, m: Manifest, content: bytes, k: nat)
    requires Describes(h, m, content) && CutBy(m.chunks, k) && k > 0
    ensures Valid(m) <==>
            Min(k, |content|) <= 64 * 1024 * 1024 && |content| <= 1024 * 1024 * k
  {
    var cs := m.chunks;
    CountAtMost(cs, k, MAX_CHUNKS);
    FirstIsLongest(cs, k, |content|);
  }

  lemma FirstIsLongest(cs: seq<ChunkInfo>, k: nat, size: nat)
    requires Tiled(cs) && CutBy(cs, k) && k > 0 && End(cs) == size
    ensures WithinLimits(cs) <==> Min(k, size) <= MAX_CHUNK && |cs| <= MAX_CHUNKS
  {
    CutCount(cs, k);
    if cs != [] {
      FullFront(cs, k, 0);
    }
  }

  // ----- a file the node can describe and not send

  /** The first n pieces of k bytes. */
  lemma {:induction false} FullPieces(h: Hash, content: bytes, k: nat, n: nat) returns (cs: seq<ChunkInfo>)
    requires k > 0 && n * k <= |content|
    ensures Hashed(h, cs, content) && End(cs) == n * k && forall i :: 0 <= i < |cs| ==> cs[i].length == k
  {
    cs := [];
    if n > 0 {
      var at := (n - 1) * k;
      cs := FullPieces(h, content, k, n - 1);
      cs := OnePiece(h, cs, content, at, k);
    }
  }

  lemma OnePiece(h: Hash, cs: seq<ChunkInfo>, content: bytes, at: nat, k: nat) returns (longer: seq<ChunkInfo>)
    requires Hashed(h, cs, content) && End(cs) == at && k > 0 && at + k <= |content|
    ensures Hashed(h, longer, content) && End(longer) == at + k
    ensures |longer| == |cs| + 1 && longer[..|cs|] == cs && longer[|cs|].length == k
  {
    var piece, rest := content[at..at + k], content[at + k..];
    var c := ChunkInfo(|cs|, at, k, h(piece));
    assert content == content[..at] + (piece + rest);
    NextChunk(h, cs, content, content[..at], piece, rest, c);
    longer := cs + [c];
  }

  /** Every file has a manifest for every chunk size. */
  lemma ManifestExists(h: Hash, content: bytes, k: nat) returns (m: Manifest)
    requires k > 0
    ensures Describes(h, m, content) && CutBy(m.chunks, k)
  {
    var n, r := |content| / k, |content| % k;
    assert n * k + r == |content|;
    var cs := FullPieces(h, content, k, n);
    if r > 0 {
      cs := OnePiece(h, cs, content, n * k, r);
    }
    m := Manifest([], "", |content|, h(content), cs);
  }

  /** One byte more than 4 TiB, cut the way the node cuts files, is one chunk more than Validate
      takes. */
  lemma BuiltAndRefused(h: Hash) returns (content: bytes, m: Manifest)
    ensures |content| == 0x400_0000_0001 && EffectiveChunkSize(0) == DEFAULT_CHUNK
    ensures Describes(h, m, content) && CutBy(m.chunks, DEFAULT_CHUNK) && !Valid(m)
  {
    content := seq(0x400_0000_0001, i => 0);
    m := ManifestExists(h, content, DEFAULT_CHUNK);
    BuiltIsValid(h, m, content, DEFAULT_CHUNK);
  }
}
