/** One end of a connection, or an open file: a handle that hands out bytes in whatever
    pieces it likes and takes bytes until it breaks. */
module Stream {
  import opened Bytes
  import opened Wrappers

  /** What a Read reports once the bytes have run out: a clean close, or a failure
      (deadline passed, connection reset, disk error). */
  datatype Ending = Closed | Failing

  datatype IoError = Eof | UnexpectedEof | Broken

  /** The error io.ReadFull gives when only `got` bytes of its buffer were filled. */
  function Shortfall(got: nat, ending: Ending): IoError {
    if ending.Failing? then Broken else if got == 0 then Eof else UnexpectedEof
  }

  function Min(a: nat, b: nat): (m: nat)
    ensures m <= a && m <= b && (m == a || m == b)
  {
    if a < b then a else b
  }

  class Conn {
    var pending: bytes    // inbound bytes not read yet
    const ending: Ending
    var written: bytes    // outbound bytes the connection has taken
    var room: nat         // how many more it takes before a write fails

    constructor (pending: bytes, ending: Ending, room: nat)
      ensures this.pending == pending && this.ending == ending
      ensures this.written == [] && this.room == room
    {
      this.pending, this.ending := pending, ending;
      this.written, this.room := [], room;
    }

    /** One Read call into buf[from..to]. How many bytes it moves is up to the transport,
        and it may report the end together with the last of them. */
    method Read(buf: array<byte>, from: nat, to: nat) returns (n: nat, err: Option<IoError>)
      requires from < to <= buf.Length
      modifies this`pending, buf
      ensures n <= to - from && n <= |old(pending)|
      ensures buf[..] == old(buf[..from]) + old(pending)[..n] + old(buf[from + n..])
      ensures pending == old(pending)[n..]
      ensures n == 0 ==> err.Some?
      ensures err.Some? ==> pending == []
      ensures err.Some? ==> err.value == if ending.Failing? then Broken else Eof
    {
      var most := Min(to - from, |pending|);
      if most == 0 {
        n := 0;
      } else {
        n :| 1 <= n <= most;
      }
      var report: bool := *;
      err := if n == 0 || (n == |pending| && report)
        then Some(if ending.Failing? then Broken else Eof) else None;
      var data := pending[..n];
      forall i | 0 <= i < n {
        buf[from + i] := data[i];
      }
      pending := pending[n..];
    }

    static lemma Consecutive(s: bytes, n: nat, k: nat)
      requires n + k <= |s|
      ensures s[..n] + s[n..][..k] == s[..n + k] && s[n..][k..] == s[n + k..]
    {
    }

    /** io.ReadFull into buf[..count]: keep calling Read until the buffer is full. What comes
        out depends on the bytes alone, never on how Read cut them up. */
    method ReadFull(buf: array<byte>, count: nat) returns (n: nat, err: Option<IoError>)
      requires count <= buf.Length
      modifies this`pending, buf
      ensures n == Min(count, |old(pending)|)
      ensures buf[..n] == old(pending)[..n] && pending == old(pending)[n..]
      ensures buf[n..] == old(buf[n..])
      ensures err.None? <==> n == count
      ensures err.Some? ==> err.value == Shortfall(n, ending)
    {
      n, err := 0, None;
      while n < count && err.None?
        invariant n <= count && n <= |old(pending)|
        invariant buf[..] == old(pending)[..n] + old(buf[n..])
        invariant pending == old(pending)[n..]
        invariant err.Some? ==> pending == []
        invariant err.Some? ==> err.value == if ending.Failing? then Broken else Eof
        decreases count - n, if err.None? then 1 else 0
      {
        ghost var from := n;
        var k;
        k, err := Read(buf, n, count);
        n := n + k;
        Consecutive(old(pending), from, k);
      }
      if n >= count {
        err := None;
      } else if n > 0 && err == Some(Eof) {
        err := Some(UnexpectedEof);
      }
    }

    /** One Write call: all of `data`, or an error after as much as the connection took. */
    method Write(data: bytes) returns (err: Option<IoError>)
      modifies this`written, this`room
      ensures err.None? <==> |data| <= old(room)
      ensures written == old(written) + data[..Min(|data|, old(room))]
      ensures room == old(room) - Min(|data|, old(room))
    {
      var k := Min(|data|, room);
      err := if k == |data| then None else Some(Broken);
      written := written + data[..k];
      room := room - k;
    }
  }
}
