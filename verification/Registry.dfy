/** The list of transfers a node shows: entered when one starts, left some seconds after it has
    finished, by a timer that may fire in any order with the others. */
module Registry {
  import opened Transfer
  import opened Wrappers

  datatype Direction = Outbound | Inbound

  class Entry {
    const id: nat
    const direction: Direction
    const peer: string
    var progress: Progress
    var done: bool
    var err: Option<string>

    constructor (id: nat, direction: Direction, peer: string)
      ensures this.id == id && this.direction == direction && this.peer == peer
      ensures !done && err == None && progress == Progress(0, 0, 0, 0, false)
    {
      this.id, this.direction, this.peer := id, direction, peer;
      progress, done, err := Progress(0, 0, 0, 0, false), false, None;
    }

    /** The callback handed to Send and Receive. */
    method Report(p: Progress)
      modifies this`progress
      ensures progress == p
    {
      progress := p;
    }
  }

  /** What the user interface gets: a copy. */
  datatype View = View(id: nat, direction: Direction, peer: string, progress: Progress, done: bool, err: Option<string>)

  class Registry {
    var nextId: nat
    var items: seq<Entry>
    ghost var gone: set<Entry>       // removed again
    ghost var started: set<Entry>    // ever entered

    constructor ()
      ensures Valid() && items == [] && started == {}
    {
      nextId, items, gone, started := 0, [], {}, {};
    }

    /** Listed are exactly the transfers that were started and not removed, each once and in the
        order they started; only finished ones are ever removed. */
    ghost predicate Valid()
      reads this, started
    {
      && (forall i, j :: 0 <= i < j < |items| ==> items[i].id < items[j].id)
      && (forall t :: t in started ==> t.id <= nextId)
      && (forall t :: t in items ==> t in started && t !in gone)
      && (forall t :: t in started ==> t in items || t in gone)
      && (forall t :: t in gone ==> t in started && t.done)
    }

    method Start(direction: Direction, peer: string) returns (t: Entry)
      requires Valid()
      modifies this
      ensures Valid() && fresh(t) && !t.done && t.direction == direction && t.peer == peer
      ensures items == old(items) + [t] && started == old(started) + {t} && gone == old(gone)
      ensures forall u :: u in old(started) ==> u.id != t.id
    {
      nextId := nextId + 1;
      t := new Entry(nextId, direction, peer);
      items := items + [t];
      started := started + {t};
    }

    /** Marks it done; the removal comes later, from a timer. */
    method Finish(t: Entry, err: Option<string>)
      requires Valid() && t in started
      modifies t`err, t`done
      ensures Valid() && t.done && t.err == err
    {
      t.err := err;
      t.done := true;
    }

    /** The timer of a finished transfer. It takes out that transfer and no other, wherever in the
        list it is by now, and does nothing the second time. */
    method Remove(t: Entry)
      requires Valid() && t in started && t.done
      modifies this`items, this`gone
      ensures Valid() && gone == old(gone) + {t} && t !in items
      ensures t !in old(items) ==> items == old(items)
      ensures t in old(items) ==>
                exists i :: 0 <= i < |old(items)| && old(items)[i] == t
                            && items == old(items)[..i] + old(items)[i + 1..]
    {
      for i := 0 to |items|
        invariant items == old(items) && gone == old(gone)
        invariant t !in items[..i]
      {
        if items[i] == t {
          items := items[..i] + items[i + 1..];
          gone := gone + {t};
          return;
        }
      }
      gone := gone + {t};
    }

    /** Transfers(): everything listed, so everything that is still under way, under ids that
        grow. */
    method Snapshot() returns (out: seq<View>)
      requires Valid()
      ensures |out| == |items| && forall t :: t in started && !t.done ==> t in items
      ensures forall i, j :: 0 <= i < j < |out| ==> out[i].id < out[j].id
      ensures forall i :: 0 <= i < |items| ==>
                var t := items[i];
                out[i] == View(t.id, t.direction, t.peer, t.progress, t.done, t.err)
    {
      out := [];
      for i := 0 to |items|
        invariant |out| == i
        invariant forall k :: 0 <= k < i ==>
                    var t := items[k];
                    out[k] == View(t.id, t.direction, t.peer, t.progress, t.done, t.err)
      {
        var t := items[i];
        out := out + [View(t.id, t.direction, t.peer, t.progress, t.done, t.err)];
      }
    }
  }
}
