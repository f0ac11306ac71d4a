/** The tasks table: one row per task and role, with the primary key doing its job. */
module TaskStore {
  import opened Bytes
  import opened Wrappers

  type Peer = string    // a Tailscale StableID

  datatype Role = Sent | Received

  datatype Key = Key(id: string, role: Role)

  datatype TaskStatus = Running | Done | Failed | Interrupted

  datatype Row = Row(peer: Peer, kind: string, status: TaskStatus, output: bytes, error: string,
                     startedAt: int, finishedAt: Option<int>)

  type Table = map<Key, Row>

  const MAX_OUTPUT := 0x1_0000
  const RESTARTED := "node restarted"
  const TOO_LARGE := "output exceeded 65536 bytes"

  predicate Terminal(s: TaskStatus) {
    s != Running
  }

  // ----- the statements, as functions on the table

  /** INSERT of a running row; None when the key is taken. */
  function Started(t: Table, key: Key, peer: Peer, kind: string, now: int): Option<Table> {
    if key in t then None else Some(t[key := Row(peer, kind, Running, [], "", now, None)])
  }

  /** What RecordTaskFinish makes of an outcome: an oversized result is a failure, and only a
      done row has output. */
  function Settled(row: Row, status: TaskStatus, output: bytes, error: string, now: int): Row {
    if status == Done && |output| > MAX_OUTPUT then
      row.(status := Failed, output := [], error := TOO_LARGE, finishedAt := Some(now))
    else
      row.(status := status, output := if status == Done then output else [], error := error, finishedAt := Some(now))
  }

  /** UPDATE by key, whatever the row's status was; None when there is no row. */
  function FinishedTable(t: Table, key: Key, status: TaskStatus, output: bytes, error: string, now: int): Option<Table>
  {
    if key !in t then None else Some(t[key := Settled(t[key], status, output, error, now)])
  }

  /** ReconcileStaleTasks: every running row, in either role. */
  function Reconciled(t: Table, now: int): Table {
    map k | k in t :: if t[k].status == Running
                      then t[k].(status := Interrupted, error := RESTARTED, finishedAt := Some(now)) else t[k]
  }

  /** PruneTasks. */
  function Pruned(t: Table, cutoff: int): Table {
    map k | k in t && !(t[k].startedAt < cutoff && t[k].status != Running) :: t[k]
  }

  /** ReceivedTaskFor: only the dispatcher of a task finds its row. */
  function ReceivedFor(t: Table, id: string, requester: Peer): Option<Row> {
    var key := Key(id, Received);
    if key in t && t[key].peer == requester then Some(t[key]) else None
  }

  // ----- the store

  datatype StoreError = Database | NotFound

  class Store {
    var tasks: Table
    const reliable: bool    // whether the database never fails

    constructor (tasks: Table, reliable: bool)
      ensures this.tasks == tasks && this.reliable == reliable
    {
      this.tasks, this.reliable := tasks, reliable;
    }

    method RecordTaskStart(key: Key, peer: Peer, kind: string, now: int) returns (err: Option<StoreError>)
      modifies this
      ensures err.None? ==> Started(old(tasks), key, peer, kind, now) == Some(tasks)
      ensures err.Some? ==> tasks == old(tasks)
      ensures reliable ==> (err.None? <==> key !in old(tasks))
    {
      var ok := Works(reliable);
      if !ok || key in tasks {
        return Some(Database);
      }
      tasks := tasks[key := Row(peer, kind, Running, [], "", now, None)];
      return None;
    }

    method RecordTaskFinish(key: Key, status: TaskStatus, output: bytes, error: string, now: int)
      returns (err: Option<StoreError>)
      modifies this
      ensures err.None? ==> FinishedTable(old(tasks), key, status, output, error, now) == Some(tasks)
      ensures err.Some? ==> tasks == old(tasks)
      ensures reliable ==> if key in old(tasks) then err.None? else err == Some(NotFound)
    {
      var (st, out, msg) := (status, output, error);
      if st == Done && |out| > MAX_OUTPUT {
        st, out, msg := Failed, [], TOO_LARGE;
      }
      if st != Done {
        out := [];
      }
      var ok := Works(reliable);
      if !ok {
        return Some(Database);
      }
      if key !in tasks {
        return Some(NotFound);
      }
      tasks := tasks[key := tasks[key].(status := st, output := out, error := msg, finishedAt := Some(now))];
      return None;
    }

    method ReceivedTaskFor(id: string, requester: Peer) returns (r: Result<Row, StoreError>)
      ensures r.Ok? ==> ReceivedFor(tasks, id, requester) == Some(r.value)
      ensures r == Err(NotFound) ==> ReceivedFor(tasks, id, requester) == None
      ensures reliable ==> r != Err(Database)
    {
      var ok := Works(reliable);
      if !ok {
        return Err(Database);
      }
      var key := Key(id, Received);
      return if key in tasks && tasks[key].peer == requester then Ok(tasks[key]) else Err(NotFound);
    }

    /** Every running row, in either role, and no other: its run died with the last process. */
    method ReconcileStaleTasks(now: int) returns (ok: bool)
      modifies this
      ensures reliable ==> ok
      ensures !ok ==> tasks == old(tasks)
      ensures ok ==> tasks.Keys == old(tasks).Keys && forall k :: k in tasks ==>
                       var (row, was) := (tasks[k], old(tasks)[k]);
                       && Terminal(row.status)
                       && (Terminal(was.status) ==> row == was)
                       && (was.status == Running ==>
                             && row.status == Interrupted && row.error == RESTARTED && row.finishedAt == Some(now)
                             && row.peer == was.peer && row.kind == was.kind && row.startedAt == was.startedAt
                             && row.output == was.output)
    {
      ok := Works(reliable);
      if ok {
        tasks := Reconciled(tasks, now);
      }
    }

    /** Exactly the settled rows that started before the cutoff go; a running row never does. */
    method PruneTasks(cutoff: int) returns (ok: bool)
      modifies this
      ensures reliable ==> ok
      ensures !ok ==> tasks == old(tasks)
      ensures ok ==> forall k :: k in old(tasks) ==>
                       (k !in tasks <==> Terminal(old(tasks)[k].status) && old(tasks)[k].startedAt < cutoff)
      ensures forall k :: k in tasks ==> k in old(tasks) && tasks[k] == old(tasks)[k]
    {
      ok := Works(reliable);
      if ok {
        tasks := Pruned(tasks, cutoff);
      }
    }
  }
}
