/** A node that takes tasks: any number of connection handlers and background runs, one slot,
    one table. Every line of the handler that another handler could see the effect of is one
    step, and the steps of different handlers interleave freely. */
module TaskNode {
  import opened Bytes
  import opened TaskStore
  import opened Wrappers

  datatype Task = Task(id: string, kind: string, cpuCores: int, memoryMB: int, gpu: bool, input: bytes)

  /** How far one handler, and then its run, has got. */
  datatype Phase =
    | Offered          // offer read and valid, accept not asked yet
    | Admitted         // let in by the policy, slot not asked yet
    | Claimed          // slot claimed, row not inserted
    | NotRecorded      // the insert failed, slot still claimed
    | Recorded         // row inserted, verdict not written
    | Undelivered      // the verdict could not be written, slot still claimed
    | Unfinished       // slot released, row not marked failed yet
    | Delivered        // dispatcher has its accept
    | Spawned          // old rows pruned, about to run
    | Executing
    | Ran(status: TaskStatus, output: bytes, error: string)
    | Stored           // outcome written, slot still claimed
    | Closed

  datatype Thread = Thread(peer: Peer, task: Task, phase: Phase, claims: nat, releases: nat)

  /** An execution that came to an end. */
  datatype Outcome = Outcome(peer: Peer, task: Task, status: TaskStatus, output: bytes)

  /** `runs` counts the executions of a received task since its row was inserted; `outcomes`
      remembers every execution that ended. Neither is read by any step. */
  datatype Node = Node(slot: bool, table: Table, threads: map<nat, Thread>, cancelled: bool, now: int,
                       acl: iset<Peer>, kinds: set<string>, runs: map<string, nat>, outcomes: set<Outcome>)

  function Fresh(table: Table, acl: iset<Peer>, kinds: set<string>): Node {
    Node(false, table, map[], false, 0, acl, kinds, map[], {})
  }

  function RowKey(t: Thread): Key {
    Key(t.task.id, Received)
  }

  // ----- the slot

  /** A thread that claimed the slot and has not released it. */
  predicate Holds(p: Phase) {
    !p.Offered? && !p.Admitted? && !p.Unfinished? && !p.Closed?
  }

  /** A thread that inserted its row and has not settled it. */
  predicate OwnsRow(p: Phase) {
    !p.Offered? && !p.Admitted? && !p.Claimed? && !p.NotRecorded? && !p.Stored? && !p.Closed?
  }

  /** A thread whose run has been started and not stored. */
  predicate HasBegun(p: Phase) {
    p.Executing? || p.Ran?
  }

  class TaskSlot {
    var busy: bool

    constructor ()
      ensures !busy
    {
      busy := false;
    }

    method TryClaim() returns (won: bool)
      modifies this
      ensures busy && (won <==> !old(busy))
    {
      if busy {
        return false;
      }
      busy := true;
      return true;
    }

    method Release()
      modifies this
      ensures !busy
    {
      busy := false;
    }
  }

  // ----- steps

  datatype Action =
    | Arrive(h: nat, peer: Peer, task: Task)
    | Admit(h: nat)                        // the ACL has been read, the kind is supported
    | Refuse(h: nat)                       // ACL, kind, or no slot free
    | Claim(h: nat)
    | Record(h: nat, ok: bool)
    | ReleaseUnrecorded(h: nat)
    | DeliverVerdict(h: nat)
    | LoseVerdict(h: nat)
    | ReleaseLost(h: nat)
    | FinishLost(h: nat, ok: bool)
    | Prune(h: nat, cutoff: int, ok: bool)
    | Execute(h: nat)
    | RunEnds(h: nat, result: Result<bytes, string>)
    | Store(h: nat, ok: bool)
    | ReleaseRun(h: nat)
    | RecordSent(id: string, peer: Peer, kind: string, ok: bool)
    | FinishSent(id: string, status: TaskStatus, output: bytes, error: string, ok: bool)
    | SetTrust(acl: iset<Peer>)
    | Tick(now: int)
    | Cancel                               // Close: the run context is cancelled
    | Restart(reconciled: bool)            // the process dies, and a new one opens the table

  predicate InPhase(s: Node, h: nat, p: Phase) {
    h in s.threads && s.threads[h].phase == p
  }

  function To(s: Node, h: nat, p: Phase): Node
    requires h in s.threads
  {
    s.(threads := s.threads[h := s.threads[h].(phase := p)])
  }

  /** The accept callback's checks before the slot. */
  predicate Admits(s: Node, peer: Peer, task: Task) {
    peer in s.acl && task.kind in s.kinds
  }

  predicate AdmitsThread(s: Node, t: Thread) {
    Admits(s, t.peer, t.task)
  }

  function Releases(s: Node, h: nat, p: Phase): Node
    requires h in s.threads
  {
    To(s, h, p).(slot := false, threads := s.threads[h := s.threads[h].(phase := p,
          releases := s.threads[h].releases + 1)])
  }

  function OrElse(t: Option<Table>, otherwise: Table): Table {
    if t.Some? then t.value else otherwise
  }

  /** The next state, or None when the action is not possible now. */
  function Step(s: Node, a: Action): Option<Node> {
    match a
    case Arrive(h, peer, task) =>
      if h in s.threads then None else Some(s.(threads := s.threads[h := Thread(peer, task, Offered, 0, 0)]))
    case Admit(h) => if InPhase(s, h, Offered) && AdmitsThread(s, s.threads[h]) then Some(To(s, h, Admitted)) else None
    case Refuse(h) =>
      if (InPhase(s, h, Offered) && !AdmitsThread(s, s.threads[h])) || (InPhase(s, h, Admitted) && s.slot)
      then Some(To(s, h, Closed)) else None
    case Claim(h) =>
      if InPhase(s, h, Admitted) && !s.slot then
        var t := s.threads[h];
        Some(s.(slot := true, threads := s.threads[h := t.(phase := Claimed, claims := t.claims + 1)]))
      else None
    case Record(h, ok) =>
      if !InPhase(s, h, Claimed) then None else
        var t := s.threads[h];
        var table := Started(s.table, RowKey(t), t.peer, t.task.kind, s.now);
        if ok && table.Some? then Some(To(s, h, Recorded).(table := table.value, runs := s.runs[t.task.id := 0]))
        else Some(To(s, h, NotRecorded))
    case ReleaseUnrecorded(h) => if InPhase(s, h, NotRecorded) then Some(Releases(s, h, Closed)) else None
    case DeliverVerdict(h) => if InPhase(s, h, Recorded) then Some(To(s, h, Delivered)) else None
    case LoseVerdict(h) => if InPhase(s, h, Recorded) then Some(To(s, h, Undelivered)) else None
    case ReleaseLost(h) => if InPhase(s, h, Undelivered) then Some(Releases(s, h, Unfinished)) else None
    case FinishLost(h, ok) =>
      if !InPhase(s, h, Unfinished) then None else
        var t := FinishedTable(s.table, RowKey(s.threads[h]), Failed, [], "verdict not delivered", s.now);
        Some(To(s, h, Closed).(table := if ok then OrElse(t, s.table) else s.table))
    case Prune(h, cutoff, ok) =>
      if !InPhase(s, h, Delivered) then None
      else Some(To(s, h, Spawned).(table := if ok then Pruned(s.table, cutoff) else s.table))
    case Execute(h) =>
      if !InPhase(s, h, Spawned) then None else
        var id := s.threads[h].task.id;
        Some(To(s, h, Executing).(runs := s.runs[id := 1 + if id in s.runs then s.runs[id] else 0]))
    case RunEnds(h, result) =>
      if !InPhase(s, h, Executing) then None else
        var t := s.threads[h];
        var p := match result
                 case Ok(out) => Ran(Done, out, "")
                 case Err(e) => Ran(if s.cancelled then Interrupted else Failed, [], e);
        Some(To(s, h, p).(outcomes := s.outcomes + {Outcome(t.peer, t.task, p.status, p.output)}))
    case Store(h, ok) =>
      if h !in s.threads || !s.threads[h].phase.Ran? then None else
        var p := s.threads[h].phase;
        var t := FinishedTable(s.table, RowKey(s.threads[h]), p.status, p.output, p.error, s.now);
        Some(To(s, h, Stored).(table := if ok then OrElse(t, s.table) else s.table))
    case ReleaseRun(h) => if InPhase(s, h, Stored) then Some(Releases(s, h, Closed)) else None
    case RecordSent(id, peer, kind, ok) =>
      var t := Started(s.table, Key(id, Sent), peer, kind, s.now);
      Some(s.(table := if ok then OrElse(t, s.table) else s.table))
    case FinishSent(id, status, output, error, ok) =>
      var t := FinishedTable(s.table, Key(id, Sent), status, output, error, s.now);
      Some(s.(table := if ok then OrElse(t, s.table) else s.table))
    case SetTrust(acl) => Some(s.(acl := acl))
    case Tick(now) => Some(s.(now := now))
    case Cancel => Some(s.(cancelled := true))
    case Restart(reconciled) =>
      Some(s.(slot := false, threads := map[], cancelled := false,
              table := if reconciled then Reconciled(s.table, s.now) else s.table))
  }

  // ----- invariant

  /** The thread's row is there, running and bound to its dispatcher, and the number of its
      executions so far is what its phase says. */
  ghost predicate RowKept(s: Node, t: Thread) {
    OwnsRow(t.phase) ==>
      && RowKey(t) in s.table
      && s.table[RowKey(t)].status == Running
      && s.table[RowKey(t)].peer == t.peer && s.table[RowKey(t)].kind == t.task.kind
      && t.task.id in s.runs && s.runs[t.task.id] == (if HasBegun(t.phase) then 1 else 0)
  }

  /** Claims and releases tell whether the slot is held: nothing is released twice, and a
      thread that is through has released what it claimed. */
  ghost predicate Counted(t: Thread) {
    && t.claims <= 1 && t.releases <= t.claims
    && (Holds(t.phase) <==> t.claims == t.releases + 1)
    && (t.phase == Offered || t.phase == Admitted ==> t.claims == 0)
    && (t.phase == Unfinished ==> t.claims == 1)
  }

  /** Two threads never hold the slot together, nor own the same row. */
  ghost predicate Compatible(t: Thread, u: Thread) {
    && !(Holds(t.phase) && Holds(u.phase))
    && !(OwnsRow(t.phase) && OwnsRow(u.phase) && t.task.id == u.task.id)
  }

  ghost predicate SlotTrue(s: Node) {
    s.slot <==> exists h :: h in s.threads && Holds(s.threads[h].phase)
  }

  /** A done row is the result of a finished execution; no row was executed twice. */
  ghost predicate RowHonest(s: Node, k: Key) {
    k in s.table && k.role == Received ==>
      && (s.table[k].status == Done ==>
            exists t: Task :: t.id == k.id && t.kind == s.table[k].kind
                              && Outcome(s.table[k].peer, t, Done, s.table[k].output) in s.outcomes)
      && (s.table[k].status == Done ==> |s.table[k].output| <= MAX_OUTPUT)
      && (s.table[k].status != Done ==> s.table[k].output == [])
      && (k.id in s.runs ==> s.runs[k.id] <= 1)
  }

  ghost predicate Inv(s: Node) {
    && SlotTrue(s)
    && (forall h :: h in s.threads ==> RowKept(s, s.threads[h]) && Counted(s.threads[h]))
    && (forall h, g :: h in s.threads && g in s.threads && h != g ==> Compatible(s.threads[h], s.threads[g]))
    && (forall k :: k in s.table ==> RowHonest(s, k))
    && (forall h :: h in s.threads && s.threads[h].phase.Ran? ==> RanHonest(s, s.threads[h]))
  }

  ghost predicate RanHonest(s: Node, t: Thread)
    requires t.phase.Ran?
  {
    && Terminal(t.phase.status)
    && (t.phase.status == Done ==> Outcome(t.peer, t.task, Done, t.phase.output) in s.outcomes)
  }

  // ----- every step keeps it

  lemma FreshInv(table: Table, acl: iset<Peer>, kinds: set<string>)
    requires forall k :: k in table ==> k.role == Sent
    ensures Inv(Fresh(table, acl, kinds))
  {
  }

  /** The thread of handler h has changed, and no other. */
  ghost predicate OnlyMoved(s: Node, s': Node, h: nat) {
    && h in s.threads && h in s'.threads
    && s'.threads == s.threads[h := s'.threads[h]] && s'.threads[h].task == s.threads[h].task
  }

  /** A slot or a row that h takes was free. */
  ghost predicate TakesFree(s: Node, s': Node, h: nat)
    requires h in s.threads && h in s'.threads
  {
    var (t, t') := (s.threads[h], s'.threads[h]);
    && (Holds(t'.phase) && !Holds(t.phase) ==> !s.slot)
    && (OwnsRow(t'.phase) && !OwnsRow(t.phase) ==>
          forall g :: g in s.threads && g != h && OwnsRow(s.threads[g].phase) ==> s.threads[g].task.id != t.task.id)
  }

  lemma MovedStaysCompatible(s: Node, s': Node, h: nat, g: nat)
    requires Inv(s) && OnlyMoved(s, s', h) && TakesFree(s, s', h) && g in s.threads && g != h
    ensures Compatible(s'.threads[h], s.threads[g]) && Compatible(s.threads[g], s'.threads[h])
  {
    assert Compatible(s.threads[h], s.threads[g]);
  }

  lemma ThreadsStayCompatible(s: Node, s': Node, h: nat)
    requires Inv(s) && OnlyMoved(s, s', h) && TakesFree(s, s', h)
    ensures forall f, g :: f in s'.threads && g in s'.threads && f != g ==> Compatible(s'.threads[f], s'.threads[g])
  {
    forall f, g | f in s'.threads && g in s'.threads && f != g
      ensures Compatible(s'.threads[f], s'.threads[g])
    {
      if f == h {
        MovedStaysCompatible(s, s', h, g);
      } else if g == h {
        MovedStaysCompatible(s, s', h, f);
      } else {
        assert Compatible(s.threads[f], s.threads[g]);
      }
    }
  }

  lemma SlotStaysTrue(s: Node, s': Node, h: nat)
    requires Inv(s) && OnlyMoved(s, s', h)
    requires var (p, p') := (s.threads[h].phase, s'.threads[h].phase);
             s'.slot == if Holds(p) || Holds(p') then Holds(p') else s.slot
    ensures SlotTrue(s')
  {
    if s'.slot && !Holds(s'.threads[h].phase) {
      var g :| g in s.threads && Holds(s.threads[g].phase);
      assert g in s'.threads && s'.threads[g] == s.threads[g];
    } else if !s'.slot {
      forall g | g in s'.threads
        ensures !Holds(s'.threads[g].phase)
      {
        assert g != h ==> Compatible(s.threads[h], s.threads[g]);
      }
    }
  }

  /** What is left to show for a step of thread h: its own row and counts, the other threads'
      rows, and the slot. */
  lemma Reassemble(s: Node, s': Node, h: nat)
    requires Inv(s) && OnlyMoved(s, s', h) && TakesFree(s, s', h) && s.outcomes <= s'.outcomes
    requires forall g :: g in s.threads && g != h ==> RowKept(s', s.threads[g])
    requires RowKept(s', s'.threads[h]) && Counted(s'.threads[h])
    requires s'.threads[h].phase.Ran? ==> RanHonest(s', s'.threads[h])
    requires var (p, p') := (s.threads[h].phase, s'.threads[h].phase);
             s'.slot == if Holds(p) || Holds(p') then Holds(p') else s.slot
    requires forall k :: k in s'.table ==> RowHonest(s', k)
    ensures Inv(s')
  {
    ThreadsStayCompatible(s, s', h);
    SlotStaysTrue(s, s', h);
  }

  /** Settling a thread's own row leaves every other owned row alone. */
  lemma OthersKeepRows(s: Node, s': Node, h: nat)
    requires Inv(s) && h in s.threads && OwnsRow(s.threads[h].phase)
    requires s'.runs == s.runs
    requires forall k :: k in s.table && k != RowKey(s.threads[h]) ==> k in s'.table && s'.table[k] == s.table[k]
    ensures forall g :: g in s.threads && g != h ==> RowKept(s', s.threads[g])
  {
    forall g | g in s.threads && g != h
      ensures RowKept(s', s.threads[g])
    {
      assert Compatible(s.threads[g], s.threads[h]) && RowKept(s, s.threads[g]);
    }
  }

  lemma PruneKeeps(s: Node, cutoff: int)
    requires Inv(s)
    ensures var s' := s.(table := Pruned(s.table, cutoff));
            && (forall g :: g in s.threads ==> RowKept(s', s.threads[g]))
            && (forall k :: k in s'.table ==> RowHonest(s', k))
  {
    var s' := s.(table := Pruned(s.table, cutoff));
    forall g | g in s.threads
      ensures RowKept(s', s.threads[g])
    {
      assert RowKept(s, s.threads[g]);
    }
    forall k | k in s'.table
      ensures RowHonest(s', k)
    {
      assert RowHonest(s, k);
    }
  }

  lemma SettledHonest(s: Node, s': Node, k: Key, status: TaskStatus, output: bytes, error: string)
    requires RowHonest(s, k) && k in s.table && s'.runs == s.runs && s'.outcomes == s.outcomes
    requires s'.table == s.table[k := Settled(s.table[k], status, output, error, s.now)]
    requires k.role == Received && status == Done ==>
               exists t: Task :: t.id == k.id && t.kind == s.table[k].kind
                                 && Outcome(s.table[k].peer, t, Done, output) in s.outcomes
    ensures RowHonest(s', k)
  {
  }

  lemma SettleKeepsInv(s: Node, s': Node, h: nat, status: TaskStatus, output: bytes, error: string, p: Phase)
    requires Inv(s) && h in s.threads && OwnsRow(s.threads[h].phase) && !OwnsRow(p)
    requires Holds(s.threads[h].phase) <==> Holds(p)
    requires p == Stored || p == Closed
    requires status == Done ==> Outcome(s.threads[h].peer, s.threads[h].task, Done, output) in s.outcomes
    requires s' == To(s, h, p) || s' == To(s, h, p).(
                     table := s.table[RowKey(s.threads[h]) :=
                                        Settled(s.table[RowKey(s.threads[h])], status, output, error, s.now)])
    ensures Inv(s')
  {
    var t := s.threads[h];
    var key := RowKey(t);
    assert RowKept(s, t) && Counted(t);
    OthersKeepRows(s, s', h);
    forall k | k in s'.table
      ensures RowHonest(s', k)
    {
      assert RowHonest(s, k);
      if k == key && s'.table != s.table {
        SettledHonest(s, s', k, status, output, error);
      }
    }
    Reassemble(s, s', h);
  }

  predicate Settles(a: Action) {
    a.FinishLost? || a.Store?
  }

  lemma SettlingKeepsInv(s: Node, a: Action, s': Node)
    requires Inv(s) && Step(s, a) == Some(s') && Settles(a)
    ensures Inv(s')
  {
    var t := s.threads[a.h];
    assert RowKept(s, t);
    match a
    case FinishLost(h, ok) => SettleKeepsInv(s, s', h, Failed, [], "verdict not delivered", Closed);
    case Store(h, ok) =>
      assert RanHonest(s, t);
      SettleKeepsInv(s, s', h, t.phase.status, t.phase.output, t.phase.error, Stored);
  }

  /** Steps that move one thread along and touch neither the table nor the run counts. */
  predicate MovesOne(a: Action) {
    a.Admit? || a.Refuse? || a.Claim? || a.ReleaseUnrecorded? || a.DeliverVerdict? || a.LoseVerdict? || a.ReleaseLost?
    || a.RunEnds? || a.ReleaseRun?
  }

  lemma TableSame(s: Node, s': Node)
    requires Inv(s) && s'.table == s.table && s'.runs == s.runs && s.outcomes <= s'.outcomes
    ensures forall g :: g in s.threads ==> RowKept(s', s.threads[g])
    ensures forall k :: k in s'.table ==> RowHonest(s', k)
  {
    forall g | g in s.threads
      ensures RowKept(s', s.threads[g])
    {
      assert RowKept(s, s.threads[g]);
    }
    forall k | k in s'.table
      ensures RowHonest(s', k)
    {
      assert RowHonest(s, k);
    }
  }

  lemma MovingKeepsInv(s: Node, a: Action, s': Node)
    requires Inv(s) && Step(s, a) == Some(s') && MovesOne(a)
    ensures Inv(s')
  {
    TableSame(s, s');
    assert RowKept(s, s.threads[a.h]) && Counted(s.threads[a.h]);
    if a.Claim? || a.ReleaseUnrecorded? || a.ReleaseLost? || a.ReleaseRun? {
      SlotMoves(s, a, s');
    } else {
      PhaseMoves(s, a, s');
    }
    Reassemble(s, s', a.h);
  }

  /** The part of a step that concerns the thread it moves. */
  ghost predicate MovedWell(s: Node, s': Node, h: nat) {
    && h in s.threads && h in s'.threads && s'.threads == s.threads[h := s'.threads[h]]
    && var (t, t') := (s.threads[h], s'.threads[h]);
       && t'.task == t.task && RowKept(s', t') && Counted(t') && (t'.phase.Ran? ==> RanHonest(s', t'))
       && (OwnsRow(t'.phase) ==> OwnsRow(t.phase)) && (Holds(t'.phase) && !Holds(t.phase) ==> !s.slot)
       && s'.slot == if Holds(t.phase) || Holds(t'.phase) then Holds(t'.phase) else s.slot
  }

  lemma SlotMoves(s: Node, a: Action, s': Node)
    requires Step(s, a) == Some(s') && (a.Claim? || a.ReleaseUnrecorded? || a.ReleaseLost? || a.ReleaseRun?)
    requires RowKept(s, s.threads[a.h]) && Counted(s.threads[a.h])
    ensures MovedWell(s, s', a.h)
  {
  }

  lemma PhaseMoves(s: Node, a: Action, s': Node)
    requires SlotTrue(s) && Step(s, a) == Some(s')
    requires a.Admit? || a.Refuse? || a.DeliverVerdict? || a.LoseVerdict? || a.RunEnds?
    requires RowKept(s, s.threads[a.h]) && Counted(s.threads[a.h])
    ensures MovedWell(s, s', a.h)
  {
  }

  /** The row that is inserted was nobody's. */
  lemma RecordLeavesOthers(s: Node, a: Action, s': Node, g: nat)
    requires Inv(s) && Step(s, a) == Some(s') && a.Record? && g in s.threads && g != a.h
    ensures RowKept(s', s.threads[g])
    ensures s'.table != s.table && OwnsRow(s.threads[g].phase) ==> s.threads[g].task.id != s.threads[a.h].task.id
  {
    assert RowKept(s, s.threads[g]);
  }

  lemma RecordHonest(s: Node, a: Action, s': Node, k: Key)
    requires Inv(s) && Step(s, a) == Some(s') && a.Record? && k in s'.table
    ensures RowHonest(s', k)
  {
    assert k in s.table ==> RowHonest(s, k);
  }

  lemma RecordMoves(s: Node, a: Action, s': Node)
    requires Step(s, a) == Some(s') && a.Record? && Counted(s.threads[a.h])
    ensures OnlyMoved(s, s', a.h) && RowKept(s', s'.threads[a.h]) && Counted(s'.threads[a.h])
    ensures s'.threads[a.h].phase == NotRecorded || (s'.threads[a.h].phase == Recorded && s'.table != s.table)
    ensures s.threads[a.h].phase == Claimed && s'.outcomes == s.outcomes && s'.slot == s.slot
  {
    if s'.threads[a.h].phase == Recorded {
      assert RowKey(s.threads[a.h]) in s'.table && RowKey(s.threads[a.h]) !in s.table;
    }
  }

  lemma RecordKeepsInv(s: Node, a: Action, s': Node)
    requires Inv(s) && Step(s, a) == Some(s') && a.Record?
    ensures Inv(s')
  {
    assert Counted(s.threads[a.h]);
    RecordMoves(s, a, s');
    forall g | g in s.threads && g != a.h
      ensures RowKept(s', s.threads[g])
      ensures s'.table != s.table && OwnsRow(s.threads[g].phase) ==> s.threads[g].task.id != s.threads[a.h].task.id
    {
      RecordLeavesOthers(s, a, s', g);
    }
    forall k | k in s'.table
      ensures RowHonest(s', k)
    {
      RecordHonest(s, a, s', k);
    }
    assert Holds(s.threads[a.h].phase) && s.slot;
    Reassemble(s, s', a.h);
  }

  lemma PruneStepKeepsInv(s: Node, a: Action, s': Node)
    requires Inv(s) && Step(s, a) == Some(s') && a.Prune?
    ensures Inv(s')
  {
    assert RowKept(s, s.threads[a.h]) && Counted(s.threads[a.h]);
    PruneKeeps(s, a.cutoff);
    forall g | g in s.threads
      ensures RowKept(s', s.threads[g])
    {
      assert RowKept(s, s.threads[g]);
    }
    forall k | k in s'.table
      ensures RowHonest(s', k)
    {
      assert RowHonest(s, k);
    }
    Reassemble(s, s', a.h);
  }

  lemma ExecuteKeepsInv(s: Node, a: Action, s': Node)
    requires Inv(s) && Step(s, a) == Some(s') && a.Execute?
    ensures Inv(s')
  {
    var h, t := a.h, s.threads[a.h];
    assert RowKept(s, t) && Counted(t);
    forall g | g in s.threads && g != h
      ensures RowKept(s', s.threads[g])
    {
      assert RowKept(s, s.threads[g]) && Compatible(s.threads[g], t);
    }
    forall k | k in s'.table
      ensures RowHonest(s', k)
    {
      assert RowHonest(s, k);
    }
    Reassemble(s, s', h);
  }

  predicate OfSent(a: Action) {
    a.RecordSent? || a.FinishSent?
  }

  lemma SentKeepsRows(s: Node, s': Node, id: string)
    requires Inv(s) && s'.runs == s.runs && s'.outcomes == s.outcomes
    requires forall k :: k in s'.table && k != Key(id, Sent) ==> k in s.table && s'.table[k] == s.table[k]
    requires s.table.Keys <= s'.table.Keys
    ensures forall g :: g in s.threads ==> RowKept(s', s.threads[g])
    ensures forall k :: k in s'.table ==> RowHonest(s', k)
  {
    forall g | g in s.threads
      ensures RowKept(s', s.threads[g])
    {
      assert RowKept(s, s.threads[g]);
    }
    forall k | k in s'.table
      ensures RowHonest(s', k)
    {
      assert k in s.table ==> RowHonest(s, k);
    }
  }

  lemma SameThreads(s: Node, s': Node)
    requires Inv(s) && s'.threads == s.threads && s'.slot == s.slot && s'.outcomes == s.outcomes
    requires forall g :: g in s.threads ==> RowKept(s', s.threads[g])
    requires forall k :: k in s'.table ==> RowHonest(s', k)
    ensures Inv(s')
  {
  }

  lemma SentKeepsInv(s: Node, a: Action, s': Node)
    requires Inv(s) && Step(s, a) == Some(s') && OfSent(a)
    ensures Inv(s')
  {
    SentKeepsRows(s, s', a.id);
    SameThreads(s, s');
  }

  lemma RestartKeepsInv(s: Node, a: Action, s': Node)
    requires Inv(s) && Step(s, a) == Some(s') && a.Restart?
    ensures Inv(s')
  {
    forall k | k in s'.table
      ensures RowHonest(s', k)
    {
      assert RowHonest(s, k);
    }
  }

  lemma ArriveSlot(s: Node, a: Action, s': Node)
    requires SlotTrue(s) && Step(s, a) == Some(s') && a.Arrive?
    ensures SlotTrue(s')
  {
    if s'.slot {
      var g :| g in s.threads && Holds(s.threads[g].phase);
      assert g in s'.threads && s'.threads[g] == s.threads[g];
    }
  }

  lemma ArriveKeepsInv(s: Node, a: Action, s': Node)
    requires Inv(s) && Step(s, a) == Some(s') && a.Arrive?
    ensures Inv(s')
  {
    TableSame(s, s');
    ArriveSlot(s, a, s');
    forall g | g in s.threads
      ensures Compatible(s'.threads[a.h], s.threads[g]) && Compatible(s.threads[g], s'.threads[a.h])
    {
    }
  }

  /** Steps that leave threads and table alone. */
  predicate Bystands(a: Action) {
    a.SetTrust? || a.Tick? || a.Cancel?
  }

  lemma BystandingKeepsInv(s: Node, a: Action, s': Node)
    requires Inv(s) && Step(s, a) == Some(s') && Bystands(a)
    ensures Inv(s')
  {
    TableSame(s, s');
    SameThreads(s, s');
  }

  /** Whatever the interleaving and whatever fails, a step keeps the invariant. */
  lemma StepKeepsInv(s: Node, a: Action, s': Node)
    requires Inv(s) && Step(s, a) == Some(s')
    ensures Inv(s')
  {
    if MovesOne(a) {
      MovingKeepsInv(s, a, s');
    } else if Settles(a) {
      SettlingKeepsInv(s, a, s');
    } else if OfSent(a) {
      SentKeepsInv(s, a, s');
    } else if Bystands(a) {
      BystandingKeepsInv(s, a, s');
    } else if a.Arrive? {
      ArriveKeepsInv(s, a, s');
    } else if a.Record? {
      RecordKeepsInv(s, a, s');
    } else if a.Prune? {
      PruneStepKeepsInv(s, a, s');
    } else if a.Execute? {
      ExecuteKeepsInv(s, a, s');
    } else {
      RestartKeepsInv(s, a, s');
    }
  }

  // ----- what the invariant says

  /** At most one execution at a time, under a slot that is busy exactly when one thread holds
      it; a thread that is through has released as often as it claimed. */
  lemma SlotSafety(s: Node)
    requires Inv(s)
    ensures forall h, g | h in s.threads && g in s.threads && Holds(s.threads[h].phase) && Holds(s.threads[g].phase) ::
              h == g
    ensures forall h, g :: InPhase(s, h, Executing) && InPhase(s, g, Executing) ==> h == g
    ensures s.slot <==> exists h :: h in s.threads && Holds(s.threads[h].phase)
    ensures forall h :: InPhase(s, h, Closed) ==> s.threads[h].claims == s.threads[h].releases <= 1
    ensures s.slot <==> exists h :: h in s.threads && s.threads[h].claims > s.threads[h].releases
  {
    forall h, g | h in s.threads && g in s.threads && Holds(s.threads[h].phase) && Holds(s.threads[g].phase)
      ensures h == g
    {
      assert h != g ==> Compatible(s.threads[h], s.threads[g]);
    }
    forall h | h in s.threads
      ensures Holds(s.threads[h].phase) <==> s.threads[h].claims > s.threads[h].releases
    {
      assert Counted(s.threads[h]);
    }
    forall h | InPhase(s, h, Closed)
      ensures s.threads[h].claims == s.threads[h].releases <= 1
    {
      assert Counted(s.threads[h]);
    }
  }

  /** An accept only ever goes out for a row that is there, running and the dispatcher's. */
  lemma AcceptHasRow(s: Node, h: nat)
    requires Inv(s) && InPhase(s, h, Recorded)
    ensures var t := s.threads[h];
            ReceivedFor(s.table, t.task.id, t.peer).Some?
            && ReceivedFor(s.table, t.task.id, t.peer).value.status == Running
  {
    assert RowKept(s, s.threads[h]);
  }

  /** What one step can do to a received row: nothing, settle it once, or prune it once it is
      settled. */
  ghost predicate RowMoves(t: Table, t': Table, k: Key) {
    k in t && k.role == Received ==>
      if Terminal(t[k].status) then k in t' ==> t'[k] == t[k]
      else
        && k in t' && t'[k].peer == t[k].peer && t'[k].kind == t[k].kind && t'[k].startedAt == t[k].startedAt
        && (t'[k] == t[k] || Terminal(t'[k].status))
  }

  lemma RowLifecycle(s: Node, a: Action, s': Node, k: Key)
    requires Inv(s) && Step(s, a) == Some(s')
    ensures RowMoves(s.table, s'.table, k)
  {
    if Settles(a) {
      SettlingMovesRow(s, a, s', k);
    } else if MovesOne(a) || Bystands(a) {
      TableUntouched(s, a, s');
    } else {
      OtherMovesRow(s, a, s', k);
    }
  }

  lemma TableUntouched(s: Node, a: Action, s': Node)
    requires Step(s, a) == Some(s') && (MovesOne(a) || Bystands(a))
    ensures s'.table == s.table
  {
  }

  lemma SettlingMovesRow(s: Node, a: Action, s': Node, k: Key)
    requires Inv(s) && Step(s, a) == Some(s') && Settles(a)
    ensures RowMoves(s.table, s'.table, k)
  {
    assert RowKept(s, s.threads[a.h]);
    if a.Store? {
      assert RanHonest(s, s.threads[a.h]);
    }
  }

  lemma OtherMovesRow(s: Node, a: Action, s': Node, k: Key)
    requires Step(s, a) == Some(s') && !Settles(a) && !MovesOne(a) && !Bystands(a)
    ensures RowMoves(s.table, s'.table, k)
  {
  }

  /** A restart whose reconcile succeeds leaves no row running, in either role. */
  lemma RestartSettlesAll(s: Node, s': Node)
    requires Step(s, Restart(true)) == Some(s')
    ensures s'.threads == map[] && !s'.slot && !s'.cancelled
    ensures s'.table.Keys == s.table.Keys && forall k :: k in s'.table ==> Terminal(s'.table[k].status)
    ensures forall k :: k in s.table && Terminal(s.table[k].status) ==> s'.table[k] == s.table[k]
  {
  }

  // ----- nothing leaks

  /** How many of its own steps a thread is at most away from being through. */
  function StepsLeft(p: Phase): nat {
    match p
    case Offered => 10
    case Admitted => 9
    case Claimed => 8
    case NotRecorded => 1
    case Recorded => 7
    case Undelivered => 2
    case Unfinished => 1
    case Delivered => 6
    case Spawned => 5
    case Executing => 4
    case Ran(_, _, _) => 3
    case Stored => 2
    case Closed => 0
  }

  predicate OwnStep(a: Action, h: nat) {
    match a
    case Admit(g) => g == h
    case Refuse(g) => g == h
    case Claim(g) => g == h
    case Record(g, _) => g == h
    case ReleaseUnrecorded(g) => g == h
    case DeliverVerdict(g) => g == h
    case LoseVerdict(g) => g == h
    case ReleaseLost(g) => g == h
    case FinishLost(g, _) => g == h
    case Prune(g, _, _) => g == h
    case Execute(g) => g == h
    case RunEnds(g, _) => g == h
    case Store(g, _) => g == h
    case ReleaseRun(g) => g == h
    case _ => false
  }

  /** A thread that is not through can always take its next step, whatever the others do. */
  lemma NeverStuck(s: Node, h: nat)
    requires h in s.threads && s.threads[h].phase != Closed
    ensures exists a :: OwnStep(a, h) && Step(s, a).Some?
  {
    var p := s.threads[h].phase;
    var a := match p
             case Offered => if AdmitsThread(s, s.threads[h]) then Admit(h) else Refuse(h)
             case Admitted => if s.slot then Refuse(h) else Claim(h)
             case Claimed => Record(h, true)
             case NotRecorded => ReleaseUnrecorded(h)
             case Recorded => DeliverVerdict(h)
             case Undelivered => ReleaseLost(h)
             case Unfinished => FinishLost(h, true)
             case Delivered => Prune(h, 0, true)
             case Spawned => Execute(h)
             case Executing => RunEnds(h, Ok([]))
             case Ran(_, _, _) => Store(h, true)
             case _ => ReleaseRun(h);
    assert OwnStep(a, h) && Step(s, a).Some?;
  }

  /** Every own step brings it nearer the end, so each claim is released after at most eight
      steps of its owner. */
  lemma OwnStepsRunOut(s: Node, a: Action, s': Node, h: nat)
    requires Step(s, a) == Some(s') && OwnStep(a, h)
    ensures h in s.threads && h in s'.threads
    ensures StepsLeft(s'.threads[h].phase) < StepsLeft(s.threads[h].phase)
  {
  }

  /** Nobody else's step moves it. */
  lemma OthersLeaveAlone(s: Node, a: Action, s': Node, h: nat)
    requires Step(s, a) == Some(s') && h in s.threads && !OwnStep(a, h) && !a.Restart?
    ensures h in s'.threads && s'.threads[h] == s.threads[h]
  {
  }

  // ----- whole runs

  ghost predicate Next(s: Node, s': Node) {
    exists a :: Step(s, a) == Some(s')
  }

  ghost predicate NodeRun(run: seq<Node>) {
    && run != [] && Inv(run[0])
    && forall k :: 0 < k < |run| ==> Next(run[k - 1], run[k])
  }

  lemma {:induction false} RunInv(run: seq<Node>)
    requires NodeRun(run)
    ensures Inv(run[|run| - 1])
  {
    var n := |run| - 1;
    if n > 0 {
      RunInv(run[..n]);
      assert Next(run[n - 1], run[n]);
      var a :| Step(run[n - 1], a) == Some(run[n]);
      StepKeepsInv(run[n - 1], a, run[n]);
    }
  }

  lemma SettledStays(s: Node, s': Node, k: Key)
    requires Inv(s) && Next(s, s') && k.role == Received && k in s.table && k in s'.table
    requires Terminal(s.table[k].status)
    ensures s'.table[k] == s.table[k]
  {
    var a :| Step(s, a) == Some(s');
    RowLifecycle(s, a, s', k);
  }

  /** Over any run with handlers, failures, prunes and restarts: once settled, a received row
      stays as it is for as long as it is kept. */
  lemma {:induction false} SettledForGood(run: seq<Node>, k: Key)
    requires NodeRun(run) && k.role == Received
    requires forall i :: 0 <= i < |run| ==> k in run[i].table
    requires Terminal(run[0].table[k].status)
    ensures run[|run| - 1].table[k] == run[0].table[k]
  {
    var n := |run| - 1;
    if n > 0 {
      SettledForGood(run[..n], k);
      RunInv(run[..n]);
      assert Next(run[n - 1], run[n]);
      SettledStays(run[n - 1], run[n], k);
    }
  }

  /** However often a task is offered, and through restarts: while its row is there it has been
      executed at most once since the row was inserted. */
  lemma ExecutedOnce(run: seq<Node>, id: string)
    requires NodeRun(run) && Key(id, Received) in run[|run| - 1].table
    ensures id in run[|run| - 1].runs ==> run[|run| - 1].runs[id] <= 1
  {
    RunInv(run);
    assert RowHonest(run[|run| - 1], Key(id, Received));
  }

  // ----- who gets in

  /** Some state of the run would have admitted this task from this peer. */
  ghost predicate LetIn(run: seq<Node>, peer: Peer, task: Task) {
    exists k :: 0 <= k < |run| && peer in run[k].acl && task.kind in run[k].kinds
  }

  predicate PastPolicy(t: Thread) {
    t.phase != Offered && t.phase != Closed
  }

  lemma PastPolicyOwn(s: Node, a: Action, s': Node, h: nat)
    requires Step(s, a) == Some(s') && OwnStep(a, h)
    ensures h in s.threads && h in s'.threads
    ensures s.threads[h].peer == s'.threads[h].peer && s.threads[h].task == s'.threads[h].task
    ensures PastPolicy(s'.threads[h]) ==> PastPolicy(s.threads[h]) || AdmitsThread(s, s.threads[h])
  {
  }

  lemma NewThread(s: Node, a: Action, s': Node, h: nat)
    requires Step(s, a) == Some(s') && h in s'.threads && (h !in s.threads || a.Restart?)
    ensures s'.threads[h].phase == Offered
  {
  }

  /** A thread past the policy was already, as it is, or has just been admitted. */
  lemma PastPolicyFrom(s: Node, a: Action, s': Node, h: nat)
    requires Step(s, a) == Some(s') && h in s'.threads && PastPolicy(s'.threads[h])
    ensures h in s.threads && s.threads[h].peer == s'.threads[h].peer && s.threads[h].task == s'.threads[h].task
    ensures PastPolicy(s.threads[h]) || AdmitsThread(s, s.threads[h])
  {
    if OwnStep(a, h) {
      PastPolicyOwn(s, a, s', h);
    } else if h !in s.threads || a.Restart? {
      NewThread(s, a, s', h);
    } else {
      OthersLeaveAlone(s, a, s', h);
    }
  }

  lemma OutcomeOfThread(s: Node, a: Action, s': Node, o: Outcome)
    requires Step(s, a) == Some(s') && o in s'.outcomes && o !in s.outcomes
    ensures a.RunEnds? && a.h in s.threads && PastPolicy(s.threads[a.h])
    ensures o.peer == s.threads[a.h].peer && o.task == s.threads[a.h].task
  {
  }

  lemma NextPastPolicy(s: Node, s': Node, h: nat)
    requires Next(s, s') && h in s'.threads && PastPolicy(s'.threads[h])
    ensures h in s.threads && s.threads[h].peer == s'.threads[h].peer && s.threads[h].task == s'.threads[h].task
    ensures PastPolicy(s.threads[h]) || (s.threads[h].peer in s.acl && s.threads[h].task.kind in s.kinds)
  {
    var a :| Step(s, a) == Some(s');
    PastPolicyFrom(s, a, s', h);
  }

  lemma NextOutcome(s: Node, s': Node, o: Outcome) returns (h: nat)
    requires Next(s, s') && o in s'.outcomes && o !in s.outcomes
    ensures h in s.threads && PastPolicy(s.threads[h]) && o.peer == s.threads[h].peer && o.task == s.threads[h].task
  {
    var a :| Step(s, a) == Some(s');
    OutcomeOfThread(s, a, s', o);
    h := a.h;
  }

  lemma StillLetIn(run: seq<Node>, n: nat, peer: Peer, task: Task)
    requires n <= |run| && LetIn(run[..n], peer, task)
    ensures LetIn(run, peer, task)
  {
    var k :| 0 <= k < n && peer in run[..n][k].acl && task.kind in run[..n][k].kinds;
    assert run[k] == run[..n][k];
  }

  /** Nothing claims the slot, is recorded or is executed here unless the access list held its
      dispatcher at the moment it was read. A change of the list in between, up to the claim or
      during the run, neither lets anything in nor stops what was let in. */
  lemma {:induction false} WorkWasLetIn(run: seq<Node>, h: nat)
    requires NodeRun(run) && run[0].threads == map[]
    requires h in run[|run| - 1].threads && PastPolicy(run[|run| - 1].threads[h])
    ensures LetIn(run, run[|run| - 1].threads[h].peer, run[|run| - 1].threads[h].task)
  {
    var n := |run| - 1;
    NextPastPolicy(run[n - 1], run[n], h);
    if PastPolicy(run[n - 1].threads[h]) {
      WorkWasLetIn(run[..n], h);
      StillLetIn(run, n, run[n].threads[h].peer, run[n].threads[h].task);
    } else {
      assert run[n].threads[h].peer in run[n - 1].acl;
    }
  }

  lemma {:induction false} ExecutedWasLetIn(run: seq<Node>, o: Outcome)
    requires NodeRun(run) && run[0].threads == map[] && run[0].outcomes == {}
    requires o in run[|run| - 1].outcomes
    ensures LetIn(run, o.peer, o.task)
  {
    var n := |run| - 1;
    if o in run[n - 1].outcomes {
      ExecutedWasLetIn(run[..n], o);
    } else {
      var h := NextOutcome(run[n - 1], run[n], o);
      WorkWasLetIn(run[..n], h);
    }
    StillLetIn(run, n, o.peer, o.task);
  }
}
