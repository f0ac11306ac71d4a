/** The task handler as one connection goes through it: read the offer, ask the policy, claim the
    slot, record the row, answer, and later run and store. What it does to slot and table is then
    shown to be what a sequence of the node system's steps does, so that everything proved there
    of every interleaving is about this code. */
module TaskHost {
  import opened Bytes
  import Output
  import opened Stream
  import opened TaskNode
  import opened TaskStore
  import opened Wire
  import opened Wrappers

  const TASK_RETENTION := 7 * 24 * 3600
  const NOT_DELIVERED := "verdict not delivered"

  datatype TaskFault = EmptyId | MalformedId | EmptyKind | NegativeCores | NegativeMemory

  /** Task.Validate: the first thing wrong with an offer. */
  function Validate(t: Task, isUuid: string -> bool): Option<TaskFault> {
    if t.id == "" then Some(EmptyId)
    else if !isUuid(t.id) then Some(MalformedId)
    else if t.kind == "" then Some(EmptyKind)
    else if t.cpuCores < 0 then Some(NegativeCores)
    else if t.memoryMB < 0 then Some(NegativeMemory)
    else None
  }

  /** An offer that is taken up. */
  predicate WellFormed(t: Task, isUuid: string -> bool) {
    t.id != "" && isUuid(t.id) && t.kind != "" && t.cpuCores >= 0 && t.memoryMB >= 0
  }

  /** What is wrong with the offer, nothing before it in this order being wrong. */
  predicate FirstFault(t: Task, isUuid: string -> bool, f: TaskFault) {
    match f
    case EmptyId => t.id == ""
    case MalformedId => t.id != "" && !isUuid(t.id)
    case EmptyKind => t.id != "" && isUuid(t.id) && t.kind == ""
    case NegativeCores => t.id != "" && isUuid(t.id) && t.kind != "" && t.cpuCores < 0
    case NegativeMemory => t.id != "" && isUuid(t.id) && t.kind != "" && t.cpuCores >= 0 && t.memoryMB < 0
  }

  lemma ValidateIs(t: Task, isUuid: string -> bool)
    ensures Validate(t, isUuid).None? <==> WellFormed(t, isUuid)
    ensures Validate(t, isUuid).Some? ==> FirstFault(t, isUuid, Validate(t, isUuid).value)
  {
  }

  datatype Reason =
    | OtherVersion(got: byte)
    | BadTask(fault: TaskFault)
    | NotAccepting
    | CannotRun(kind: string)
    | CannotRecord
    | AlreadyRunning

  datatype HandlerError =
    | Unread(error: WireError)
    | Declined(reason: Reason)
    | NoVerdict

  /** The verdict a connection has taken, as far as it had room. */
  ghost predicate Answered(written: bytes, before: bytes, v: Verdict, room: nat) {
    written == before + PrintVerdict(v)[..Min(|PrintVerdict(v)|, room)]
  }

  // ----- what a handler does to the node

  /** The ways an offer can go once it has been read and is valid. */
  datatype Course =
    | TurnedAway                                         // by the policy, or because the slot is taken
    | InsertFailed(at: int)                              // claimed, not recorded, released
    | AcceptLost(at: int, later: int, stored: bool)      // recorded, accept lost, released, marked failed
    | TakenOn(at: int, later: int, pruned: bool)         // recorded, accept sent, old rows pruned

  /** The row as inserted. */
  function Inserted(table: Table, peer: Peer, t: Task, at: int): Table {
    table[Key(t.id, Received) := Row(peer, t.kind, Running, [], "", at, None)]
  }

  function MarkedLost(table: Table, t: Task, later: int, stored: bool): Table {
    var key := Key(t.id, Received);
    if stored then OrElse(FinishedTable(table, key, Failed, [], NOT_DELIVERED, later), table) else table
  }

  function Trimmed(table: Table, later: int, pruned: bool): Table {
    if pruned then Pruned(table, later - TASK_RETENTION) else table
  }

  /** An accept prunes settled rows that started more than seven days before, and no others. */
  ghost predicate KeepsRecent(before: Table, after: Table, c: Course)
    requires c.TakenOn?
  {
    forall k :: k in before ==>
      if c.pruned && before[k].status != Running && before[k].startedAt < c.later - 7 * 86400 then k !in after
      else k in after && after[k] == before[k]
  }

  lemma TrimmedRecent(before: Table, c: Course, t: Task, peer: Peer)
    requires c.TakenOn? && Key(t.id, Received) !in before
    ensures KeepsRecent(before, TableAfter(c, t, peer, before), c)
  {
  }

  /** When a course is open. */
  predicate Open(c: Course, t: Task, admits: bool, busy: bool, table: Table) {
    if c.TurnedAway? then !admits || busy
    else admits && !busy && (c.InsertFailed? || Key(t.id, Received) !in table)
  }

  /** Slot and table afterwards. */
  function SlotAfter(c: Course, busy: bool): bool {
    if c.TurnedAway? then busy else c.TakenOn?
  }

  function TableAfter(c: Course, t: Task, peer: Peer, table: Table): Table {
    match c
    case TurnedAway => table
    case InsertFailed(_) => table
    case AcceptLost(at, later, stored) => MarkedLost(Inserted(table, peer, t, at), t, later, stored)
    case TakenOn(at, later, pruned) => Trimmed(Inserted(table, peer, t, at), later, pruned)
  }

  /** Claim and insert or not, and what follows. */
  function Tail(c: Course, h: nat): seq<Action> {
    match c
    case TurnedAway => [Refuse(h)] + []
    case InsertFailed(_) => [Record(h, false)] + ([ReleaseUnrecorded(h)] + [])
    case AcceptLost(_, later, stored) =>
      [Record(h, true)] + ([LoseVerdict(h)] + ([ReleaseLost(h)] + ([Tick(later)] + ([FinishLost(h, stored)] + []))))
    case TakenOn(_, later, pruned) =>
      [Record(h, true)] + ([DeliverVerdict(h)] + ([Tick(later)]
      + ([TaskNode.Prune(h, later - TASK_RETENTION, pruned)] + [])))
  }

  function Actions(c: Course, h: nat, peer: Peer, t: Task, admitted: bool): seq<Action> {
    [Arrive(h, peer, t)]
    + if !admitted then Tail(c, h)
      else [Admit(h)] + if c.TurnedAway? then Tail(c, h) else [Claim(h)] + ([Tick(c.at)] + Tail(c, h))
  }

  function PhaseAfter(c: Course): Phase {
    if c.TakenOn? then Spawned else Phase.Closed
  }

  ghost function Exec(s: Node, acts: seq<Action>): Option<Node>
    decreases |acts|
  {
    if acts == [] then Some(s)
    else
      match Step(s, acts[0])
      case None => None
      case Some(t) => Exec(t, acts[1..])
  }

  lemma {:induction false} ExecKeepsInv(s: Node, acts: seq<Action>)
    requires Inv(s) && Exec(s, acts).Some?
    ensures Inv(Exec(s, acts).value)
    decreases |acts|
  {
    if acts != [] {
      StepKeepsInv(s, acts[0], Step(s, acts[0]).value);
      ExecKeepsInv(Step(s, acts[0]).value, acts[1..]);
    }
  }

  lemma OneStep(s: Node, a: Action, acts: seq<Action>, s': Node)
    requires Step(s, a) == Some(s')
    ensures Exec(s, [a] + acts) == Exec(s', acts)
  {
    assert ([a] + acts)[1..] == acts;
  }

  /** Node s with handler h at the given point and the given slot, time and table. */
  ghost function With(s: Node, h: nat, th: Thread, slot: bool, now: int, table: Table, runs: map<string, nat>): Node {
    s.(slot := slot, now := now, table := table, runs := runs, threads := s.threads[h := th])
  }

  lemma Overwrite(s: Node, h: nat, x: Thread, y: Thread)
    ensures s.threads[h := x][h := y] == s.threads[h := y]
  {
  }

  lemma AdmitSteps(s: Node, h: nat, peer: Peer, t: Task, acts: seq<Action>)
    requires h !in s.threads && Admits(s, peer, t)
    ensures Exec(s, [Arrive(h, peer, t)] + ([Admit(h)] + acts))
            == Exec(With(s, h, Thread(peer, t, Admitted, 0, 0), s.slot, s.now, s.table, s.runs), acts)
  {
    var s1 := With(s, h, Thread(peer, t, Offered, 0, 0), s.slot, s.now, s.table, s.runs);
    var s2 := With(s, h, Thread(peer, t, Admitted, 0, 0), s.slot, s.now, s.table, s.runs);
    Overwrite(s, h, Thread(peer, t, Offered, 0, 0), Thread(peer, t, Admitted, 0, 0));
    OneStep(s, Arrive(h, peer, t), [Admit(h)] + acts, s1);
    OneStep(s1, Admit(h), acts, s2);
  }

  lemma ClaimSteps(s: Node, h: nat, peer: Peer, t: Task, at: int, acts: seq<Action>)
    ensures Exec(With(s, h, Thread(peer, t, Admitted, 0, 0), false, s.now, s.table, s.runs),
                 [Claim(h)] + ([Tick(at)] + acts))
            == Exec(With(s, h, Thread(peer, t, Claimed, 1, 0), true, at, s.table, s.runs), acts)
  {
    var (x, y) := (Thread(peer, t, Admitted, 0, 0), Thread(peer, t, Claimed, 1, 0));
    MoveStep(s, h, x, y, false, true, s.now, s.table, s.table, s.runs, Claim(h), [Tick(at)] + acts);
    TickStep(s, h, y, true, s.now, at, s.table, s.runs, acts);
  }

  /** From the claim to the recorded row. */
  lemma RecordStep(s: Node, h: nat, peer: Peer, t: Task, at: int, acts: seq<Action>)
    requires Key(t.id, Received) !in s.table
    ensures Exec(With(s, h, Thread(peer, t, Claimed, 1, 0), true, at, s.table, s.runs), [Record(h, true)] + acts)
            == Exec(With(s, h, Thread(peer, t, Recorded, 1, 0), true, at, Inserted(s.table, peer, t, at),
                         s.runs[t.id := 0]), acts)
  {
    Overwrite(s, h, Thread(peer, t, Claimed, 1, 0), Thread(peer, t, Recorded, 1, 0));
    OneStep(With(s, h, Thread(peer, t, Claimed, 1, 0), true, at, s.table, s.runs), Record(h, true), acts,
            With(s, h, Thread(peer, t, Recorded, 1, 0), true, at, Inserted(s.table, peer, t, at), s.runs[t.id := 0]));
  }

  /** A step that moves the handler from x to y, in front of whatever follows. */
  lemma MoveStep(s: Node, h: nat, x: Thread, y: Thread, slot: bool, slot': bool, now: int, table: Table, table': Table,
                 runs: map<string, nat>, a: Action, acts: seq<Action>)
    requires Step(With(s, h, x, slot, now, table, runs), a) ==
             Some(With(With(s, h, x, slot, now, table, runs), h, y, slot', now, table', runs))
    ensures Exec(With(s, h, x, slot, now, table, runs), [a] + acts)
            == Exec(With(s, h, y, slot', now, table', runs), acts)
  {
    Overwrite(s, h, x, y);
    OneStep(With(s, h, x, slot, now, table, runs), a, acts, With(s, h, y, slot', now, table', runs));
  }

  lemma TickStep(s: Node, h: nat, x: Thread, slot: bool, now: int, later: int, table: Table, runs: map<string, nat>,
                 acts: seq<Action>)
    ensures Exec(With(s, h, x, slot, now, table, runs), [Tick(later)] + acts)
            == Exec(With(s, h, x, slot, later, table, runs), acts)
  {
    OneStep(With(s, h, x, slot, now, table, runs), Tick(later), acts, With(s, h, x, slot, later, table, runs));
  }

  lemma UnrecordedSteps(s: Node, h: nat, peer: Peer, t: Task, at: int)
    ensures Exec(With(s, h, Thread(peer, t, Claimed, 1, 0), true, at, s.table, s.runs),
                 [Record(h, false)] + ([ReleaseUnrecorded(h)] + []))
            == Some(With(s, h, Thread(peer, t, Phase.Closed, 1, 1), false, at, s.table, s.runs))
  {
    var (x, y) := (Thread(peer, t, Claimed, 1, 0), Thread(peer, t, NotRecorded, 1, 0));
    var z := Thread(peer, t, Phase.Closed, 1, 1);
    MoveStep(s, h, x, y, true, true, at, s.table, s.table, s.runs, Record(h, false), [ReleaseUnrecorded(h)] + []);
    MoveStep(s, h, y, z, true, false, at, s.table, s.table, s.runs, ReleaseUnrecorded(h), []);
  }

  /** The accept is lost: free the slot, then settle the row. */
  lemma LostSteps(s: Node, h: nat, peer: Peer, t: Task, at: int, table: Table, runs: map<string, nat>,
                  acts: seq<Action>)
    ensures Exec(With(s, h, Thread(peer, t, Recorded, 1, 0), true, at, table, runs),
              [LoseVerdict(h)] + ([ReleaseLost(h)] + acts))
            == Exec(With(s, h, Thread(peer, t, Unfinished, 1, 1), false, at, table, runs), acts)
  {
    var (x, y) := (Thread(peer, t, Recorded, 1, 0), Thread(peer, t, Phase.Undelivered, 1, 0));
    var z := Thread(peer, t, Unfinished, 1, 1);
    MoveStep(s, h, x, y, true, true, at, table, table, runs, LoseVerdict(h), [ReleaseLost(h)] + acts);
    MoveStep(s, h, y, z, true, false, at, table, table, runs, ReleaseLost(h), acts);
  }

  lemma GiveUpSteps(s: Node, h: nat, peer: Peer, t: Task, at: int, later: int, stored: bool, table: Table,
                    runs: map<string, nat>)
    ensures Exec(With(s, h, Thread(peer, t, Unfinished, 1, 1), false, at, table, runs),
                 [Tick(later)] + ([FinishLost(h, stored)] + []))
            == Some(With(s, h, Thread(peer, t, Phase.Closed, 1, 1), false, later,
                         MarkedLost(table, t, later, stored), runs))
  {
    var (x, y) := (Thread(peer, t, Unfinished, 1, 1), Thread(peer, t, Phase.Closed, 1, 1));
    TickStep(s, h, x, false, at, later, table, runs, [FinishLost(h, stored)] + []);
    var marked := MarkedLost(table, t, later, stored);
    MoveStep(s, h, x, y, false, false, later, table, marked, runs, FinishLost(h, stored), []);
  }

  /** The accept is out: prune, and the run is on its way. */
  lemma AcceptedSteps(s: Node, h: nat, peer: Peer, t: Task, at: int, later: int, pruned: bool, table: Table,
                      runs: map<string, nat>)
    ensures Exec(With(s, h, Thread(peer, t, Recorded, 1, 0), true, at, table, runs),
                 [DeliverVerdict(h)] + ([Tick(later)] + ([TaskNode.Prune(h, later - TASK_RETENTION, pruned)] + [])))
            == Some(With(s, h, Thread(peer, t, Spawned, 1, 0), true, later, Trimmed(table, later, pruned), runs))
  {
    var (x, y) := (Thread(peer, t, Recorded, 1, 0), Thread(peer, t, Delivered, 1, 0));
    var z := Thread(peer, t, Spawned, 1, 0);
    var prune := TaskNode.Prune(h, later - TASK_RETENTION, pruned);
    MoveStep(s, h, x, y, true, true, at, table, table, runs, DeliverVerdict(h), [Tick(later)] + ([prune] + []));
    TickStep(s, h, y, true, at, later, table, runs, [prune] + []);
    MoveStep(s, h, y, z, true, true, later, table, Trimmed(table, later, pruned), runs, prune, []);
  }

  /** Where a course leaves the node: only the handler's own thread, the slot, the table and the
      time are different. */
  ghost function Landed(c: Course, s: Node, h: nat, peer: Peer, t: Task): Node {
    match c
    case TurnedAway => s.(threads := s.threads[h := Thread(peer, t, Phase.Closed, 0, 0)])
    case InsertFailed(at) => With(s, h, Thread(peer, t, Phase.Closed, 1, 1), false, at, s.table, s.runs)
    case AcceptLost(_, later, _) =>
      With(s, h, Thread(peer, t, Phase.Closed, 1, 1), false, later, TableAfter(c, t, peer, s.table), s.runs[t.id := 0])
    case TakenOn(_, later, _) =>
      With(s, h, Thread(peer, t, Spawned, 1, 0), true, later, TableAfter(c, t, peer, s.table), s.runs[t.id := 0])
  }

  /** Every course a handler can take is a sequence of steps of the node system, so it keeps the
      invariant, whatever else is running there. */
  lemma CourseIsRun(c: Course, s: Node, h: nat, peer: Peer, t: Task)
    requires h !in s.threads && Open(c, t, peer in s.acl && t.kind in s.kinds, s.slot, s.table)
    ensures Exec(s, Actions(c, h, peer, t, peer in s.acl && t.kind in s.kinds)) == Some(Landed(c, s, h, peer, t))
    ensures var s' := Landed(c, s, h, peer, t);
            && s'.slot == SlotAfter(c, s.slot) && s'.table == TableAfter(c, t, peer, s.table)
            && InPhase(s', h, PhaseAfter(c)) && (Inv(s) ==> Inv(s'))
  {
    CourseSteps(c, s, h, peer, t);
    LandedSo(c, s, h, peer, t);
    if Inv(s) {
      ExecKeepsInv(s, Actions(c, h, peer, t, Admits(s, peer, t)));
    }
  }

  lemma LandedSo(c: Course, s: Node, h: nat, peer: Peer, t: Task)
    ensures var s' := Landed(c, s, h, peer, t);
            && s'.slot == SlotAfter(c, s.slot) && s'.table == TableAfter(c, t, peer, s.table)
            && InPhase(s', h, PhaseAfter(c))
  {
  }

  lemma CourseSteps(c: Course, s: Node, h: nat, peer: Peer, t: Task)
    requires h !in s.threads && Open(c, t, Admits(s, peer, t), s.slot, s.table)
    ensures Exec(s, Actions(c, h, peer, t, Admits(s, peer, t))) == Some(Landed(c, s, h, peer, t))
  {
    if c.TurnedAway? {
      TurnedAwaySteps(s, h, peer, t);
    } else {
      AdmitSteps(s, h, peer, t, [Claim(h)] + ([Tick(c.at)] + Tail(c, h)));
      ClaimSteps(s, h, peer, t, c.at, Tail(c, h));
      TailRun(c, s, h, peer, t);
    }
  }

  lemma TailRun(c: Course, s: Node, h: nat, peer: Peer, t: Task)
    requires !c.TurnedAway? && (c.InsertFailed? || Key(t.id, Received) !in s.table)
    ensures Exec(With(s, h, Thread(peer, t, Claimed, 1, 0), true, c.at, s.table, s.runs), Tail(c, h))
            == Some(Landed(c, s, h, peer, t))
  {
    if c.InsertFailed? {
      UnrecordedSteps(s, h, peer, t, c.at);
    } else if c.AcceptLost? {
      LostRun(c, s, h, peer, t);
    } else {
      TakenOnRun(c, s, h, peer, t);
    }
  }

  lemma LostRun(c: Course, s: Node, h: nat, peer: Peer, t: Task)
    requires c.AcceptLost? && Key(t.id, Received) !in s.table
    ensures Exec(With(s, h, Thread(peer, t, Claimed, 1, 0), true, c.at, s.table, s.runs), Tail(c, h))
            == Some(With(s, h, Thread(peer, t, Phase.Closed, 1, 1), false, c.later,
                         TableAfter(c, t, peer, s.table), s.runs[t.id := 0]))
  {
    var (table, runs) := (Inserted(s.table, peer, t, c.at), s.runs[t.id := 0]);
    var end := [Tick(c.later)] + ([FinishLost(h, c.stored)] + []);
    RecordStep(s, h, peer, t, c.at, [LoseVerdict(h)] + ([ReleaseLost(h)] + end));
    LostSteps(s, h, peer, t, c.at, table, runs, end);
    GiveUpSteps(s, h, peer, t, c.at, c.later, c.stored, table, runs);
  }

  lemma TakenOnRun(c: Course, s: Node, h: nat, peer: Peer, t: Task)
    requires c.TakenOn? && Key(t.id, Received) !in s.table
    ensures Exec(With(s, h, Thread(peer, t, Claimed, 1, 0), true, c.at, s.table, s.runs), Tail(c, h))
            == Some(With(s, h, Thread(peer, t, Spawned, 1, 0), true, c.later,
                         TableAfter(c, t, peer, s.table), s.runs[t.id := 0]))
  {
    var (table, runs) := (Inserted(s.table, peer, t, c.at), s.runs[t.id := 0]);
    var prune := TaskNode.Prune(h, c.later - TASK_RETENTION, c.pruned);
    RecordStep(s, h, peer, t, c.at, [DeliverVerdict(h)] + ([Tick(c.later)] + ([prune] + [])));
    AcceptedSteps(s, h, peer, t, c.at, c.later, c.pruned, table, runs);
  }

  lemma TurnedAwaySteps(s: Node, h: nat, peer: Peer, t: Task)
    requires h !in s.threads && (!Admits(s, peer, t) || s.slot)
    ensures Exec(s, Actions(TurnedAway, h, peer, t, Admits(s, peer, t)))
            == Some(s.(threads := s.threads[h := Thread(peer, t, Phase.Closed, 0, 0)]))
  {
    var (x, y) := (Thread(peer, t, Offered, 0, 0), Thread(peer, t, Phase.Closed, 0, 0));
    if Admits(s, peer, t) {
      var x' := Thread(peer, t, Admitted, 0, 0);
      AdmitSteps(s, h, peer, t, [Refuse(h)] + []);
      MoveStep(s, h, x', y, s.slot, s.slot, s.now, s.table, s.table, s.runs, Refuse(h), []);
    } else {
      Overwrite(s, h, x, y);
      OneStep(s.(threads := s.threads[h := x]), Refuse(h), [], s.(threads := s.threads[h := y]));
      OneStep(s, Arrive(h, peer, t), [Refuse(h)] + [], s.(threads := s.threads[h := x]));
    }
  }

  // ----- the run

  function OutcomeOf(result: Result<bytes, string>, cancelled: bool): (TaskStatus, bytes, string) {
    match result
    case Ok(out) => (Done, out, "")
    case Err(e) => (if cancelled then Interrupted else Failed, [], e)
  }

  /** The table once a run's outcome is stored, or not. */
  function TableAfterRun(table: Table, t: Task, result: Result<bytes, string>, cancelled: bool, later: int,
                         stored: bool): Table
  {
    var key, (status, output, error) := Key(t.id, Received), OutcomeOf(result, cancelled);
    if stored then OrElse(FinishedTable(table, key, status, output, error, later), table) else table
  }

  function RunActions(h: nat, result: Result<bytes, string>, later: int, stored: bool): seq<Action> {
    [Execute(h)] + ([RunEnds(h, result)] + ([Tick(later)] + ([TaskNode.Store(h, stored)] + ([ReleaseRun(h)] + []))))
  }

  /** Node s, apart from its threads, once a task has been executed. */
  ghost function Remembering(s: Node, th: Thread, result: Result<bytes, string>): Node {
    var (status, output, _) := OutcomeOf(result, s.cancelled);
    s.(outcomes := s.outcomes + {Outcome(th.peer, th.task, status, output)})
  }

  function Counting(runs: map<string, nat>, id: string): map<string, nat> {
    runs[id := 1 + if id in runs then runs[id] else 0]
  }

  function HasRun(th: Thread, result: Result<bytes, string>, cancelled: bool): Thread {
    var (status, output, error) := OutcomeOf(result, cancelled);
    th.(phase := Ran(status, output, error))
  }

  function Through(th: Thread): Thread {
    th.(phase := Phase.Closed, releases := th.releases + 1)
  }

  lemma ExecuteStep(s: Node, h: nat, acts: seq<Action>)
    requires InPhase(s, h, Spawned)
    ensures Exec(s, [Execute(h)] + acts)
            == Exec(With(s, h, s.threads[h].(phase := Executing), s.slot, s.now, s.table,
                         Counting(s.runs, s.threads[h].task.id)), acts)
  {
    OneStep(s, Execute(h), acts,
            With(s, h, s.threads[h].(phase := Executing), s.slot, s.now, s.table,
                 Counting(s.runs, s.threads[h].task.id)));
  }

  lemma EndStep(s: Node, h: nat, th: Thread, slot: bool, now: int, table: Table, runs: map<string, nat>,
                result: Result<bytes, string>, acts: seq<Action>)
    requires th.phase == Executing
    ensures Exec(With(s, h, th, slot, now, table, runs), [RunEnds(h, result)] + acts)
            == Exec(With(Remembering(s, th, result), h, HasRun(th, result, s.cancelled), slot, now, table, runs), acts)
  {
    Overwrite(s, h, th, HasRun(th, result, s.cancelled));
    OneStep(With(s, h, th, slot, now, table, runs), RunEnds(h, result), acts,
            With(Remembering(s, th, result), h, HasRun(th, result, s.cancelled), slot, now, table, runs));
  }

  lemma StoreStep(s: Node, h: nat, th: Thread, result: Result<bytes, string>, slot: bool, now: int, table: Table,
                  runs: map<string, nat>, stored: bool, acts: seq<Action>)
    ensures Exec(With(s, h, HasRun(th, result, s.cancelled), slot, now, table, runs),
                 [TaskNode.Store(h, stored)] + acts)
            == Exec(With(s, h, th.(phase := Stored), slot, now,
                         TableAfterRun(table, th.task, result, s.cancelled, now, stored), runs), acts)
  {
    var ran, table' := HasRun(th, result, s.cancelled), TableAfterRun(table, th.task, result, s.cancelled, now, stored);
    Overwrite(s, h, ran, th.(phase := Stored));
    OneStep(With(s, h, ran, slot, now, table, runs), TaskNode.Store(h, stored), acts,
            With(s, h, th.(phase := Stored), slot, now, table', runs));
  }

  lemma ReleaseStep(s: Node, h: nat, th: Thread, slot: bool, now: int, table: Table, runs: map<string, nat>)
    ensures Exec(With(s, h, th.(phase := Stored), slot, now, table, runs), [ReleaseRun(h)] + [])
            == Some(With(s, h, Through(th), false, now, table, runs))
  {
    MoveStep(s, h, th.(phase := Stored), Through(th), slot, false, now, table, table, runs, ReleaseRun(h), []);
  }

  /** Where the run leaves the node. */
  ghost function RunLanded(s: Node, h: nat, result: Result<bytes, string>, later: int, stored: bool): Node
    requires h in s.threads
  {
    var th := s.threads[h];
    With(Remembering(s, th, result), h, Through(th), false, later,
         TableAfterRun(s.table, th.task, result, s.cancelled, later, stored), Counting(s.runs, th.task.id))
  }

  /** The background run is five steps of the node system. */
  lemma RunIsRun(s: Node, h: nat, result: Result<bytes, string>, later: int, stored: bool)
    requires InPhase(s, h, Spawned)
    ensures Exec(s, RunActions(h, result, later, stored)) == Some(RunLanded(s, h, result, later, stored))
    ensures Inv(s) ==> Inv(RunLanded(s, h, result, later, stored))
  {
    var th, base := s.threads[h], Remembering(s, s.threads[h], result);
    var runs, ran := Counting(s.runs, th.task.id), HasRun(th, result, s.cancelled);
    var rest := [TaskNode.Store(h, stored)] + ([ReleaseRun(h)] + []);
    ExecuteStep(s, h, [RunEnds(h, result)] + ([Tick(later)] + rest));
    EndStep(s, h, th.(phase := Executing), s.slot, s.now, s.table, runs, result, [Tick(later)] + rest);
    TickStep(base, h, ran, s.slot, s.now, later, s.table, runs, rest);
    StoreStep(base, h, th, result, s.slot, later, s.table, runs, stored, [ReleaseRun(h)] + []);
    ReleaseStep(base, h, th, s.slot, later, TableAfterRun(s.table, th.task, result, s.cancelled, later, stored), runs);
    if Inv(s) {
      ExecKeepsInv(s, RunActions(h, result, later, stored));
    }
  }

  // ----- the code

  /** What the handler returns after each course, given the check that failed, if any. */
  function EndOf(c: Course, t: Task, objection: Option<Reason>): Result<Task, HandlerError>
    requires c.TurnedAway? ==> objection.Some?
  {
    match c
    case TurnedAway => Err(Declined(objection.value))
    case InsertFailed(_) => Err(Declined(CannotRecord))
    case AcceptLost(_, _, _) => Err(NoVerdict)
    case TakenOn(_, _, _) => Ok(t)
  }

  class Host {
    const slot: TaskSlot
    const store: Store
    const hasStore: bool                // a node without a database refuses every task
    const kinds: set<string>            // what the executor supports
    const codec: Codec<Task>
    const isUuid: string -> bool
    const explain: Reason -> bytes      // the text sent with a refusal
    var trusts: Peer -> bool            // checkTaskAccept, as the ACL files stand
    var cancelled: bool                 // the run context

    constructor (slot: TaskSlot, store: Store, hasStore: bool, kinds: set<string>, codec: Codec<Task>,
                 isUuid: string -> bool, explain: Reason -> bytes, trusts: Peer -> bool)
      ensures this.slot == slot && this.store == store && this.hasStore == hasStore && this.kinds == kinds
      ensures !cancelled
    {
      this.slot, this.store, this.hasStore, this.kinds := slot, store, hasStore, kinds;
      this.codec, this.isUuid, this.explain, this.trusts := codec, isUuid, explain, trusts;
      cancelled := false;
    }

    /** What the policy lets through, before the slot is asked. */
    predicate Admitted(peer: Peer, t: Task)
      reads this
    {
      trusts(peer) && t.kind in kinds && hasStore
    }

    /** The first check that fails, in the order they are made, and what the dispatcher is told. */
    function Objection(peer: Peer, t: Task, busy: bool): (o: Option<Reason>)
      reads this
      ensures o.None? <==> Admitted(peer, t) && !busy
    {
      if !trusts(peer) then Some(NotAccepting)
      else if t.kind !in kinds then Some(CannotRun(t.kind))
      else if !hasStore then Some(CannotRecord)
      else if busy then Some(AlreadyRunning)
      else None
    }

    /** The accept callback: ACL, kind, database, slot, row, in this order. A refusal leaves no
        trace; an accept has claimed the slot and recorded the row. */
    method Accept(t: Task, peer: Peer) returns (refusal: Option<Reason>, at: int)
      modifies slot, store
      ensures refusal.Some? ==> slot.busy == old(slot.busy) && store.tasks == old(store.tasks)
      ensures refusal.None? ==>
                && Admitted(peer, t) && !old(slot.busy) && slot.busy && Key(t.id, Received) !in old(store.tasks)
                && store.tasks == Inserted(old(store.tasks), peer, t, at)
      ensures var o := Objection(peer, t, old(slot.busy));
              if o.Some? then refusal == o
              else
                && (refusal.Some? ==> refusal == Some(CannotRecord))
                && (store.reliable ==> (refusal.Some? <==> Key(t.id, Received) in old(store.tasks)))
    {
      at := *;
      if !trusts(peer) {
        return Some(NotAccepting), at;
      }
      if t.kind !in kinds {
        return Some(CannotRun(t.kind)), at;
      }
      if !hasStore {
        return Some(CannotRecord), at;
      }
      var won := slot.TryClaim();
      if !won {
        return Some(AlreadyRunning), at;
      }
      var err := store.RecordTaskStart(Key(t.id, Received), peer, t.kind, at);
      if err.Some? {
        slot.Release();
        return Some(CannotRecord), at;
      }
      return None, at;
    }

    /** The offer a connection starts with, when it is a whole and valid one. */
    ghost function Offer(c: Conn): Option<Task>
      reads c
    {
      match ParseJson(TASK, codec, c.pending, c.ending)
      case Got(t, _) => if Validate(t, isUuid).None? then Some(t) else None
      case Bad(_, _) => None
    }

    /** What happens to a valid offer: it takes one of the courses, and its dispatcher is told which,
        as far as the connection lets it be. */
    method TakeUp(c: Conn, t: Task, peer: Peer) returns (r: Result<Task, HandlerError>, ghost course: Course)
      modifies c`written, c`room, slot, store
      ensures Open(course, t, Admitted(peer, t), old(slot.busy), old(store.tasks))
      ensures slot.busy == SlotAfter(course, old(slot.busy))
      ensures store.tasks == TableAfter(course, t, peer, old(store.tasks))
      ensures r == EndOf(course, t, Objection(peer, t, old(slot.busy)))
      ensures store.reliable && course.AcceptLost? ==> course.stored
      ensures course.TakenOn? ==> KeepsRecent(old(store.tasks), store.tasks, course)
      ensures var v := if r.Err? && r.error.Declined? then Some(explain(r.error.reason)) else None;
              Answered(c.written, old(c.written), v, old(c.room))
      ensures course.TakenOn? || course.AcceptLost? ==> (course.TakenOn? <==> |PrintVerdict(None)| <= old(c.room))
    {
      var refusal, at := Accept(t, peer);
      if refusal.Some? {
        var _ := WriteVerdict(c, Some(explain(refusal.value)));
        course := if Objection(peer, t, old(slot.busy)).None? then InsertFailed(at) else TurnedAway;
        return Err(Declined(refusal.value)), course;
      }
      var lost := WriteVerdict(c, None);
      var later: int := *;
      if lost.Some? {
        slot.Release();
        var err := store.RecordTaskFinish(Key(t.id, Received), Failed, [], NOT_DELIVERED, later);
        return Err(NoVerdict), AcceptLost(at, later, err.None?);
      }
      ghost var recorded := store.tasks;
      var pruned := store.PruneTasks(later - TASK_RETENTION);
      assert pruned ==> store.tasks == Pruned(recorded, later - TASK_RETENTION);
      TrimmedRecent(old(store.tasks), TakenOn(at, later, pruned), t, peer);
      return Ok(t), TakenOn(at, later, pruned);
    }

    /** receiveTask up to the point where the run is started. */
    method ReceiveTask(c: Conn, peer: Peer) returns (r: Result<Task, HandlerError>, ghost course: Option<Course>)
      modifies c, slot, store
      // an offer that cannot be read, or is not valid, changes nothing here
      ensures course.None? <==> old(Offer(c)).None?
      ensures course.None? ==> slot.busy == old(slot.busy) && store.tasks == old(store.tasks)
      ensures match ParseJson(TASK, codec, old(c.pending), c.ending)
              case Bad(e, _) => r == Err(Unread(e))
              case Got(t, _) =>
                && (course.Some? <==> WellFormed(t, isUuid))
                && (course.None? ==> exists f :: FirstFault(t, isUuid, f) && r == Err(Declined(BadTask(f))))
      // any other takes one of the courses
      ensures course.Some? ==>
                var t := old(Offer(c)).value;
                && Open(course.value, t, Admitted(peer, t), old(slot.busy), old(store.tasks))
                && slot.busy == SlotAfter(course.value, old(slot.busy))
                && store.tasks == TableAfter(course.value, t, peer, old(store.tasks))
                && r == EndOf(course.value, t, Objection(peer, t, old(slot.busy)))
                && (store.reliable && course.value.AcceptLost? ==> course.value.stored)
                && (course.value.TakenOn? ==> KeepsRecent(old(store.tasks), store.tasks, course.value))
      // the dispatcher is told, as far as the connection lets it be
      ensures r.Ok? ==> c.written == old(c.written) + PrintVerdict(None)
      ensures r.Err? && r.error.Declined? ==>
                Answered(c.written, old(c.written), Some(explain(r.error.reason)), old(c.room))
      ensures r.Err? && r.error.Unread? ==>
                if r.error.error.WrongVersion?
                then Answered(c.written, old(c.written), Some(explain(OtherVersion(r.error.error.got))), old(c.room))
                else c.written == old(c.written)
      ensures r == Err(NoVerdict) ==>
                Answered(c.written, old(c.written), None, old(c.room)) && old(c.room) < |PrintVerdict(None)|
    {
      var p := ReadJson(c, TASK, codec);
      if p.Bad? {
        if p.error.WrongVersion? {
          var _ := WriteVerdict(c, Some(explain(OtherVersion(p.error.got))));
        }
        return Err(Unread(p.error)), None;
      }
      var t := p.value;
      var fault := Validate(t, isUuid);
      ValidateIs(t, isUuid);
      if fault.Some? {
        var _ := WriteVerdict(c, Some(explain(BadTask(fault.value))));
        return Err(Declined(BadTask(fault.value))), None;
      }
      ghost var taken;
      r, taken := TakeUp(c, t, peer);
      course := Some(taken);
    }

    /** The background run: what the executor made of the task is stored, then the slot is free. */
    method RunTask(t: Task, result: Result<bytes, string>) returns (ghost later: int, ghost stored: bool)
      modifies slot, store
      ensures !slot.busy && store.tasks == TableAfterRun(old(store.tasks), t, result, cancelled, later, stored)
      ensures store.reliable && Key(t.id, Received) in old(store.tasks) ==> stored
    {
      var now: int := *;
      var err;
      if result.Err? {
        var status := if cancelled then Interrupted else Failed;
        err := store.RecordTaskFinish(Key(t.id, Received), status, [], result.error, now);
      } else {
        err := store.RecordTaskFinish(Key(t.id, Received), Done, result.value, "", now);
      }
      slot.Release();
      later, stored := now, err.None?;
    }

    /** The same with the process in view: what it wrote, in pieces, to what its row then holds. The
        row is done exactly when the process exited cleanly and its whole output fits, and then it
        holds all of it; otherwise it holds none. */
    method RunProcess(t: Task, p: Output.Process, describe: Output.RunError -> string)
      modifies slot, store
      ensures !slot.busy && store.tasks.Keys == old(store.tasks).Keys
      ensures forall k :: k in store.tasks && k != Key(t.id, Received) ==> store.tasks[k] == old(store.tasks)[k]
      ensures Key(t.id, Received) in store.tasks ==>
                var (row, was) := (store.tasks[Key(t.id, Received)], old(store.tasks)[Key(t.id, Received)]);
                && (store.reliable || row != was ==>
                      && (row.status == Done <==> p.clean && |Output.Joined(p.stdout)| <= 64 * 1024)
                      && row.output == (if row.status == Done then Output.Joined(p.stdout) else [])
                      && (row.status == Interrupted <==> cancelled && Output.RunResult(p).Err?)
                      && Terminal(row.status))
                && row.peer == was.peer && row.kind == was.kind && row.startedAt == was.startedAt
    {
      var ran := Output.Run(p);
      var later, stored := RunTask(t, if ran.Ok? then Ok(ran.value) else Err(describe(ran.error)));
      ghost var key := Key(t.id, Received);
      if key in old(store.tasks) {
        Output.DoneIsComplete(old(store.tasks)[key], p, cancelled, describe, later);
        assert stored ==> store.tasks[key] == Output.RowOfRun(old(store.tasks)[key], p, cancelled, describe, later);
      }
    }
  }
}
