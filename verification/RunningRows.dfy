/** How many received rows can be running at once. At most one task is, but a row can outlive its
    task: a handler whose accept was lost frees the slot before it settles its row, and a row is
    left running for good when the write that should settle it fails. Here is exactly when there is
    only one, and for each of the two causes a run that has two. */
module RunningRows {
  import opened TaskNode
  import opened TaskStore
  import opened Wrappers

  predicate RunningRow(s: Node, k: Key) {
    k in s.table && k.role == Received && s.table[k].status == Running
  }

  ghost predicate AtMostOneRunning(s: Node) {
    forall k, l :: RunningRow(s, k) && RunningRow(s, l) ==> k == l
  }

  predicate Tends(s: Node, h: nat, k: Key) {
    h in s.threads && OwnsRow(s.threads[h].phase) && RowKey(s.threads[h]) == k
  }

  /** A running row nobody is going to settle: only a restart will. */
  ghost predicate Abandoned(s: Node, k: Key) {
    RunningRow(s, k) && !exists h :: Tends(s, h, k)
  }

  /** Every running row has its handler. */
  ghost predicate Attended(s: Node) {
    forall k :: RunningRow(s, k) ==> exists h :: Tends(s, h, k)
  }

  /** A handler that lost its accept has freed the slot, has not settled its row yet, and somebody
      else has inserted one meanwhile. */
  ghost predicate LostBesideAnother(s: Node) {
    exists h, g :: h != g && InPhase(s, h, Unfinished) && g in s.threads && OwnsRow(s.threads[g].phase)
  }

  // ----- one state

  lemma TendedIsRunning(s: Node, h: nat, k: Key)
    requires Inv(s) && Tends(s, h, k)
    ensures RunningRow(s, k)
  {
    assert RowKept(s, s.threads[h]);
  }

  lemma TwoTended(s: Node, h: nat, g: nat, k: Key, l: Key)
    requires Inv(s) && Tends(s, h, k) && Tends(s, g, l)
    ensures k != l <==> h != g
    ensures h != g ==> s.threads[h].phase == Unfinished || s.threads[g].phase == Unfinished
  {
    assert h != g ==> Compatible(s.threads[h], s.threads[g]);
  }

  /** At most one received row is running exactly when no handler with a lost accept stands beside
      another owner of a row, and no abandoned row beside another running one. */
  lemma OneRunningRow(s: Node)
    requires Inv(s)
    ensures AtMostOneRunning(s) <==>
              !LostBesideAnother(s) && forall k, l :: Abandoned(s, k) && RunningRow(s, l) ==> k == l
  {
    if LostBesideAnother(s) {
      var h, g :| h != g && InPhase(s, h, Unfinished) && g in s.threads && OwnsRow(s.threads[g].phase);
      var (k, l) := (RowKey(s.threads[h]), RowKey(s.threads[g]));
      TendedIsRunning(s, h, k);
      TendedIsRunning(s, g, l);
      TwoTended(s, h, g, k, l);
    } else {
      forall k, l | RunningRow(s, k) && RunningRow(s, l) && !Abandoned(s, k) && !Abandoned(s, l)
        ensures k == l
      {
        var h :| Tends(s, h, k);
        var g :| Tends(s, g, l);
        TwoTended(s, h, g, k, l);
        assert h == g || InPhase(s, h, Unfinished) || InPhase(s, g, Unfinished);
      }
    }
  }

  // ----- when every row is attended

  /** The writes that settle rows work: those of handlers, and the reconcile of a restart. */
  predicate SettlesWell(a: Action) {
    (a.FinishLost? ==> a.ok) && (a.Store? ==> a.ok) && (a.Restart? ==> a.reconciled)
  }

  lemma StillTended(s: Node, a: Action, s': Node, h: nat, k: Key)
    requires Step(s, a) == Some(s') && Tends(s, h, k) && !(OwnStep(a, h) && Settles(a)) && !a.Restart?
    ensures Tends(s', h, k)
  {
    if !OwnStep(a, h) {
      OthersLeaveAlone(s, a, s', h);
    }
  }

  lemma SettledByOwner(s: Node, a: Action, s': Node, k: Key)
    requires Inv(s) && Step(s, a) == Some(s') && Settles(a) && a.ok && Tends(s, a.h, k)
    ensures !RunningRow(s', k)
  {
    assert RowKept(s, s.threads[a.h]);
    if a.Store? {
      assert RanHonest(s, s.threads[a.h]);
    }
  }

  lemma RunningFromRest(s: Node, a: Action, s': Node, k: Key)
    requires Step(s, a) == Some(s') && RunningRow(s', k) && !Settles(a) && !MovesOne(a) && !Bystands(a)
    ensures RunningRow(s, k) || (a.Record? && Tends(s', a.h, k))
  {
  }

  /** A running row was running before, or was just inserted by the handler that tends it. */
  lemma RunningFrom(s: Node, a: Action, s': Node, k: Key)
    requires Step(s, a) == Some(s') && RunningRow(s', k) && (Settles(a) ==> Inv(s))
    ensures RunningRow(s, k) || (a.Record? && Tends(s', a.h, k))
  {
    if Settles(a) {
      SettlingMovesRow(s, a, s', k);
    } else if MovesOne(a) || Bystands(a) {
      TableUntouched(s, a, s');
    } else {
      RunningFromRest(s, a, s', k);
    }
  }

  /** As long as those writes work, every step keeps every running row attended. */
  lemma StepKeepsAttended(s: Node, a: Action, s': Node)
    requires Inv(s) && Attended(s) && Step(s, a) == Some(s') && SettlesWell(a)
    ensures Attended(s')
  {
    forall k | RunningRow(s', k)
      ensures exists h :: Tends(s', h, k)
    {
      if a.Restart? {
        RestartSettlesAll(s, s');
      }
      RunningFrom(s, a, s', k);
      if RunningRow(s, k) {
        var h :| Tends(s, h, k);
        if OwnStep(a, h) && Settles(a) {
          SettledByOwner(s, a, s', k);
        } else {
          StillTended(s, a, s', h, k);
        }
      }
    }
  }

  ghost predicate NextSettling(s: Node, s': Node) {
    exists a :: SettlesWell(a) && Step(s, a) == Some(s')
  }

  /** A run in which no such write fails. */
  ghost predicate SettlingRun(run: seq<Node>) {
    && run != [] && Inv(run[0]) && Attended(run[0])
    && forall k :: 0 < k < |run| ==> NextSettling(run[k - 1], run[k])
  }

  lemma {:induction false} RunKeepsAttended(run: seq<Node>)
    requires SettlingRun(run)
    ensures Inv(run[|run| - 1]) && Attended(run[|run| - 1])
  {
    var n := |run| - 1;
    if n > 0 {
      RunKeepsAttended(run[..n]);
      assert NextSettling(run[n - 1], run[n]);
      var a :| SettlesWell(a) && Step(run[n - 1], a) == Some(run[n]);
      StepKeepsInv(run[n - 1], a, run[n]);
      StepKeepsAttended(run[n - 1], a, run[n]);
    }
  }

  /** Over any such run: every running row has its handler, and there is at most one of them exactly
      when no handler with a lost accept stands beside another owner. */
  lemma OneRunningRowInRun(run: seq<Node>)
    requires SettlingRun(run)
    ensures var s := run[|run| - 1]; Attended(s) && (AtMostOneRunning(s) <==> !LostBesideAnother(s))
  {
    RunKeepsAttended(run);
    OneRunningRow(run[|run| - 1]);
  }

  // ----- two at once, in either way

  lemma Extend(run: seq<Node>, a: Action) returns (longer: seq<Node>)
    requires NodeRun(run) && Step(run[|run| - 1], a).Some?
    ensures NodeRun(longer) && longer == run + [Step(run[|run| - 1], a).value]
  {
    longer := run + [Step(run[|run| - 1], a).value];
    assert Next(run[|run| - 1], longer[|run|]);
    assert longer[..|run|] == run;
  }

  predicate Quiet(s: Node) {
    forall h :: h in s.threads ==> s.threads[h].phase != Undelivered && s.threads[h].phase != Unfinished
  }

  /** No accept is ever lost. */
  ghost predicate NoneLost(run: seq<Node>) {
    forall i :: 0 <= i < |run| ==> Quiet(run[i])
  }

  lemma QuietExtend(run: seq<Node>, a: Action) returns (longer: seq<Node>)
    requires NodeRun(run) && NoneLost(run) && Step(run[|run| - 1], a).Some? && Quiet(Step(run[|run| - 1], a).value)
    ensures NodeRun(longer) && NoneLost(longer) && longer != []
    ensures Step(run[|run| - 1], a) == Some(longer[|longer| - 1])
  {
    longer := Extend(run, a);
    StillNoneLost(run, Step(run[|run| - 1], a).value);
  }

  lemma StillNoneLost(run: seq<Node>, next: Node)
    requires NoneLost(run) && Quiet(next)
    ensures NoneLost(run + [next])
  {
  }

  /** A node with one row, that of t, and one handler, 0, which has it. */
  ghost function One(peer: Peer, t: Task, kinds: set<string>, th: Thread, slot: bool): Node {
    Node(slot, map[Key(t.id, Received) := NewRow(peer, t)], map[0 := th], false, 0, iset{peer}, kinds,
         map[t.id := 0], {})
  }

  function NewRow(peer: Peer, t: Task): Row {
    Row(peer, t.kind, Running, [], "", 0, None)
  }

  lemma ClaimedRun(peer: Peer, t: Task, kinds: set<string>) returns (run: seq<Node>)
    requires t.kind in kinds
    ensures NodeRun(run) && NoneLost(run)
    ensures run[|run| - 1] ==
            Node(true, map[], map[0 := Thread(peer, t, Claimed, 1, 0)], false, 0, iset{peer}, kinds, map[], {})
  {
    FreshInv(map[], iset{peer}, kinds);
    run := [Fresh(map[], iset{peer}, kinds)];
    run := QuietExtend(run, Arrive(0, peer, t));
    run := QuietExtend(run, Admit(0));
    run := QuietExtend(run, Claim(0));
  }

  /** Handler 0 has taken a task as far as the row. */
  lemma RecordedRun(peer: Peer, t: Task, kinds: set<string>) returns (run: seq<Node>)
    requires t.kind in kinds
    ensures NodeRun(run) && NoneLost(run)
    ensures run[|run| - 1] == One(peer, t, kinds, Thread(peer, t, Recorded, 1, 0), true)
  {
    run := ClaimedRun(peer, t, kinds);
    run := QuietExtend(run, Record(0, true));
  }

  /** With a lost accept in between. */
  lemma LostVerdictRun(peer: Peer, t: Task, kinds: set<string>) returns (run: seq<Node>)
    requires t.kind in kinds
    ensures NodeRun(run)
    ensures run[|run| - 1] == One(peer, t, kinds, Thread(peer, t, Unfinished, 1, 1), false)
  {
    run := RecordedRun(peer, t, kinds);
    run := Extend(run, LoseVerdict(0));
    run := Extend(run, ReleaseLost(0));
  }

  /** The next task has been let in, and the slot is free. */
  ghost predicate SecondIn(s: Node, peer: Peer, t: Task, u: Task) {
    && s.table == map[Key(t.id, Received) := NewRow(peer, t)] && !s.slot
    && InPhase(s, 1, Admitted) && s.threads[1].peer == peer && s.threads[1].task == u
  }

  lemma SecondAfterLost(peer: Peer, t: Task, u: Task) returns (run: seq<Node>)
    ensures NodeRun(run) && SecondIn(run[|run| - 1], peer, t, u)
  {
    run := LostVerdictRun(peer, t, {t.kind, u.kind});
    run := Extend(run, Arrive(1, peer, u));
    run := Extend(run, Admit(1));
  }

  /** It takes the slot and inserts its row. */
  lemma SecondTaken(s: Node, peer: Peer, t: Task, u: Task) returns (claimed: Node, recorded: Node)
    requires SecondIn(s, peer, t, u) && t.id != u.id
    ensures Step(s, Claim(1)) == Some(claimed) && Step(claimed, Record(1, true)) == Some(recorded)
    ensures Quiet(s) ==> Quiet(claimed) && Quiet(recorded)
    ensures RunningRow(recorded, Key(t.id, Received)) && RunningRow(recorded, Key(u.id, Received))
  {
    claimed := Step(s, Claim(1)).value;
    recorded := Step(claimed, Record(1, true)).value;
  }

  /** The slot of a handler whose accept was lost is taken by another task. */
  lemma TwoRunningRows(peer: Peer, t: Task, u: Task) returns (run: seq<Node>)
    requires t.id != u.id
    ensures NodeRun(run)
    ensures var s := run[|run| - 1]; RunningRow(s, Key(t.id, Received)) && RunningRow(s, Key(u.id, Received))
  {
    run := SecondAfterLost(peer, t, u);
    var claimed, recorded := SecondTaken(run[|run| - 1], peer, t, u);
    run := Extend(run, Claim(1));
    run := Extend(run, Record(1, true));
  }

  /** Handler 0 has come to p with the one row there is, still running. */
  ghost predicate Stands(s: Node, peer: Peer, t: Task, kinds: set<string>, p: Phase) {
    && s.table == map[Key(t.id, Received) := NewRow(peer, t)]
    && s.threads.Keys == {0} && s.threads[0].task == t && s.threads[0].phase == p
    && s.slot == Holds(p) && s.acl == iset{peer} && s.kinds == kinds
  }

  /** The way to a failed store. */
  predicate Leads(a: Action, p: Phase, q: Phase) {
    || (p == Recorded && a == DeliverVerdict(0) && q == Delivered)
    || (p == Delivered && a == Prune(0, 0, true) && q == Spawned)
    || (p == Spawned && a == Execute(0) && q == Executing)
    || (p == Executing && a == RunEnds(0, Ok([])) && q == Ran(Done, [], ""))
    || (p.Ran? && a == Action.Store(0, false) && q == Stored)
    || (p == Stored && a == ReleaseRun(0) && q == Phase.Closed)
  }

  /** Each of its steps leaves the row as it is. */
  lemma Onward(s: Node, peer: Peer, t: Task, kinds: set<string>, a: Action, p: Phase, q: Phase)
    requires Stands(s, peer, t, kinds, p) && Leads(a, p, q)
    ensures Step(s, a).Some? && Stands(Step(s, a).value, peer, t, kinds, q)
  {
  }

  /** With an outcome that could not be stored. */
  lemma FailedStoreRun(peer: Peer, t: Task, kinds: set<string>) returns (run: seq<Node>)
    requires t.kind in kinds
    ensures NodeRun(run) && NoneLost(run) && Stands(run[|run| - 1], peer, t, kinds, Phase.Closed)
  {
    run := RecordedRun(peer, t, kinds);
    run := Advance(run, peer, t, kinds, DeliverVerdict(0), Recorded, Delivered);
    run := Advance(run, peer, t, kinds, Prune(0, 0, true), Delivered, Spawned);
    run := Advance(run, peer, t, kinds, Execute(0), Spawned, Executing);
    run := Advance(run, peer, t, kinds, RunEnds(0, Ok([])), Executing, Ran(Done, [], ""));
    run := Advance(run, peer, t, kinds, Action.Store(0, false), Ran(Done, [], ""), Stored);
    run := Advance(run, peer, t, kinds, ReleaseRun(0), Stored, Phase.Closed);
  }

  lemma Advance(run: seq<Node>, peer: Peer, t: Task, kinds: set<string>, a: Action, p: Phase, q: Phase)
    returns (longer: seq<Node>)
    requires NodeRun(run) && NoneLost(run) && Stands(run[|run| - 1], peer, t, kinds, p) && Leads(a, p, q)
    ensures NodeRun(longer) && NoneLost(longer) && Stands(longer[|longer| - 1], peer, t, kinds, q)
  {
    Onward(run[|run| - 1], peer, t, kinds, a, p, q);
    longer := QuietExtend(run, a);
  }

  lemma SecondComesIn(run: seq<Node>, peer: Peer, t: Task, u: Task, kinds: set<string>) returns (longer: seq<Node>)
    requires NodeRun(run) && NoneLost(run) && u.kind in kinds && Stands(run[|run| - 1], peer, t, kinds, Phase.Closed)
    ensures NodeRun(longer) && NoneLost(longer) && SecondIn(longer[|longer| - 1], peer, t, u)
  {
    longer := QuietExtend(run, Arrive(1, peer, u));
    longer := QuietExtend(longer, Admit(1));
  }

  /** No accept is lost, and the slot of the task whose outcome could not be stored goes to another. */
  lemma TwoRunningRowsNoneLost(peer: Peer, t: Task, u: Task) returns (run: seq<Node>)
    requires t.id != u.id
    ensures NodeRun(run) && NoneLost(run)
    ensures var s := run[|run| - 1]; RunningRow(s, Key(t.id, Received)) && RunningRow(s, Key(u.id, Received))
  {
    run := FailedStoreRun(peer, t, {t.kind, u.kind});
    run := SecondComesIn(run, peer, t, u, {t.kind, u.kind});
    var claimed, recorded := SecondTaken(run[|run| - 1], peer, t, u);
    run := QuietExtend(run, Claim(1));
    run := QuietExtend(run, Record(1, true));
  }
}
