/** Many nodes: dispatching tasks to each other, polling for results over connections that can
    drop anything, restarting, and dealing with peers that answer whatever they like. What a
    dispatcher ends up recording is what its executor did. */
module Network {
  import opened TaskNode
  import opened TaskResult
  import opened TaskStore
  import opened Wrappers

  // ----- the world

  /** One askResult: target is who DispatchTask said accepted. */
  datatype Poll = Poll(asker: Peer, target: Peer, id: string, answer: Option<Response>)

  datatype Served = Served(giver: Peer, to: Peer, id: string, response: Response)

  /** The nodes that run this code; any other peer may do anything. `offered` and `accepted`
      say what each of them has dispatched and to whom it went, `verdicts` which accepts left a
      node, and `served` every answer ever given. */
  datatype World = World(nodes: map<Peer, Node>, offered: map<(Peer, string), Task>,
                         accepted: map<(Peer, string), Peer>, verdicts: set<(Peer, Peer, string)>,
                         polls: map<nat, Poll>, served: set<Served>, reliable: bool)

  /** `next` is the state the step leaves its node in. */
  datatype Event =
    | Local(n: Peer, a: Action, next: Node)    // a step of one node's handlers
    | Offer(n: Peer, task: Task)               // a fresh task is dispatched
    | Accepted(n: Peer, id: string, peer: Peer, ok: bool, next: Node)    // the first accept comes back
    | Ask(q: nat, n: Peer, id: string)
    | Serve(q: nat, response: Response, readable: bool)
    | Drop(q: nat)
    | Settle(q: nat, ok: bool, next: Node)     // a finished answer is recorded

  /** What the target of a poll can answer: anything when it is not one of ours. */
  predicate Answers(w: World, p: Poll, r: Response, readable: bool) {
    && (w.reliable ==> readable)
    && (p.target in w.nodes ==> r == if readable then Lookup(w.nodes[p.target].table, p.id, p.asker) else UNKNOWN)
  }

  /** What an accepted offer has its dispatcher write. */
  function Dispatched(id: string, task: Task, peer: Peer, ok: bool): Action {
    RecordSent(id, peer, task.kind, ok)
  }

  /** What a finished poll has its asker write. */
  function Recording(p: Poll, r: Response, ok: bool): Action {
    FinishSent(p.id, StoredStatus(r), r.output, StoredError(r), ok)
  }

  ghost predicate Possible(w: World, e: Event) {
    match e
    case Local(n, a, next) =>
      && n in w.nodes && !OfSent(a) && Step(w.nodes[n], a) == Some(next)
      && (a.Arrive? ==> Genuine(w, a.peer, a.task))
    case Offer(n, task) => n in w.nodes && (n, task.id) !in w.offered
    case Accepted(n, id, peer, ok, next) =>
      && n in w.nodes && (n, id) in w.offered && (n, id) !in w.accepted
      && (peer in w.nodes ==> (peer, n, id) in w.verdicts)
      && Step(w.nodes[n], Dispatched(id, w.offered[(n, id)], peer, ok)) == Some(next)
    case Ask(q, n, id) => n in w.nodes && q !in w.polls && (n, id) in w.accepted
    case Serve(q, r, readable) => q in w.polls && w.polls[q].answer.None? && Answers(w, w.polls[q], r, readable)
    case Drop(q) => q in w.polls
    case Settle(q, ok, next) =>
      && q in w.polls && w.polls[q].asker in w.nodes
      && w.polls[q].answer.Some? && IsFinished(w.polls[q].answer.value)
      && Step(w.nodes[w.polls[q].asker], Recording(w.polls[q], w.polls[q].answer.value, ok)) == Some(next)
  }

  /** The accept a step of node n sends out, if any. A verdict whose write failed may still
      have got through. */
  function Verdicts(n: Peer, s: Node, a: Action): set<(Peer, Peer, string)> {
    if (a.DeliverVerdict? || a.LoseVerdict?) && a.h in s.threads
    then {(n, s.threads[a.h].peer, s.threads[a.h].task.id)} else {}
  }

  ghost function After(w: World, e: Event): World
    requires Possible(w, e)
  {
    match e
    case Local(n, a, next) =>
      w.(nodes := w.nodes[n := next], verdicts := w.verdicts + Verdicts(n, w.nodes[n], a))
    case Offer(n, task) => w.(offered := w.offered[(n, task.id) := task])
    case Accepted(n, id, peer, ok, next) =>
      w.(accepted := w.accepted[(n, id) := peer], nodes := w.nodes[n := next])
    case Ask(q, n, id) => w.(polls := w.polls[q := Poll(n, w.accepted[(n, id)], id, None)])
    case Serve(q, r, _) =>
      var p := w.polls[q];
      w.(polls := w.polls[q := p.(answer := Some(r))], served := w.served + {Served(p.target, p.asker, p.id, r)})
    case Drop(q) => w.(polls := w.polls - {q})
    case Settle(q, ok, next) => w.(polls := w.polls - {q}, nodes := w.nodes[w.polls[q].asker := next])
  }

  // ----- invariant

  /** The row holds what a finished answer is stored as. */
  predicate Tells(row: Row, r: Response) {
    var s := Settled(row, StoredStatus(r), r.output, StoredError(r), 0);
    IsFinished(r) && row.status == s.status && row.output == s.output && row.error == s.error
  }

  predicate CutShort(row: Row) {
    row.status == Interrupted && row.error == RESTARTED && row.output == []
  }

  /** A settled sent row is the work of a restart, or of an answer from the peer it names. */
  ghost predicate Explained(w: World, n: Peer, id: string, row: Row) {
    || (row.status == Running && row.output == [])
    || CutShort(row)
    || exists r: Response :: Served(row.peer, n, id, r) in w.served && Tells(row, r)
  }

  ghost predicate SentRowOk(w: World, n: Peer, k: Key, row: Row) {
    k.role == Sent ==> (n, k.id) in w.accepted && row.peer == w.accepted[(n, k.id)] && Explained(w, n, k.id, row)
  }

  ghost predicate PollOk(w: World, p: Poll) {
    && (p.asker, p.id) in w.accepted && p.target == w.accepted[(p.asker, p.id)]
    && (p.answer.Some? ==> Served(p.target, p.asker, p.id, p.answer.value) in w.served)
  }

  /** A done answer by one of our nodes is the result of an execution there, for the asker. */
  ghost predicate ServedOk(w: World, v: Served) {
    v.giver in w.nodes && v.response.status == IsDone ==>
      && |v.response.output| <= MAX_OUTPUT
      && exists t: Task :: t.id == v.id && Outcome(v.to, t, Done, v.response.output) in w.nodes[v.giver].outcomes
  }

  /** Work done in the name of one of our nodes is work that node offered. */
  predicate Genuine(w: World, peer: Peer, task: Task) {
    peer in w.nodes ==> (peer, task.id) in w.offered && w.offered[(peer, task.id)] == task
  }

  ghost predicate AllGenuine(w: World, s: Node) {
    && (forall h :: h in s.threads ==> Genuine(w, s.threads[h].peer, s.threads[h].task))
    && (forall o :: o in s.outcomes ==> Genuine(w, o.peer, o.task))
  }

  ghost predicate SentOk(w: World, n: Peer, t: Table) {
    forall k :: k in t ==> SentRowOk(w, n, k, t[k])
  }

  ghost predicate NodeOk(w: World, n: Peer, s: Node) {
    TaskNode.Inv(s) && AllGenuine(w, s) && SentOk(w, n, s.table)
  }

  ghost predicate Inv(w: World) {
    && "" !in w.nodes
    && (forall n :: n in w.nodes ==> NodeOk(w, n, w.nodes[n]))
    && (forall q :: q in w.polls ==> PollOk(w, w.polls[q]))
    && (forall v :: v in w.served ==> ServedOk(w, v))
  }

  // ----- every event keeps it

  /** What never goes away. */
  ghost predicate Grows(w: World, w': World) {
    && w'.nodes.Keys == w.nodes.Keys && w'.reliable == w.reliable
    && (forall n :: n in w.nodes ==> w.nodes[n].outcomes <= w'.nodes[n].outcomes)
    && (forall x :: x in w.offered ==> x in w'.offered && w'.offered[x] == w.offered[x])
    && (forall x :: x in w.accepted ==> x in w'.accepted && w'.accepted[x] == w.accepted[x])
    && w.served <= w'.served
  }

  lemma GrowthKeepsNode(w: World, w': World, n: Peer, s: Node)
    requires Grows(w, w') && NodeOk(w, n, s)
    ensures NodeOk(w', n, s)
  {
    forall h | h in s.threads
      ensures Genuine(w', s.threads[h].peer, s.threads[h].task)
    {
      assert Genuine(w, s.threads[h].peer, s.threads[h].task);
    }
    forall o | o in s.outcomes
      ensures Genuine(w', o.peer, o.task)
    {
      assert Genuine(w, o.peer, o.task);
    }
    forall k | k in s.table
      ensures SentRowOk(w', n, k, s.table[k])
    {
      assert SentRowOk(w, n, k, s.table[k]);
    }
  }

  /** What an event has to show once nothing went away: the node it moved, the poll and the
      answer it made. */
  lemma Regrow(w: World, w': World)
    requires Inv(w) && Grows(w, w')
    requires forall n :: n in w.nodes && w'.nodes[n] != w.nodes[n] ==> NodeOk(w', n, w'.nodes[n])
    requires forall q :: q in w'.polls && (q !in w.polls || w'.polls[q] != w.polls[q]) ==> PollOk(w', w'.polls[q])
    requires forall v :: v in w'.served && v !in w.served ==> ServedOk(w', v)
    ensures Inv(w')
  {
    forall n | n in w'.nodes
      ensures NodeOk(w', n, w'.nodes[n])
    {
      GrowthKeepsNode(w, w', n, w.nodes[n]);
    }
    forall q | q in w'.polls
      ensures PollOk(w', w'.polls[q])
    {
      assert q in w.polls ==> PollOk(w, w.polls[q]);
    }
    forall v | v in w'.served
      ensures ServedOk(w', v)
    {
      assert v in w.served ==> ServedOk(w, v);
    }
  }

  /** An event that moves one node and makes no poll and no answer. */
  lemma OneNodeMoves(w: World, n: Peer, s': Node, w': World)
    requires Inv(w) && n in w.nodes && w'.nodes == w.nodes[n := s'] && w'.reliable == w.reliable
    requires w'.offered == w.offered && w'.served == w.served
    requires forall x :: x in w.accepted ==> x in w'.accepted && w'.accepted[x] == w.accepted[x]
    requires forall q :: q in w'.polls ==> q in w.polls && w'.polls[q] == w.polls[q]
    requires w.nodes[n].outcomes <= s'.outcomes
    requires TaskNode.Inv(s') && AllGenuine(w, s') && SentOk(w', n, s'.table)
    ensures Grows(w, w') && Inv(w')
  {
    forall h | h in s'.threads
      ensures Genuine(w', s'.threads[h].peer, s'.threads[h].task)
    {
      assert Genuine(w, s'.threads[h].peer, s'.threads[h].task);
    }
    forall o | o in s'.outcomes
      ensures Genuine(w', o.peer, o.task)
    {
      assert Genuine(w, o.peer, o.task);
    }
    Regrow(w, w');
  }

  lemma OutcomesGrow(s: Node, a: Action, s': Node)
    requires Step(s, a) == Some(s')
    ensures s.outcomes <= s'.outcomes
  {
  }

  /** A handler serves one offer from start to end. */
  lemma ThreadFrom(s: Node, a: Action, s': Node, h: nat)
    requires Step(s, a) == Some(s') && h in s'.threads
    ensures || (a.Arrive? && a.h == h && s'.threads[h].peer == a.peer && s'.threads[h].task == a.task)
            || (h in s.threads && s'.threads[h].peer == s.threads[h].peer && s'.threads[h].task == s.threads[h].task)
  {
  }

  lemma OutcomeFrom(s: Node, a: Action, s': Node, o: Outcome)
    requires Step(s, a) == Some(s') && o in s'.outcomes && o !in s.outcomes
    ensures a.RunEnds? && a.h in s.threads && o.peer == s.threads[a.h].peer && o.task == s.threads[a.h].task
  {
  }

  /** A step works only for dispatchers it was already working for, or one that just arrived. */
  lemma WorkStaysGenuine(w: World, s: Node, a: Action, s': Node)
    requires AllGenuine(w, s) && Step(s, a) == Some(s') && (a.Arrive? ==> Genuine(w, a.peer, a.task))
    ensures AllGenuine(w, s')
  {
    forall h | h in s'.threads
      ensures Genuine(w, s'.threads[h].peer, s'.threads[h].task)
    {
      ThreadFrom(s, a, s', h);
    }
    forall o | o in s'.outcomes
      ensures Genuine(w, o.peer, o.task)
    {
      if o !in s.outcomes {
        OutcomeFrom(s, a, s', o);
      }
    }
  }

  /** Handlers leave sent rows alone; a restart may settle one, a prune drop one. */
  lemma SentRowsUnder(s: Node, a: Action, s': Node, k: Key)
    requires Step(s, a) == Some(s') && !OfSent(a) && k in s'.table && k.role == Sent
    ensures k in s.table
    ensures s'.table[k] == s.table[k]
            || (s.table[k].status == Running
                && s'.table[k] == s.table[k].(status := Interrupted, error := RESTARTED, finishedAt := Some(s.now)))
  {
  }

  lemma LocalKeepsSent(w: World, w': World, n: Peer, s: Node, a: Action, s': Node)
    requires SentOk(w, n, s.table) && Step(s, a) == Some(s') && !OfSent(a)
    requires w'.accepted == w.accepted && w'.served == w.served
    ensures SentOk(w', n, s'.table)
  {
    forall k | k in s'.table && k.role == Sent
      ensures SentRowOk(w', n, k, s'.table[k])
    {
      SentRowsUnder(s, a, s', k);
      assert SentRowOk(w, n, k, s.table[k]);
    }
  }

  lemma LocalKeepsInv(w: World, n: Peer, a: Action, s': Node, w': World)
    requires Inv(w) && n in w.nodes && !OfSent(a) && Step(w.nodes[n], a) == Some(s')
    requires a.Arrive? ==> Genuine(w, a.peer, a.task)
    requires w' == w.(nodes := w.nodes[n := s'], verdicts := w'.verdicts)
    ensures Grows(w, w') && Inv(w')
  {
    var s := w.nodes[n];
    assert NodeOk(w, n, s);
    OutcomesGrow(s, a, s');
    StepKeepsInv(s, a, s');
    WorkStaysGenuine(w, s, a, s');
    LocalKeepsSent(w, w', n, s, a, s');
    OneNodeMoves(w, n, s', w');
  }

  lemma DispatchKeepsSent(w: World, w': World, n: Peer, id: string, task: Task, peer: Peer, ok: bool, s: Node, s': Node)
    requires SentOk(w, n, s.table) && Step(s, Dispatched(id, task, peer, ok)) == Some(s')
    requires w'.accepted == w.accepted[(n, id) := peer] && (n, id) !in w.accepted && w'.served == w.served
    ensures SentOk(w', n, s'.table)
    ensures s'.threads == s.threads && s'.outcomes == s.outcomes
  {
    forall k | k in s'.table
      ensures SentRowOk(w', n, k, s'.table[k])
    {
      assert k in s.table ==> SentRowOk(w, n, k, s.table[k]);
    }
  }

  lemma AcceptedKeepsInv(w: World, n: Peer, id: string, peer: Peer, ok: bool, s': Node, w': World)
    requires Inv(w) && n in w.nodes && (n, id) in w.offered && (n, id) !in w.accepted
    requires Step(w.nodes[n], Dispatched(id, w.offered[(n, id)], peer, ok)) == Some(s')
    requires w' == w.(accepted := w.accepted[(n, id) := peer], nodes := w.nodes[n := s'])
    ensures Grows(w, w') && Inv(w')
  {
    var s, task := w.nodes[n], w.offered[(n, id)];
    assert NodeOk(w, n, s);
    SentKeepsInv(s, Dispatched(id, task, peer, ok), s');
    DispatchKeepsSent(w, w', n, id, task, peer, ok, s, s');
    OneNodeMoves(w, n, s', w');
  }

  lemma RecordingKeepsSent(w: World, w': World, p: Poll, r: Response, ok: bool, s: Node, s': Node)
    requires PollOk(w, p) && p.answer == Some(r) && IsFinished(r)
    requires SentOk(w, p.asker, s.table) && Step(s, Recording(p, r, ok)) == Some(s')
    requires w'.accepted == w.accepted && w'.served == w.served
    ensures SentOk(w', p.asker, s'.table)
    ensures s'.threads == s.threads && s'.outcomes == s.outcomes
  {
    forall k | k in s'.table
      ensures SentRowOk(w', p.asker, k, s'.table[k])
    {
      assert SentRowOk(w, p.asker, k, s.table[k]);
      if s'.table[k] != s.table[k] {
        assert Tells(s'.table[k], r);
      }
    }
  }

  lemma SettleKeepsInv(w: World, q: nat, p: Poll, r: Response, ok: bool, s': Node, w': World)
    requires Inv(w) && p.asker in w.nodes && PollOk(w, p) && p.answer == Some(r) && IsFinished(r)
    requires Step(w.nodes[p.asker], Recording(p, r, ok)) == Some(s')
    requires w' == w.(polls := w.polls - {q}, nodes := w.nodes[p.asker := s'])
    ensures Grows(w, w') && Inv(w')
  {
    var s := w.nodes[p.asker];
    assert NodeOk(w, p.asker, s);
    SentKeepsInv(s, Recording(p, r, ok), s');
    RecordingKeepsSent(w, w', p, r, ok, s, s');
    OneNodeMoves(w, p.asker, s', w');
  }

  lemma HonestAnswer(w: World, p: Poll, r: Response, readable: bool)
    requires Inv(w) && Answers(w, p, r, readable)
    ensures ServedOk(w, Served(p.target, p.asker, p.id, r))
  {
    if p.target in w.nodes && r.status == IsDone {
      var s := w.nodes[p.target];
      assert NodeOk(w, p.target, s);
      assert RowHonest(s, Key(p.id, Received));
    }
  }

  lemma ServeKeepsInv(w: World, e: Event)
    requires Inv(w) && Possible(w, e) && e.Serve?
    ensures Grows(w, After(w, e)) && Inv(After(w, e))
  {
    assert PollOk(w, w.polls[e.q]);
    HonestAnswer(w, w.polls[e.q], e.response, e.readable);
    Regrow(w, After(w, e));
  }

  lemma LocalEvent(w: World, e: Event)
    requires Inv(w) && Possible(w, e) && e.Local?
    ensures Grows(w, After(w, e)) && Inv(After(w, e))
  {
    LocalKeepsInv(w, e.n, e.a, e.next, After(w, e));
  }

  lemma AcceptedEvent(w: World, e: Event)
    requires Inv(w) && Possible(w, e) && e.Accepted?
    ensures Grows(w, After(w, e)) && Inv(After(w, e))
  {
    AcceptedKeepsInv(w, e.n, e.id, e.peer, e.ok, e.next, After(w, e));
  }

  lemma SettleEvent(w: World, e: Event)
    requires Inv(w) && Possible(w, e) && e.Settle?
    ensures Grows(w, After(w, e)) && Inv(After(w, e))
  {
    assert PollOk(w, w.polls[e.q]);
    SettleKeepsInv(w, e.q, w.polls[e.q], w.polls[e.q].answer.value, e.ok, e.next, After(w, e));
  }

  lemma QuietEvent(w: World, e: Event)
    requires Inv(w) && Possible(w, e) && (e.Offer? || e.Ask? || e.Drop?)
    ensures Grows(w, After(w, e)) && Inv(After(w, e))
  {
    Regrow(w, After(w, e));
  }

  /** Whatever the other peers answer, and whatever is lost, an event keeps the invariant. */
  lemma EventKeepsInv(w: World, e: Event)
    requires Inv(w) && Possible(w, e)
    ensures Grows(w, After(w, e)) && Inv(After(w, e))
  {
    if e.Local? {
      LocalEvent(w, e);
    } else if e.Accepted? {
      AcceptedEvent(w, e);
    } else if e.Settle? {
      SettleEvent(w, e);
    } else if e.Serve? {
      ServeKeepsInv(w, e);
    } else {
      QuietEvent(w, e);
    }
  }

  // ----- agreement

  function SentRow(w: World, n: Peer, id: string): Option<Row> {
    if n in w.nodes && Key(id, Sent) in w.nodes[n].table then Some(w.nodes[n].table[Key(id, Sent)]) else None
  }

  /** What settled a row. */
  lemma SettledBy(w: World, n: Peer, id: string, row: Row) returns (r: Response)
    requires Inv(w) && SentRow(w, n, id) == Some(row) && Terminal(row.status) && !CutShort(row)
    ensures n != "" && Served(row.peer, n, id, r) in w.served && Tells(row, r)
  {
    assert NodeOk(w, n, w.nodes[n]);
    assert SentRowOk(w, n, Key(id, Sent), row);
    r :| Served(row.peer, n, id, r) in w.served && Tells(row, r);
  }

  /** When a dispatcher's row says done with output o, and it names one of our nodes, that node
      executed exactly the task that was offered, for this dispatcher, and o is what came out. */
  lemma DoneMeansExecuted(w: World, n: Peer, id: string, row: Row)
    requires Inv(w) && SentRow(w, n, id) == Some(row) && row.status == Done && row.peer in w.nodes
    ensures (n, id) in w.offered && Outcome(n, w.offered[(n, id)], Done, row.output) in w.nodes[row.peer].outcomes
    ensures |row.output| <= MAX_OUTPUT
  {
    var r := SettledBy(w, n, id, row);
    assert NodeOk(w, row.peer, w.nodes[row.peer]);
    assert ServedOk(w, Served(row.peer, n, id, r));
    var t: Task :| t.id == id && Outcome(n, t, Done, r.output) in w.nodes[row.peer].outcomes;
    assert Genuine(w, n, t);
  }

  // ----- whole runs

  ghost predicate Moves(w: World, w': World) {
    exists e :: Possible(w, e) && w' == After(w, e)
  }

  lemma MoveKeepsInv(w: World, w': World)
    requires Inv(w) && Moves(w, w')
    ensures Grows(w, w') && Inv(w')
  {
    var e :| Possible(w, e) && w' == After(w, e);
    EventKeepsInv(w, e);
  }

  /** Nothing has been dispatched or asked yet. */
  ghost predicate Start(w: World) {
    && "" !in w.nodes && w.offered == map[] && w.accepted == map[] && w.polls == map[]
    && w.verdicts == {} && w.served == {}
    && forall n :: n in w.nodes ==> w.nodes[n] == Fresh(map[], w.nodes[n].acl, w.nodes[n].kinds)
  }

  lemma StartInv(w: World)
    requires Start(w)
    ensures Inv(w)
  {
    forall n | n in w.nodes
      ensures NodeOk(w, n, w.nodes[n])
    {
      FreshInv(map[], w.nodes[n].acl, w.nodes[n].kinds);
    }
  }

  ghost predicate WorldRun(ws: seq<World>) {
    var n := |ws| - 1;
    && ws != []
    && if n == 0 then Start(ws[0]) else WorldRun(ws[..n]) && Moves(ws[n - 1], ws[n])
  }

  lemma {:induction false} PrefixRuns(ws: seq<World>, k: nat)
    requires WorldRun(ws) && k < |ws|
    ensures WorldRun(ws[..k + 1])
  {
    var n := |ws| - 1;
    if k == n {
      assert ws[..k + 1] == ws;
    } else {
      PrefixRuns(ws[..n], k);
      assert ws[..n][..k + 1] == ws[..k + 1];
    }
  }

  lemma {:induction false} RunKeepsInv(ws: seq<World>)
    requires WorldRun(ws)
    ensures Inv(ws[|ws| - 1])
  {
    var n := |ws| - 1;
    if n == 0 {
      StartInv(ws[0]);
    } else {
      RunKeepsInv(ws[..n]);
      MoveKeepsInv(ws[n - 1], ws[n]);
    }
  }

  lemma {:induction false} RunKeepsNodes(ws: seq<World>)
    requires WorldRun(ws)
    ensures ws[|ws| - 1].nodes.Keys == ws[0].nodes.Keys && ws[|ws| - 1].reliable == ws[0].reliable
  {
    var n := |ws| - 1;
    if n > 0 {
      RunKeepsNodes(ws[..n]);
      RunKeepsInv(ws[..n]);
      MoveKeepsInv(ws[n - 1], ws[n]);
    }
  }

  /** The answer is what the giver's table said in w. */
  predicate SaidIn(w: World, v: Served) {
    v.giver in w.nodes && v.response == Lookup(w.nodes[v.giver].table, v.id, v.to)
  }

  lemma ServedBy(w: World, e: Event, v: Served)
    requires Possible(w, e) && v in After(w, e).served && v !in w.served
    ensures e.Serve? && v == Served(w.polls[e.q].target, w.polls[e.q].asker, w.polls[e.q].id, e.response)
    ensures Answers(w, w.polls[e.q], e.response, e.readable)
  {
  }

  /** It went to a dispatcher whose task the giver had accepted. */
  predicate OwedIn(w: World, v: Served) {
    (v.to, v.id) in w.accepted && w.accepted[(v.to, v.id)] == v.giver
  }

  lemma AnswerGiven(w: World, w': World, v: Served)
    requires Inv(w) && Moves(w, w') && v in w'.served && v !in w.served && v.giver in w.nodes
    ensures OwedIn(w, v) && ((v.response == UNKNOWN && !w.reliable) || SaidIn(w, v))
  {
    var e :| Possible(w, e) && w' == After(w, e);
    ServedBy(w, e, v);
    assert PollOk(w, w.polls[e.q]);
  }

  lemma LastAnswer(ws: seq<World>, n: nat, v: Served)
    requires WorldRun(ws) && n == |ws| - 1 > 0 && v in ws[n].served && v !in ws[n - 1].served
    requires v.giver in ws[0].nodes
    ensures OwedIn(ws[n - 1], v) && ((v.response == UNKNOWN && !ws[0].reliable) || SaidIn(ws[n - 1], v))
  {
    RunKeepsNodes(ws[..n]);
    RunKeepsInv(ws[..n]);
    AnswerGiven(ws[n - 1], ws[n], v);
  }

  /** Every answer one of our nodes gave was read from its table at some moment of the run,
      or its table could not be read. */
  lemma {:induction false} AnswersWereTrue(ws: seq<World>, v: Served) returns (k: nat)
    requires WorldRun(ws) && v in ws[|ws| - 1].served && v.giver in ws[0].nodes
    ensures k < |ws| && OwedIn(ws[k], v) && ((v.response == UNKNOWN && !ws[0].reliable) || SaidIn(ws[k], v))
  {
    var n := |ws| - 1;
    if v in ws[n - 1].served {
      k := AnswersWereTrue(ws[..n], v);
    } else {
      LastAnswer(ws, n, v);
      k := n - 1;
    }
  }

  // ----- a row that an accept went out for

  predicate HasRow(w: World, m: Peer, n: Peer, id: string) {
    m in w.nodes && ReceivedFor(w.nodes[m].table, id, n).Some?
  }

  /** The row of dispatcher n is settled in w, and no longer there in w'. */
  predicate PrunedBetween(w: World, w': World, m: Peer, n: Peer, id: string) {
    && HasRow(w, m, n, id) && Terminal(ReceivedFor(w.nodes[m].table, id, n).value.status)
    && !HasRow(w', m, n, id)
  }

  /** At some moment of the run. */
  ghost predicate PrunedIn(ws: seq<World>, m: Peer, n: Peer, id: string) {
    exists i :: 0 < i < |ws| && PrunedBetween(ws[i - 1], ws[i], m, n, id)
  }

  lemma RowStaysOrGoes(w: World, w': World, m: Peer, n: Peer, id: string)
    requires Inv(w) && Moves(w, w') && HasRow(w, m, n, id)
    ensures HasRow(w', m, n, id) || PrunedBetween(w, w', m, n, id)
  {
    var a := EventAsStep(w, w', m);
    var s, s' := w.nodes[m], w'.nodes[m];
    if s' != s {
      assert NodeOk(w, m, s);
      RowLifecycle(s, a, s', Key(id, Received));
    }
  }

  lemma VerdictFrom(w: World, e: Event, m: Peer, n: Peer, id: string)
    requires Possible(w, e) && (m, n, id) in After(w, e).verdicts && (m, n, id) !in w.verdicts
    ensures e.Local? && e.n == m && m in w.nodes && (e.a.DeliverVerdict? || e.a.LoseVerdict?)
    ensures After(w, e).nodes == w.nodes[m := e.next] && Step(w.nodes[m], e.a) == Some(e.next)
    ensures InPhase(w.nodes[m], e.a.h, Recorded)
    ensures w.nodes[m].threads[e.a.h].peer == n && w.nodes[m].threads[e.a.h].task.id == id
  {
  }

  lemma VerdictHasRow(w: World, w': World, m: Peer, n: Peer, id: string)
    requires Inv(w) && Moves(w, w') && (m, n, id) in w'.verdicts && (m, n, id) !in w.verdicts
    ensures HasRow(w', m, n, id)
  {
    var e :| Possible(w, e) && w' == After(w, e);
    VerdictFrom(w, e, m, n, id);
    assert NodeOk(w, m, w.nodes[m]);
    AcceptHasRow(w.nodes[m], e.a.h);
    TableUntouched(w.nodes[m], e.a, e.next);
  }

  /** Over any run: a node that sent an accept has the row it stands for, or had it, settled it and
      pruned it afterwards. */
  lemma {:induction false} AcceptedRow(ws: seq<World>, m: Peer, n: Peer, id: string)
    requires WorldRun(ws) && (m, n, id) in ws[|ws| - 1].verdicts
    ensures || HasRow(ws[|ws| - 1], m, n, id)
            || PrunedIn(ws, m, n, id)
  {
    var k := |ws| - 1;
    assert k > 0;
    RunKeepsInv(ws[..k]);
    if (m, n, id) !in ws[k - 1].verdicts {
      VerdictHasRow(ws[k - 1], ws[k], m, n, id);
    } else {
      AcceptedRow(ws[..k], m, n, id);
      if HasRow(ws[k - 1], m, n, id) {
        RowStaysOrGoes(ws[k - 1], ws[k], m, n, id);
      } else {
        EarlierPruned(ws, k, m, n, id);
      }
    }
  }

  lemma EarlierPruned(ws: seq<World>, k: nat, m: Peer, n: Peer, id: string)
    requires k <= |ws| && PrunedIn(ws[..k], m, n, id)
    ensures PrunedIn(ws, m, n, id)
  {
    var i :| 0 < i < k && PrunedBetween(ws[..k][i - 1], ws[..k][i], m, n, id);
    assert PrunedBetween(ws[i - 1], ws[i], m, n, id);
  }

  /** A dispatcher has its accept from one of our nodes only if that node sent it. */
  predicate AcceptsSent(w: World) {
    forall x :: x in w.accepted && w.accepted[x] in w.nodes ==> (w.accepted[x], x.0, x.1) in w.verdicts
  }

  lemma AcceptedFrom(w: World, e: Event, x: (Peer, string))
    requires Possible(w, e) && x in After(w, e).accepted
    ensures w.verdicts <= After(w, e).verdicts
    ensures || (x in w.accepted && After(w, e).accepted[x] == w.accepted[x])
            || (After(w, e).accepted[x] in w.nodes ==> (After(w, e).accepted[x], x.0, x.1) in w.verdicts)
  {
  }

  lemma MoveKeepsAccepts(w: World, w': World)
    requires AcceptsSent(w) && Moves(w, w') && w'.nodes.Keys == w.nodes.Keys
    ensures AcceptsSent(w')
  {
    var e :| Possible(w, e) && w' == After(w, e);
    forall x | x in w'.accepted && w'.accepted[x] in w'.nodes
      ensures (w'.accepted[x], x.0, x.1) in w'.verdicts
    {
      AcceptedFrom(w, e, x);
    }
  }

  lemma {:induction false} RunAcceptsSent(ws: seq<World>)
    requires WorldRun(ws)
    ensures AcceptsSent(ws[|ws| - 1])
  {
    var n := |ws| - 1;
    if n > 0 {
      RunAcceptsSent(ws[..n]);
      RunKeepsInv(ws[..n]);
      MoveKeepsInv(ws[n - 1], ws[n]);
      MoveKeepsAccepts(ws[n - 1], ws[n]);
    }
  }

  // ----- what a settled row on the dispatcher's side means

  /** The executor's table shows, for this dispatcher, the settled outcome the row holds. */
  predicate Shows(w: World, n: Peer, id: string, row: Row) {
    row.peer in w.nodes &&
    match ReceivedFor(w.nodes[row.peer].table, id, n)
    case None => false
    case Some(r) => Terminal(r.status) && row.status == r.status && row.output == r.output && row.error == r.error
  }

  /** What the row says when the executor had no record to show. */
  predicate NoRecord(row: Row) {
    row.status == Failed && row.output == [] && row.error == NO_RECORD
  }

  lemma AnswerShows(w: World, n: Peer, id: string, row: Row, r: Response)
    requires Inv(w) && row.peer in w.nodes && n != ""
    requires SaidIn(w, Served(row.peer, n, id, r)) && Tells(row, r)
    ensures if HasRow(w, row.peer, n, id) then Shows(w, n, id, row) else NoRecord(row)
  {
    var s := w.nodes[row.peer];
    assert NodeOk(w, row.peer, s);
    if Key(id, Received) in s.table {
      assert RowHonest(s, Key(id, Received));
    }
  }

  lemma AnswerBehind(ws: seq<World>, n: Peer, id: string, row: Row) returns (r: Response, k: nat)
    requires WorldRun(ws) && SentRow(ws[|ws| - 1], n, id) == Some(row)
    requires Terminal(row.status) && !CutShort(row) && row.peer in ws[0].nodes
    ensures n != "" && Tells(row, r) && k < |ws| && OwedIn(ws[k], Served(row.peer, n, id, r))
    ensures (r == UNKNOWN && !ws[0].reliable) || SaidIn(ws[k], Served(row.peer, n, id, r))
  {
    RunKeepsInv(ws);
    r := SettledBy(ws[|ws| - 1], n, id, row);
    k := AnswersWereTrue(ws, Served(row.peer, n, id, r));
  }

  lemma AnswerShowsInRun(ws: seq<World>, k: nat, n: Peer, id: string, row: Row, r: Response)
    requires WorldRun(ws) && k < |ws| && row.peer in ws[0].nodes && n != "" && Tells(row, r)
    requires SaidIn(ws[k], Served(row.peer, n, id, r))
    ensures if HasRow(ws[k], row.peer, n, id) then Shows(ws[k], n, id, row) else NoRecord(row)
  {
    PrefixRuns(ws, k);
    RunKeepsInv(ws[..k + 1]);
    AnswerShows(ws[k], n, id, row, r);
  }

  /** A dispatcher whose task was accepted by one of our nodes, and which that node has no row for,
      had one there that was settled and then pruned. */
  lemma OwedButGone(ws: seq<World>, w: World, v: Served)
    requires WorldRun(ws) && w == ws[|ws| - 1] && v.giver in ws[0].nodes && OwedIn(w, v)
    requires !HasRow(w, v.giver, v.to, v.id)
    ensures PrunedIn(ws, v.giver, v.to, v.id)
  {
    RunKeepsNodes(ws);
    RunAcceptsSent(ws);
    AcceptedRow(ws, v.giver, v.to, v.id);
  }

  lemma OwedButGoneAt(ws: seq<World>, k: nat, before: seq<World>, v: Served)
    requires WorldRun(before) && k < |ws| && before == ws[..k + 1] && v.giver in before[0].nodes
    requires OwedIn(before[k], v) && !HasRow(before[k], v.giver, v.to, v.id)
    ensures PrunedIn(ws, v.giver, v.to, v.id)
  {
    OwedButGone(before, before[k], v);
    EarlierPruned(ws, k + 1, v.giver, v.to, v.id);
  }

  /** At some moment of the run. */
  ghost predicate ShownIn(ws: seq<World>, n: Peer, id: string, row: Row) {
    exists k :: 0 <= k < |ws| && Shows(ws[k], n, id, row)
  }

  lemma AnswerMeans(ws: seq<World>, k: nat, n: Peer, id: string, row: Row, r: Response)
    requires WorldRun(ws) && k < |ws| && row.peer in ws[0].nodes && n != "" && Tells(row, r)
    requires OwedIn(ws[k], Served(row.peer, n, id, r)) && SaidIn(ws[k], Served(row.peer, n, id, r))
    ensures ShownIn(ws, n, id, row) || (NoRecord(row) && PrunedIn(ws, row.peer, n, id))
  {
    AnswerShowsInRun(ws, k, n, id, row, r);
    if !HasRow(ws[k], row.peer, n, id) {
      PrefixRuns(ws, k);
      OwedButGoneAt(ws, k, ws[..k + 1], Served(row.peer, n, id, r));
    }
  }

  lemma UnknownMeans(row: Row)
    requires Tells(row, UNKNOWN)
    ensures NoRecord(row)
  {
  }

  /** Two-node agreement: whatever settled outcome a dispatcher has recorded for a task that one of
      our nodes took, either its own restart cut it short, or the executor's table held exactly that
      outcome at some moment of the run, or it is the failure "no record". That one is recorded only
      when the executor's table could not be read, or had this dispatcher's row, settled it and has
      pruned it since; never because the task was not taken or is still running. */
  lemma Agreement(ws: seq<World>, n: Peer, id: string, row: Row)
    requires WorldRun(ws) && SentRow(ws[|ws| - 1], n, id) == Some(row)
    requires Terminal(row.status) && row.peer in ws[0].nodes
    ensures || CutShort(row)
            || ShownIn(ws, n, id, row)
            || (NoRecord(row) && (!ws[0].reliable || PrunedIn(ws, row.peer, n, id)))
  {
    if !CutShort(row) {
      var r, k := AnswerBehind(ws, n, id, row);
      if r == UNKNOWN && !ws[0].reliable {
        UnknownMeans(row);
      } else {
        AnswerMeans(ws, k, n, id, row, r);
      }
    }
  }

  predicate Keeps(w: World, n: Peer, id: string) {
    n in w.nodes && Key(id, Received) in w.nodes[n].table
  }

  lemma LocalAsStep(w: World, e: Event, n: Peer)
    requires Possible(w, e) && e.Local? && n in w.nodes
    ensures var w' := After(w, e);
            n in w'.nodes && (w'.nodes[n] == w.nodes[n] || Step(w.nodes[n], e.a) == Some(w'.nodes[n]))
  {
  }

  lemma AcceptedAsStep(w: World, e: Event, n: Peer)
    requires Possible(w, e) && e.Accepted? && n in w.nodes
    ensures var w' := After(w, e); var a := Dispatched(e.id, w.offered[(e.n, e.id)], e.peer, e.ok);
            n in w'.nodes && (w'.nodes[n] == w.nodes[n] || Step(w.nodes[n], a) == Some(w'.nodes[n]))
  {
  }

  lemma SettleAsStep(w: World, e: Event, n: Peer)
    requires Possible(w, e) && e.Settle? && n in w.nodes
    ensures var w' := After(w, e); var a := Recording(w.polls[e.q], w.polls[e.q].answer.value, e.ok);
            n in w'.nodes && (w'.nodes[n] == w.nodes[n] || Step(w.nodes[n], a) == Some(w'.nodes[n]))
  {
  }

  /** An event is a step of a node, or does nothing to it. */
  lemma EventAsStep(w: World, w': World, n: Peer) returns (a: Action)
    requires Moves(w, w') && n in w.nodes
    ensures n in w'.nodes && (w'.nodes[n] == w.nodes[n] || Step(w.nodes[n], a) == Some(w'.nodes[n]))
  {
    var e :| Possible(w, e) && w' == After(w, e);
    if e.Local? {
      a := e.a;
      LocalAsStep(w, e, n);
    } else if e.Accepted? {
      a := Dispatched(e.id, w.offered[(e.n, e.id)], e.peer, e.ok);
      AcceptedAsStep(w, e, n);
    } else if e.Settle? {
      a := Recording(w.polls[e.q], w.polls[e.q].answer.value, e.ok);
      SettleAsStep(w, e, n);
    } else {
      a := Cancel;
    }
  }

  /** No event, on whichever node, changes a settled received row that is kept. */
  lemma SettledStays(w: World, w': World, n: Peer, id: string)
    requires Inv(w) && Moves(w, w') && Keeps(w, n, id) && Keeps(w', n, id)
    requires Terminal(w.nodes[n].table[Key(id, Received)].status)
    ensures w'.nodes[n].table[Key(id, Received)] == w.nodes[n].table[Key(id, Received)]
  {
    var a := EventAsStep(w, w', n);
    var s, s' := w.nodes[n], w'.nodes[n];
    if s' != s {
      assert NodeOk(w, n, s);
      RowLifecycle(s, a, s', Key(id, Received));
    }
  }

  lemma MovesAt(ws: seq<World>, k: nat)
    requires WorldRun(ws) && k + 1 < |ws|
    ensures Moves(ws[k], ws[k + 1])
  {
    PrefixRuns(ws, k + 1);
    assert WorldRun(ws[..k + 2][..k + 1]);
  }

  lemma MoveShows(ws: seq<World>, k: nat, n: Peer, id: string, row: Row)
    requires WorldRun(ws) && k + 1 < |ws| && Shows(ws[k], n, id, row) && Keeps(ws[k + 1], row.peer, id)
    ensures Shows(ws[k + 1], n, id, row)
  {
    PrefixRuns(ws, k);
    RunKeepsInv(ws[..k + 1]);
    MovesAt(ws, k);
    SettledStays(ws[k], ws[k + 1], row.peer, id);
  }

  /** And what the executor showed once it still shows at the end, if it kept the row. */
  lemma {:induction false} StillShows(ws: seq<World>, k: nat, n: Peer, id: string, row: Row)
    requires WorldRun(ws) && k < |ws| && Shows(ws[k], n, id, row)
    requires forall j :: k <= j < |ws| ==> Keeps(ws[j], row.peer, id)
    ensures Shows(ws[|ws| - 1], n, id, row)
    decreases |ws| - k
  {
    if k + 1 < |ws| {
      MoveShows(ws, k, n, id, row);
      StillShows(ws, k + 1, n, id, row);
    }
  }

  // ----- what can happen

  /** Every step of a node's handlers is open to it in the world; an offer can arrive when it is
      genuine. */
  lemma NodesCanStep(w: World, n: Peer, a: Action)
    requires n in w.nodes && !OfSent(a) && Step(w.nodes[n], a).Some?
    requires a.Arrive? ==> Genuine(w, a.peer, a.task)
    ensures exists w' :: Moves(w, w') && w'.nodes == w.nodes[n := Step(w.nodes[n], a).value]
  {
    var e := Local(n, a, Step(w.nodes[n], a).value);
    assert Possible(w, e);
    assert Moves(w, After(w, e));
  }

  /** An accept that was sent can reach its dispatcher, who then names that node in a running row. */
  lemma AcceptCanArrive(w: World, n: Peer, id: string, m: Peer) returns (w': World)
    requires n in w.nodes && (n, id) in w.offered && (n, id) !in w.accepted && (m, n, id) in w.verdicts
    requires Key(id, Sent) !in w.nodes[n].table
    ensures Moves(w, w') && (n, id) in w'.accepted && w'.accepted[(n, id)] == m
    ensures SentRow(w', n, id).Some? && SentRow(w', n, id).value.peer == m
    ensures SentRow(w', n, id).value.status == Running
  {
    var a := Dispatched(id, w.offered[(n, id)], m, true);
    var e := Accepted(n, id, m, true, Step(w.nodes[n], a).value);
    assert Possible(w, e);
    w' := After(w, e);
  }

  /** One poll: ask, answer, store. */
  lemma CanPoll(w: World, n: Peer, id: string, q: nat, m: Peer, r: Response) returns (w1: World, w2: World, w3: World)
    requires n in w.nodes && q !in w.polls && (n, id) in w.accepted && w.accepted[(n, id)] == m && m in w.nodes
    requires r == Lookup(w.nodes[m].table, id, n) && IsFinished(r)
    ensures Moves(w, w1) && Moves(w1, w2) && Moves(w2, w3)
    ensures w3.nodes == w.nodes[n := Step(w.nodes[n], Recording(Poll(n, m, id, Some(r)), r, true)).value]
  {
    var p := Poll(n, m, id, None);
    var e1 := Ask(q, n, id);
    assert Possible(w, e1);
    w1 := After(w, e1);
    assert w1 == w.(polls := w.polls[q := p]);
    var e2 := Serve(q, r, true);
    assert Possible(w1, e2);
    w2 := After(w1, e2);
    assert w2.polls[q] == p.(answer := Some(r)) && w2.nodes == w.nodes;
    var e3 := Settle(q, true, Step(w.nodes[n], Recording(p.(answer := Some(r)), r, true)).value);
    assert Possible(w2, e3);
    w3 := After(w2, e3);
  }

  lemma RecordingStep(s: Node, p: Poll, r: Response)
    requires Key(p.id, Sent) in s.table
    ensures var k := Key(p.id, Sent);
            Step(s, Recording(p, r, true)) ==
            Some(s.(table := s.table[k := Settled(s.table[k], StoredStatus(r), r.output, StoredError(r), s.now)]))
  {
  }

  lemma SettledAsServed(row: Row, theirs: Row, r: Response, now: int)
    requires Terminal(theirs.status) && |theirs.output| <= MAX_OUTPUT && (theirs.status != Done ==> theirs.output == [])
    requires StoredStatus(r) == theirs.status && StoredError(r) == theirs.error && r.output == theirs.output
    ensures var mine := Settled(row, StoredStatus(r), r.output, StoredError(r), now);
            && mine.status == theirs.status && mine.output == theirs.output && mine.error == theirs.error
            && mine.peer == row.peer
  {
  }

  lemma TheirRow(w: World, m: Peer, n: Peer, id: string)
    requires Inv(w) && n in w.nodes && HasRow(w, m, n, id)
    ensures var theirs := ReceivedFor(w.nodes[m].table, id, n).value; var r := Lookup(w.nodes[m].table, id, n);
            && |theirs.output| <= MAX_OUTPUT && (theirs.status != Done ==> theirs.output == [])
            && (Terminal(theirs.status) ==> IsFinished(r) && StoredStatus(r) == theirs.status)
            && (Terminal(theirs.status) ==> StoredError(r) == theirs.error && r.output == theirs.output)
  {
    assert NodeOk(w, m, w.nodes[m]);
    assert RowHonest(w.nodes[m], Key(id, Received));
    OnlyTheDispatcherSees(w.nodes[m].table, id, n);
  }

  lemma Learnt(w: World, w': World, n: Peer, id: string, m: Peer, mine: Row)
    requires n in w.nodes && HasRow(w, m, n, id) && mine.peer == m
    requires var s := w.nodes[n]; w'.nodes == w.nodes[n := s.(table := s.table[Key(id, Sent) := mine])]
    requires var theirs := ReceivedFor(w.nodes[m].table, id, n).value;
             && Terminal(theirs.status)
             && mine.status == theirs.status && mine.output == theirs.output && mine.error == theirs.error
    ensures SentRow(w', n, id) == Some(mine) && Shows(w', n, id, mine)
  {
  }

  /** From wherever a run has come to: when the executor has settled its row, three more events are
      enough for the dispatcher to hold that outcome. */
  lemma CanLearn(w: World, n: Peer, id: string, q: nat) returns (w1: World, w2: World, w3: World)
    requires Inv(w) && n in w.nodes && q !in w.polls && SentRow(w, n, id).Some?
    requires var m := SentRow(w, n, id).value.peer;
             HasRow(w, m, n, id) && Terminal(ReceivedFor(w.nodes[m].table, id, n).value.status)
    ensures Moves(w, w1) && Moves(w1, w2) && Moves(w2, w3)
    ensures SentRow(w3, n, id).Some? && Shows(w3, n, id, SentRow(w3, n, id).value)
  {
    var s := w.nodes[n];
    var row := s.table[Key(id, Sent)];
    var m := row.peer;
    var r := Lookup(w.nodes[m].table, id, n);
    SentNames(w, n, id, row);
    TheirRow(w, m, n, id);
    w1, w2, w3 := CanPoll(w, n, id, q, m, r);
    RecordingStep(s, Poll(n, m, id, Some(r)), r);
    SettledAsServed(row, ReceivedFor(w.nodes[m].table, id, n).value, r, s.now);
    Learnt(w, w3, n, id, m, Settled(row, StoredStatus(r), r.output, StoredError(r), s.now));
  }

  lemma SentNames(w: World, n: Peer, id: string, row: Row)
    requires Inv(w) && SentRow(w, n, id) == Some(row)
    ensures (n, id) in w.accepted && w.accepted[(n, id)] == row.peer
  {
    assert NodeOk(w, n, w.nodes[n]);
    assert SentRowOk(w, n, Key(id, Sent), row);
  }
}
