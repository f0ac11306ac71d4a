/** The dispatcher's side of a task: offer it to one peer after the other until one accepts, then
    poll that peer, ever more slowly, until it has an answer or time is up. */
module Dispatch {
  import opened Stream
  import opened TaskResult
  import opened TaskStore
  import opened Wire
  import opened Wrappers
  import opened TN = TaskNode

  // ----- offering

  /** ExchangeAsDialer: the dialer speaks first. */
  method ExchangeAsDialer<H(!new)>(c: Conn, hellos: Codec<H>, self: H) returns (r: Result<H, Option<WireError>>)
    modifies c
    ensures var f := PrintJson(HELLO, hellos, self);
            if |f| > old(c.room) then r == Err(None)
            else
              && c.written == old(c.written) + f && c.room == old(c.room) - |f|
              && match ParseJson(HELLO, hellos, old(c.pending), c.ending)
                 case Got(peer, rest) => r == Ok(peer) && c.pending == rest
                 case Bad(e, _) => r == Err(Some(e))
  {
    ghost var f := PrintJson(HELLO, hellos, self);
    assert f[..|f|] == f;
    var lost := WriteJson(c, HELLO, hellos, self);
    if lost.Some? {
      return Err(None);
    }
    var p := ReadJson(c, HELLO, hellos);
    match p {
      case Got(peer, _) => r := Ok(peer);
      case Bad(e, _) => r := Err(Some(e));
    }
  }

  /** Offer: nothing but an accept verdict counts as accepted. */
  method Offer(c: Conn, tasks: Codec<Task>, t: Task) returns (accepted: bool)
    modifies c
    ensures var p := ParseVerdict(old(c.pending), c.ending);
            accepted <==> |PrintJson(TASK, tasks, t)| <= old(c.room) && p.Got? && p.value.None?
    ensures accepted ==> c.written == old(c.written) + PrintJson(TASK, tasks, t)
  {
    ghost var f := PrintJson(TASK, tasks, t);
    assert f[..|f|] == f;
    var lost := WriteJson(c, TASK, tasks, t);
    if lost.Some? {
      return false;
    }
    var p := ReadVerdict(c);
    return p.Got? && p.value.None?;
  }

  /** The peer behind the connection says hello and takes the task. */
  ghost predicate Takes<H(!new)>(c: Conn, hellos: Codec<H>, self: H, tasks: Codec<Task>, t: Task)
    reads c
  {
    && |PrintJson(HELLO, hellos, self)| + |PrintJson(TASK, tasks, t)| <= c.room
    && match ParseJson(HELLO, hellos, c.pending, c.ending)
       case Bad(_, _) => false
       case Got(_, rest) => ParseVerdict(rest, c.ending).Got? && ParseVerdict(rest, c.ending).value.None?
  }

  method TryPeer<H(!new)>(c: Conn, hellos: Codec<H>, self: H, tasks: Codec<Task>, t: Task) returns (accepted: bool)
    modifies c
    ensures accepted <==> old(Takes(c, hellos, self, tasks, t))
    ensures accepted ==> c.written == old(c.written) + PrintJson(HELLO, hellos, self) + PrintJson(TASK, tasks, t)
  {
    var r := ExchangeAsDialer(c, hellos, self);
    if r.Err? {
      return false;
    }
    accepted := Offer(c, tasks, t);
  }

  /** A peer to offer to; line is its connection when it could be dialled. */
  datatype Candidate = Candidate(peer: Peer, line: Option<Conn>)

  ghost predicate Willing<H(!new)>(d: Candidate, hellos: Codec<H>, self: H, tasks: Codec<Task>, t: Task)
    reads if d.line.Some? then {d.line.value} else {}
  {
    d.line.Some? && Takes(d.line.value, hellos, self, tasks, t)
  }

  ghost function Lines(ds: seq<Candidate>): set<Conn> {
    set d | d in ds && d.line.Some? :: d.line.value
  }

  /** The sent row, when there is a database; a failure is only logged. */
  method RecordChosen(store: Store, hasStore: bool, t: Task, peer: Peer, now: int)
    modifies store
    ensures || store.tasks == old(store.tasks)
            || (hasStore && Some(store.tasks) == Started(old(store.tasks), Key(t.id, Sent), peer, t.kind, now))
    ensures hasStore && store.reliable && Key(t.id, Sent) !in old(store.tasks) ==> Key(t.id, Sent) in store.tasks
  {
    if hasStore {
      var _ := store.RecordTaskStart(Key(t.id, Sent), peer, t.kind, now);
    }
  }

  /** DispatchTask: the first willing peer gets the task, none after it hears of it, and the sent
      row names that peer. */
  method DispatchTask<H(!new)>(ds: seq<Candidate>, hellos: Codec<H>, self: H, tasks: Codec<Task>, t: Task,
                               store: Store, hasStore: bool, now: int) returns (chosen: Option<nat>)
    requires forall i, j :: 0 <= i < j < |ds| && ds[i].line.Some? && ds[j].line.Some? ==> ds[i].line != ds[j].line
    modifies Lines(ds), store
    ensures chosen.Some? ==>
              && chosen.value < |ds| && old(Willing(ds[chosen.value], hellos, self, tasks, t))
              && (forall j :: 0 <= j < chosen.value ==> !old(Willing(ds[j], hellos, self, tasks, t)))
              && (forall j :: chosen.value < j < |ds| && ds[j].line.Some? ==> unchanged(ds[j].line.value))
              && (|| store.tasks == old(store.tasks)
                  || (hasStore && Some(store.tasks) ==
                                  Started(old(store.tasks), Key(t.id, Sent), ds[chosen.value].peer, t.kind, now)))
              && (hasStore && store.reliable && Key(t.id, Sent) !in old(store.tasks) ==> Key(t.id, Sent) in store.tasks)
    ensures chosen.None? ==>
              && (forall j :: 0 <= j < |ds| ==> !old(Willing(ds[j], hellos, self, tasks, t)))
              && store.tasks == old(store.tasks)
  {
    for i := 0 to |ds|
      invariant forall j :: 0 <= j < i ==> !old(Willing(ds[j], hellos, self, tasks, t))
      invariant forall j :: i <= j < |ds| && ds[j].line.Some? ==> unchanged(ds[j].line.value)
      invariant store.tasks == old(store.tasks)
    {
      if ds[i].line.Some? {
        var c := ds[i].line.value;
        assert ds[i] in ds && c in Lines(ds);
        var accepted := TryPeer(c, hellos, self, tasks, t);
        if accepted {
          RecordChosen(store, hasStore, t, ds[i].peer, now);
          return Some(i);
        }
      }
    }
    return None;
  }

  // ----- polling

  /** Times in nanoseconds. */
  datatype PollPlan = PollPlan(first: int, max: int, giveUp: int) {
    predicate Sane() {
      first > 0 && max > 0
    }
  }

  const SECOND := 1_000_000_000
  const DEFAULT_PLAN := PollPlan(SECOND, 10 * SECOND, 600 * SECOND)

  function MinInt(a: int, b: int): int {
    if a < b then a else b
  }

  function Pow2(k: nat): (p: nat)
    ensures p > 0
  {
    if k == 0 then 1 else 2 * Pow2(k - 1)
  }

  /** The loop variable `wait` before round k. */
  function Wait(plan: PollPlan, k: nat): int {
    if k == 0 then plan.first else MinInt(Wait(plan, k - 1) * 2, plan.max)
  }

  /** The back-off in closed form: doubling, up to max, except that the first wait is never capped. */
  lemma {:induction false} WaitClosedForm(plan: PollPlan, k: nat)
    requires plan.Sane()
    ensures Wait(plan, k) == if k == 0 then plan.first else MinInt(plan.first * Pow2(k), plan.max)
    ensures Wait(plan, k) > 0
  {
    if k > 0 {
      WaitClosedForm(plan, k - 1);
      Doubles(plan.first, k - 1);
    }
  }

  lemma Doubles(first: int, k: nat)
    requires first > 0
    ensures first * Pow2(k + 1) == 2 * (first * Pow2(k)) && first * Pow2(k) > 0
  {
  }

  /** How long the first n waits take together. */
  function WaitSum(plan: PollPlan, n: nat): int {
    if n == 0 then 0 else WaitSum(plan, n - 1) + Wait(plan, n - 1)
  }

  /** When the caller's context ends, and whether by a deadline of its own. */
  datatype Stop = Stop(at: int, deadline: bool)

  /** What the world does in each round: what an ask brings and how long it takes, how late the
      timer is, and which of two ready channels select takes. */
  datatype Script<!E(!new)> = Script(
    answer: nat -> Result<Response, E>, took: nat -> nat, late: nat -> nat, timerWins: nat -> bool)

  datatype AwaitError<E> = TimedOut(last: Option<E>) | Cancelled

  function Ends(plan: PollPlan, parent: Option<Stop>): Stop {
    if parent.Some? && parent.value.at < plan.giveUp then parent.value else Stop(plan.giveUp, true)
  }

  predicate Finishes<E>(a: Result<Response, E>) {
    a.Ok? && IsFinished(a.value)
  }

  /** When ask k is made: after the asks before it, the waits, and what the timer was late. */
  function Before<E(!new)>(plan: PollPlan, world: Script<E>, k: nat): int {
    if k == 0 then 0 else Before(plan, world, k - 1) + world.took(k - 1) + Wait(plan, k - 1) + world.late(k - 1)
  }

  lemma {:induction false} AsksInOrder<E(!new)>(plan: PollPlan, world: Script<E>, i: nat, k: nat)
    requires plan.Sane() && i <= k
    ensures Before(plan, world, i) <= Before(plan, world, k)
    decreases k
  {
    if i < k {
      AsksInOrder(plan, world, i, k - 1);
      WaitClosedForm(plan, k - 1);
    }
  }

  /** When the window closes: when the plan gives up, or the caller's context ends before that. */
  lemma EndsAre(plan: PollPlan, parent: Option<Stop>)
    ensures parent.Some? && parent.value.at < plan.giveUp ==> Ends(plan, parent) == parent.value
    ensures parent.None? || parent.value.at >= plan.giveUp ==> Ends(plan, parent) == Stop(plan.giveUp, true)
  {
  }

  /** Every answer among the first n says that the task is still running. */
  ghost predicate NoneFinished<E(!new)>(world: Script<E>, n: nat) {
    forall i :: 0 <= i < n && world.answer(i).Ok? ==> world.answer(i).value.status == IsRunning
  }

  /** Ask k brings the first finished answer there is. */
  ghost predicate FirstFinished<E(!new)>(world: Script<E>, k: nat) {
    world.answer(k).Ok? && world.answer(k).value.status != IsRunning && NoneFinished(world, k)
  }

  /** Every ask that would have brought one comes when the window is over. */
  ghost predicate OnlyTooLate<E(!new)>(plan: PollPlan, world: Script<E>, end: int) {
    forall k: nat :: FirstFinished(world, k) ==> Before(plan, world, k) >= end
  }

  lemma NothingMissed<E(!new)>(plan: PollPlan, world: Script<E>, polls: nat, end: int)
    requires plan.Sane() && Before(plan, world, polls) >= end
    requires NoneFinished(world, polls)
    ensures OnlyTooLate(plan, world, end)
  {
    forall k: nat | FirstFinished(world, k)
      ensures Before(plan, world, k) >= end
    {
      assert k >= polls;
      AsksInOrder(plan, world, polls, k);
    }
  }

  /** `last` is the last failure among the first n asks. */
  ghost predicate LastFailure<E(!new)>(world: Script<E>, n: nat, last: Option<E>) {
    match last
    case None => forall i :: 0 <= i < n ==> world.answer(i).Ok?
    case Some(e) => exists i :: 0 <= i < n && world.answer(i) == Err(e) && forall j :: i < j < n ==> world.answer(j).Ok?
  }

  lemma OneMoreAsk<E(!new)>(world: Script<E>, n: nat, last: Option<E>, answer: Result<Response, E>)
    requires answer == world.answer(n) && NoneFinished(world, n) && LastFailure(world, n, last)
    ensures Finishes(answer) ==> FirstFinished(world, n)
    ensures !Finishes(answer) ==> NoneFinished(world, n + 1)
    ensures LastFailure(world, n + 1, if answer.Err? then Some(answer.error) else last)
  {
  }

  /** awaitResult. `polls` is how often it asked. */
  method AwaitResult<E(!new)>(plan: PollPlan, parent: Option<Stop>, world: Script<E>)
    returns (r: Result<Response, AwaitError<E>>, polls: nat)
    requires plan.Sane()
    // an answer is the first finished one there was, and it ended the polling
    ensures polls > 0 && (r.Ok? ==> FirstFinished(world, polls - 1) && world.answer(polls - 1) == Ok(r.value))
    ensures r.Err? ==> NoneFinished(world, polls)
    // it gives up only when the window is over: whatever was to be had inside it has been returned
    ensures r.Err? ==> Before(plan, world, polls) >=
                       if parent.Some? && parent.value.at < plan.giveUp then parent.value.at else plan.giveUp
    ensures r.Err? ==> OnlyTooLate(plan, world, Ends(plan, parent).at)
    // and it asks again only when the window was not over after the ask before
    ensures polls >= 2 ==> Before(plan, world, polls - 2) + world.took(polls - 2) < Ends(plan, parent).at
    // an error says how it went: with a failed poll it is a time-out that names the last of them
    ensures r.Err? && r.error.Cancelled? ==> !Ends(plan, parent).deadline && LastFailure(world, polls, None)
    ensures r.Err? && r.error.TimedOut? ==>
              LastFailure(world, polls, r.error.last) && (r.error.last.None? ==> Ends(plan, parent).deadline)
  {
    var stop := Ends(plan, parent);
    var elapsed := 0;
    var wait := plan.first;
    var lastErr: Option<E> := None;
    polls := 0;
    while true
      invariant wait == Wait(plan, polls)
      invariant elapsed == Before(plan, world, polls)
      invariant polls > 0 ==> Before(plan, world, polls - 1) + world.took(polls - 1) < stop.at
      invariant NoneFinished(world, polls)
      invariant LastFailure(world, polls, lastErr)
      decreases stop.at - elapsed
    {
      var k := polls;
      var answer := world.answer(k);
      elapsed := elapsed + world.took(k);
      polls := k + 1;
      OneMoreAsk(world, k, lastErr, answer);
      if Finishes(answer) {
        return Ok(answer.value), polls;
      }
      if answer.Err? {
        lastErr := Some(answer.error);
      }
      WaitClosedForm(plan, k);
      var wake := elapsed + wait + world.late(k);
      if elapsed >= stop.at || (wake >= stop.at && !world.timerWins(k)) {
        NothingMissed(plan, world, polls, stop.at);
        if lastErr.Some? || stop.deadline {
          return Err(TimedOut(lastErr)), polls;
        }
        return Err(Cancelled), polls;
      }
      elapsed := wake;
      wait := MinInt(wait * 2, plan.max);
    }
  }

  /** One second, doubling up to ten, for ten minutes. */
  lemma DefaultSchedule(k: nat)
    ensures Wait(DEFAULT_PLAN, k) == if k == 0 then SECOND else if k == 1 then 2 * SECOND else if k == 2 then 4 * SECOND
                                     else if k == 3 then 8 * SECOND else 10 * SECOND
    ensures Ends(DEFAULT_PLAN, None).at == 10 * 60 * SECOND && SECOND == 1000 * 1000 * 1000
  {
    if k >= 4 {
      DefaultWaits(k);
    } else {
      assert Wait(DEFAULT_PLAN, 1) == 2 * SECOND;
      assert Wait(DEFAULT_PLAN, 2) == 4 * SECOND;
      assert Wait(DEFAULT_PLAN, 3) == 8 * SECOND;
    }
  }

  /** The waits alone fit into the window. */
  lemma {:induction false} WaitsWithin<E(!new)>(plan: PollPlan, world: Script<E>, n: nat)
    ensures WaitSum(plan, n) <= Before(plan, world, n)
  {
    if n > 0 {
      WaitsWithin(plan, world, n - 1);
    }
  }

  /** The default plan asks at most 64 times. */
  lemma DefaultPollBound<E(!new)>(world: Script<E>, polls: nat)
    requires polls >= 2 ==> Before(DEFAULT_PLAN, world, polls - 2) + world.took(polls - 2) < DEFAULT_PLAN.giveUp
    ensures polls <= 64
  {
    if polls > 64 {
      WaitsWithin(DEFAULT_PLAN, world, polls - 2);
      DefaultWaits(polls - 2);
    }
  }

  lemma {:induction false} DefaultWaits(n: nat)
    requires n >= 4
    ensures WaitSum(DEFAULT_PLAN, n) == (15 + (n - 4) * 10) * SECOND && Wait(DEFAULT_PLAN, n) == 10 * SECOND
  {
    if n == 4 {
      assert WaitSum(DEFAULT_PLAN, 1) == SECOND;
      assert Wait(DEFAULT_PLAN, 1) == 2 * SECOND;
      assert Wait(DEFAULT_PLAN, 2) == 4 * SECOND;
      assert Wait(DEFAULT_PLAN, 3) == 8 * SECOND;
      assert WaitSum(DEFAULT_PLAN, 2) == 3 * SECOND;
      assert WaitSum(DEFAULT_PLAN, 3) == 7 * SECOND;
    } else {
      DefaultWaits(n - 1);
    }
  }

  /** The table with a finished answer on the sent row. */
  function Recorded(t: Table, id: string, r: Response, now: int): Option<Table> {
    FinishedTable(t, Key(id, Sent), StoredStatus(r), r.output, StoredError(r), now)
  }

  /** AwaitResult of the node: a finished answer is also stored on the sent row. */
  method AwaitAndRecord<E(!new)>(plan: PollPlan, parent: Option<Stop>, world: Script<E>, id: string,
                                 store: Store, hasStore: bool, now: int)
    returns (r: Result<Response, AwaitError<E>>)
    requires plan.Sane()
    modifies store
    ensures r.Err? || !hasStore ==> store.tasks == old(store.tasks)
    ensures r.Ok? ==> IsFinished(r.value) && exists i :: world.answer(i) == Ok(r.value)
    ensures r.Ok? && hasStore ==>
              store.tasks == old(store.tasks) || Some(store.tasks) == Recorded(old(store.tasks), id, r.value, now)
    ensures r.Ok? && hasStore && store.reliable && Key(id, Sent) in old(store.tasks) ==>
              Some(store.tasks) == Recorded(old(store.tasks), id, r.value, now)
  {
    var polls;
    r, polls := AwaitResult(plan, parent, world);
    if r.Ok? && hasStore {
      var _ := store.RecordTaskFinish(Key(id, Sent), StoredStatus(r.value), r.value.output, StoredError(r.value), now);
    }
  }
}
