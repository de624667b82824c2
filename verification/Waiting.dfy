/**
 How long a task waits: scheduling results over any sequence of poller passes interleaved with any
 other steps (internal/service/async_runner.go).
 */
module Waiting {
  import opened Common
  import opened Query
  import opened Polling
  import L = Ledger
  import F = Files

  // ---------- bounded waiting ----------

  /**
   Running tasks whose next poll is at or before `at`, with or without an upstream id. Chat requests
   have neither a next poll nor an upstream id and are never due.
   */
  function DueBy(s: L.State, at: int): set<string> {
    set id | id in s.tasks && s.tasks[id].status == L.Running && PollBy(s.tasks[id], at)
  }

  predicate PollBy(t: L.Task, at: int) {
    if t.nextPollAt.None? then t.upstream != "" else t.nextPollAt.value <= at
  }

  datatype Event =
    | PassEvent(world: PassWorld, sweep: seq<string>, batch: seq<string>)
    | StepEvent(step: L.Step)

  function After(w: World, timeout: int, e: Event): World {
    match e
    case PassEvent(p, sweep, batch) => Pass(w, timeout, p, sweep, batch)
    case StepEvent(step) => w.(ledger := L.Apply(w.ledger, step))
  }

  function AfterAll(w: World, timeout: int, events: seq<Event>): World {
    if events == [] then w
    else After(AfterAll(w, timeout, events[..|events| - 1]), timeout, events[|events| - 1])
  }

  function Passes(events: seq<Event>): nat {
    if events == [] then 0 else Passes(events[..|events| - 1]) + if events[|events| - 1].PassEvent? then 1 else 0
  }

  /** A pass whose queries work, on a clock that has reached `at`. */
  predicate Healthy(e: Event, timeout: int, at: int) {
    e.PassEvent? ==>
      && (timeout <= 0 || (!e.world.cancelled && e.world.sweepQueryOk)) && e.world.dueQueryOk
      && e.world.now >= at
      && forall id :: id in e.batch ==> e.world.task(id).clock >= e.world.now
  }

  /** Every task the pass takes up can move, save perhaps these. */
  predicate Responsive(w: World, timeout: int, e: Event, except: set<string>) {
    e.PassEvent? ==>
      var s := SweepAll(w.ledger, e.sweep, e.world);
      forall id :: id in e.batch && id in s.tasks && id !in except ==> Movable(s.tasks[id], timeout, e.world.task(id))
  }

  /** Steps of other handlers: never on the waiting task, and scheduling only into the future. */
  predicate Outsider(e: Event, waiting: string, at: int) {
    e.StepEvent? ==>
      && L.Target(e.step) != Some(waiting)
      && (e.step.ReserveStep? ==> e.step.now >= at)
      && (e.step.RescheduleStep? ==> e.step.now + e.step.delay > at)
  }

  ghost predicate Legal(w: World, timeout: int, e: Event) {
    match e
    case PassEvent(p, sweep, batch) => Answers(w, timeout, p, sweep, batch)
    case StepEvent(step) => L.Enabled(w.ledger, step)
  }

  /** A task with an upstream id, Running and scheduled for `at`. */
  predicate WaitingAt(s: L.State, id: string, at: int) {
    id in s.tasks && s.tasks[id].status == L.Running && s.tasks[id].upstream != "" && s.tasks[id].nextPollAt == Some(at)
  }

  lemma BatchKeepsQueue(s: L.State, s': L.State, batch: seq<string>, timeout: int, p: PassWorld, at: int)
    requires BatchEffect(s, s', batch, timeout, p) && forall k :: k in batch ==> p.task(k).clock >= at
    ensures DueBy(s', at) <= DueBy(s, at)
    ensures forall k :: k in s.tasks ==> s'.tasks[k].createdAt == s.tasks[k].createdAt
  {
    forall k | k in DueBy(s', at) ensures k in DueBy(s, at) {
      if k in batch {
        assert RowEffect(s.tasks[k], s'.tasks[k], timeout, p.task(k));
      }
    }
    forall k | k in s.tasks ensures s'.tasks[k].createdAt == s.tasks[k].createdAt {
      if k in batch {
        assert RowEffect(s.tasks[k], s'.tasks[k], timeout, p.task(k));
      }
    }
  }

  /** A pass never brings a task forward, nor changes when it was created. */
  lemma PassKeepsQueue(w: World, timeout: int, p: PassWorld, sweep: seq<string>, batch: seq<string>, at: int)
    requires Answers(w, timeout, p, sweep, batch) && Healthy(PassEvent(p, sweep, batch), timeout, at)
    ensures var s, s' := w.ledger, Pass(w, timeout, p, sweep, batch).ledger;
      && s'.tasks.Keys == s.tasks.Keys
      && (forall k :: k in s.tasks ==> s'.tasks[k].createdAt == s.tasks[k].createdAt)
      && DueBy(s', at) <= DueBy(s, at)
  {
    var s1 := SweepAll(w.ledger, sweep, p);
    SweepKeepsQueue(w.ledger, sweep, p, at);
    AdvanceAllEffect(w.(ledger := s1), batch, timeout, p);
    BatchKeepsQueue(s1, Pass(w, timeout, p, sweep, batch).ledger, batch, timeout, p, at);
  }

  lemma SweepKeepsQueue(s: L.State, sweep: seq<string>, p: PassWorld, at: int)
    requires forall id :: id in sweep ==> id in s.tasks
    ensures var s1 := SweepAll(s, sweep, p);
      && s1.tasks.Keys == s.tasks.Keys
      && (forall k :: k in s.tasks ==> s1.tasks[k].createdAt == s.tasks[k].createdAt)
      && DueBy(s1, at) <= DueBy(s, at)
  {
    SweepAllEffect(s, sweep, p);
    SweepKeepsCreation(s, sweep, p);
  }

  lemma {:induction false} SweepKeepsCreation(s: L.State, sweep: seq<string>, p: PassWorld)
    requires forall id :: id in sweep ==> id in s.tasks
    ensures var s' := SweepAll(s, sweep, p);
      s'.tasks.Keys == s.tasks.Keys && forall k :: k in s.tasks ==> s'.tasks[k].createdAt == s.tasks[k].createdAt
  {
    if sweep != [] {
      var front, last := sweep[..|sweep| - 1], sweep[|sweep| - 1];
      SweepKeepsCreation(s, front, p);
      FailAndRefundEffect(SweepAll(s, front, p), last, p.task(last).clock, p.task(last).refund);
    }
  }

  /** A pass that leaves a due task out clears fifty others out of its way, less those that may be stuck. */
  lemma PassShrinksQueue(w: World, timeout: int, p: PassWorld, sweep: seq<string>, batch: seq<string>, stuck: set<string>,
                         id: string, at: int)
    requires WaitingAt(w.ledger, id, at) && id !in batch
    requires Answers(w, timeout, p, sweep, batch)
    requires Healthy(PassEvent(p, sweep, batch), timeout, at) && Responsive(w, timeout, PassEvent(p, sweep, batch), stuck)
    ensures var s' := Pass(w, timeout, p, sweep, batch).ledger;
      && id in s'.tasks && s'.tasks[id] == w.ledger.tasks[id]
      && |DueBy(s', at) - stuck| + BATCH <= |DueBy(w.ledger, at) - stuck| + |stuck|
  {
    var s1 := SweepAll(w.ledger, sweep, p);
    SweepKeepsWaiting(w, timeout, p, sweep, batch, id, at);
    AdvanceShrinksQueue(w.(ledger := s1), timeout, p, batch, stuck, id, at);
    SubsetSize(DueBy(s1, at) - stuck, DueBy(w.ledger, at) - stuck);
  }

  /** The sweep only takes tasks without upstream id, and adds nothing to the queue. */
  lemma SweepKeepsWaiting(w: World, timeout: int, p: PassWorld, sweep: seq<string>, batch: seq<string>, id: string, at: int)
    requires WaitingAt(w.ledger, id, at) && Answers(w, timeout, p, sweep, batch)
    ensures var s1 := SweepAll(w.ledger, sweep, p);
      id in s1.tasks && s1.tasks[id] == w.ledger.tasks[id] && DueBy(s1, at) <= DueBy(w.ledger, at)
  {
    assert id !in sweep && forall k :: k in sweep ==> k in w.ledger.tasks;
    SweepAllEffect(w.ledger, sweep, p);
  }

  lemma AdvanceShrinksQueue(w: World, timeout: int, p: PassWorld, batch: seq<string>, stuck: set<string>, id: string, at: int)
    requires WaitingAt(w.ledger, id, at) && id !in batch && p.now >= at
    requires IsTop(DueKeys(w.ledger, p.now), BATCH, batch)
    requires forall k :: k in batch && k in w.ledger.tasks ==>
      p.task(k).clock >= p.now && (k !in stuck ==> Movable(w.ledger.tasks[k], timeout, p.task(k)))
    ensures var s := AdvanceAll(w, batch, timeout, p).0.ledger;
      && s.tasks.Keys == w.ledger.tasks.Keys && s.tasks[id] == w.ledger.tasks[id]
      && |DueBy(s, at) - stuck| + BATCH <= |DueBy(w.ledger, at) - stuck| + |stuck|
  {
    AdvanceAllEffect(w, batch, timeout, p);
    BatchShrinksQueue(w.ledger, AdvanceAll(w, batch, timeout, p).0.ledger, timeout, p, batch, stuck, id, at);
  }

  lemma BatchShrinksQueue(s: L.State, s': L.State, timeout: int, p: PassWorld, batch: seq<string>, stuck: set<string>,
                          id: string, at: int)
    requires WaitingAt(s, id, at) && id !in batch && p.now >= at
    requires IsTop(DueKeys(s, p.now), BATCH, batch) && BatchEffect(s, s', batch, timeout, p)
    requires forall k :: k in batch ==> p.task(k).clock >= p.now && (k !in stuck ==> Movable(s.tasks[k], timeout, p.task(k)))
    ensures |DueBy(s', at) - stuck| + BATCH <= |DueBy(s, at) - stuck| + |stuck|
  {
    var keys := DueKeys(s, p.now);
    LeftOutMeansFull(keys, BATCH, batch, id);
    BatchKeepsQueue(s, s', batch, timeout, p, at);
    forall k | k in batch && k !in stuck ensures k in DueBy(s, at) && k !in DueBy(s', at) {
      assert AtMost(keys[k], keys[id]);
      assert RowEffect(s.tasks[k], s'.tasks[k], timeout, p.task(k));
      assert Settled(s'.tasks[k], p.task(k).clock);
    }
    DistinctSize(batch);
    LeavingShrinks(DueBy(s, at) - stuck, DueBy(s', at) - stuck, Elements(batch), stuck);
  }

  lemma LeavingShrinks(before: set<string>, after: set<string>, left: set<string>, stuck: set<string>)
    requires after <= before && forall k :: k in left && k !in stuck ==> k in before && k !in after
    ensures |after| + |left| <= |before| + |stuck|
  {
    var gone := left - stuck;
    SplitSize(before, gone);
    SubsetSize(after, before - gone);
    SplitSize(left, left * stuck);
    assert left - left * stuck == gone;
    SubsetSize(left * stuck, stuck);
  }

  lemma OutsiderKeepsQueue(s: L.State, step: L.Step, id: string, at: int)
    requires WaitingAt(s, id, at) && L.Enabled(s, step) && Outsider(StepEvent(step), id, at)
    ensures var s' := L.Apply(s, step);
      && id in s'.tasks && s'.tasks[id] == s.tasks[id]
      && DueBy(s', at) <= DueBy(s, at)
      && (forall k :: k in DueBy(s', at) ==> s'.tasks[k].createdAt == s.tasks[k].createdAt)
  {
    var s' := L.Apply(s, step);
    L.StepFrames(s, step);
    forall k | k in DueBy(s', at) ensures k in DueBy(s, at) && s'.tasks[k].createdAt == s.tasks[k].createdAt {
      if L.Target(step) == Some(k) {
        L.TargetMoves(s, step, k);
      }
    }
  }

  /** Healthy passes on which only these tasks may be stuck, mixed with steps that schedule nothing ahead of `id`. */
  ghost predicate WaitingRun(w: World, timeout: int, events: seq<Event>, stuck: set<string>, id: string, at: int) {
    events == [] ||
    (var front, last := events[..|events| - 1], events[|events| - 1];
     var wi := AfterAll(w, timeout, front);
     && WaitingRun(w, timeout, front, stuck, id, at)
     && Legal(wi, timeout, last) && Responsive(wi, timeout, last, stuck)
     && Healthy(last, timeout, at) && Outsider(last, id, at))
  }

  /** Some pass of the run takes the task up. */
  predicate TakenUp(events: seq<Event>, id: string) {
    exists i :: 0 <= i < |events| && events[i].PassEvent? && id in events[i].batch
  }

  lemma TakenUpSnoc(events: seq<Event>, id: string)
    requires events != []
    ensures var front, last := events[..|events| - 1], events[|events| - 1];
            TakenUp(events, id) <==> TakenUp(front, id) || (last.PassEvent? && id in last.batch)
  {
    var front, last := events[..|events| - 1], events[|events| - 1];
    if i :| 0 <= i < |front| && front[i].PassEvent? && id in front[i].batch {
      assert events[i] == front[i];
    }
    if i :| 0 <= i < |events| && events[i].PassEvent? && id in events[i].batch {
      assert i < |front| ==> front[i] == events[i];
    }
  }

  /** One event that does not take the task up. */
  lemma WaitingEvent(w: World, timeout: int, e: Event, stuck: set<string>, id: string, at: int)
    requires WaitingAt(w.ledger, id, at) && (e.PassEvent? ==> id !in e.batch)
    requires Legal(w, timeout, e) && Responsive(w, timeout, e, stuck) && Healthy(e, timeout, at) && Outsider(e, id, at)
    ensures var s' := After(w, timeout, e).ledger;
      && id in s'.tasks && s'.tasks[id] == w.ledger.tasks[id]
      && |DueBy(s', at) - stuck| + (if e.PassEvent? then BATCH - |stuck| else 0) <= |DueBy(w.ledger, at) - stuck|
  {
    match e
    case PassEvent(p, sweep, batch) => PassShrinksQueue(w, timeout, p, sweep, batch, stuck, id, at);
    case StepEvent(step) =>
      OutsiderKeepsQueue(w.ledger, step, id, at);
      SubsetSize(DueBy(L.Apply(w.ledger, step), at) - stuck, DueBy(w.ledger, at) - stuck);
  }

  /** While a due task is passed over, each pass clears what it can from the tasks due no later than it. */
  lemma {:induction false} WaitingShrinksQueue(w: World, timeout: int, events: seq<Event>, stuck: set<string>, id: string, at: int)
    requires WaitingAt(w.ledger, id, at) && id !in stuck && |stuck| <= BATCH
    requires WaitingRun(w, timeout, events, stuck, id, at) && !TakenUp(events, id)
    ensures var s := AfterAll(w, timeout, events).ledger;
      && WaitingAt(s, id, at) && s.tasks[id] == w.ledger.tasks[id]
      && |DueBy(s, at) - stuck| + PerPass(events, BATCH - |stuck|) <= |DueBy(w.ledger, at) - stuck|
  {
    if events != [] {
      var front, last := events[..|events| - 1], events[|events| - 1];
      TakenUpSnoc(events, id);
      WaitingShrinksQueue(w, timeout, front, stuck, id, at);
      WaitingEvent(AfterAll(w, timeout, front), timeout, last, stuck, id, at);
    }
  }

  /** So much for each pass of a run: tasks cleared, or time gone by. */
  function PerPass(events: seq<Event>, each: int): int {
    if events == [] then 0 else PerPass(events[..|events| - 1], each) + if events[|events| - 1].PassEvent? then each else 0
  }

  lemma {:induction false} PerPassIsProduct(events: seq<Event>, each: int)
    ensures PerPass(events, each) == each * Passes(events)
  {
    if events != [] {
      PerPassIsProduct(events[..|events| - 1], each);
    }
  }

  lemma StaysDue(s: L.State, stuck: set<string>, id: string, at: int)
    requires WaitingAt(s, id, at) && id !in stuck
    ensures |DueBy(s, at) - stuck| >= 1
  {
    SubsetSize({id}, DueBy(s, at) - stuck);
  }

  /**
   Bounded waiting. Take a task that is Running with an upstream id and due at `at`, fewer than fifty
   others that may be stuck, k of them, and any run of passes and other handlers' steps. Once the run
   holds ceil(r / (50 - k)) passes, r being the number of other Running tasks due by `at` and `id`
   itself, one of those passes has taken the task up.
   */
  lemma BoundedWaiting(w: World, timeout: int, events: seq<Event>, stuck: set<string>, id: string, at: int)
    requires WaitingAt(w.ledger, id, at) && id !in stuck && |stuck| < BATCH
    requires WaitingRun(w, timeout, events, stuck, id, at)
    requires (BATCH - |stuck|) * Passes(events) >= |DueBy(w.ledger, at) - stuck|
    ensures TakenUp(events, id)
  {
    if !TakenUp(events, id) {
      NotYetTakenUp(w, timeout, events, stuck, id, at);
      PerPassIsProduct(events, BATCH - |stuck|);
    }
  }

  lemma NotYetTakenUp(w: World, timeout: int, events: seq<Event>, stuck: set<string>, id: string, at: int)
    requires WaitingAt(w.ledger, id, at) && id !in stuck && |stuck| <= BATCH
    requires WaitingRun(w, timeout, events, stuck, id, at) && !TakenUp(events, id)
    ensures PerPass(events, BATCH - |stuck|) < |DueBy(w.ledger, at) - stuck|
  {
    WaitingShrinksQueue(w, timeout, events, stuck, id, at);
    StaysDue(AfterAll(w, timeout, events).ledger, stuck, id, at);
  }

  /** Being taken up means finishing or being rescheduled past the pass; past the timeout it means Failed. */
  lemma TakenUpMeansMoved(w: World, timeout: int, p: PassWorld, sweep: seq<string>, batch: seq<string>, id: string)
    requires Answers(w, timeout, p, sweep, batch) && id in batch
    requires Healthy(PassEvent(p, sweep, batch), timeout, p.now)
    ensures var s, s' := SweepAll(w.ledger, sweep, p), Pass(w, timeout, p, sweep, batch).ledger;
      && id in w.ledger.tasks && id in s.tasks && s.tasks[id] == w.ledger.tasks[id] && id in s'.tasks
      && (Movable(s.tasks[id], timeout, p.task(id)) ==>
            L.Terminal(s'.tasks[id]) || (s'.tasks[id].nextPollAt.Some? && s'.tasks[id].nextPollAt.value > p.now))
      && (TimedOut(s.tasks[id], timeout, p.now) && p.task(id).refund != NothingWritten ==>
            s'.tasks[id].status == L.Failed)
  {
    SweepAllEffect(w.ledger, sweep, p);
    AdvanceAllEffect(w.(ledger := SweepAll(w.ledger, sweep, p)), batch, timeout, p);
  }

  // ---------- the timeout, for tasks with an upstream id ----------

  predicate OldQueue(s: L.State, at: int, created: int) {
    forall k :: k in DueBy(s, at) ==> s.tasks[k].createdAt <= created
  }

  /** A pass past the timeout of everything created by then, whose refunds leave some mark. */
  predicate PastTimeout(e: Event, timeout: int, created: int) {
    && Marks(e)
    && (e.PassEvent? ==> timeout > 0 && e.world.now - created > timeout)
  }

  /** Whatever refund the pass tries leaves some mark on its row. */
  predicate Marks(e: Event) {
    e.PassEvent? ==> forall id :: id in e.batch ==> e.world.task(id).refund != NothingWritten
  }

  /** Passes past the timeout; nothing is assumed of credentials, keys, adapters or upstreams. */
  ghost predicate OverdueRun(w: World, timeout: int, events: seq<Event>, id: string, at: int, created: int) {
    events == [] ||
    (var front, last := events[..|events| - 1], events[|events| - 1];
     && OverdueRun(w, timeout, front, id, at, created)
     && Legal(AfterAll(w, timeout, front), timeout, last) && PastTimeout(last, timeout, created)
     && Healthy(last, timeout, at) && Outsider(last, id, at))
  }

  /** Past the timeout every turn moves its task, because the timeout is checked first. */
  lemma TimeoutMoves(w: World, timeout: int, e: Event, id: string, at: int, created: int)
    requires WaitingAt(w.ledger, id, at) && OldQueue(w.ledger, at, created)
    requires Legal(w, timeout, e) && PastTimeout(e, timeout, created) && Healthy(e, timeout, at)
    requires e.PassEvent? ==> id !in e.batch
    ensures Responsive(w, timeout, e, {})
  {
    if e.PassEvent? {
      var s := SweepAll(w.ledger, e.sweep, e.world);
      SweepAllEffect(w.ledger, e.sweep, e.world);
      assert id !in e.sweep;
      LeftOutMeansFull(DueKeys(s, e.world.now), BATCH, e.batch, id);
      forall k | k in e.batch ensures Movable(s.tasks[k], timeout, e.world.task(k)) {
        assert AtMost(DueKeys(s, e.world.now)[k], DueKeys(s, e.world.now)[id]);
        assert k in DueBy(w.ledger, at);
      }
    }
  }

  lemma EventKeepsOld(w: World, timeout: int, e: Event, id: string, at: int, created: int)
    requires WaitingAt(w.ledger, id, at) && OldQueue(w.ledger, at, created)
    requires Legal(w, timeout, e) && Healthy(e, timeout, at) && Outsider(e, id, at)
    ensures OldQueue(After(w, timeout, e).ledger, at, created) && DueBy(After(w, timeout, e).ledger, at) <= DueBy(w.ledger, at)
  {
    match e
    case PassEvent(p, sweep, batch) => PassKeepsQueue(w, timeout, p, sweep, batch, at);
    case StepEvent(step) => OutsiderKeepsQueue(w.ledger, step, id, at);
  }

  lemma {:induction false} OverdueQueue(w: World, timeout: int, events: seq<Event>, id: string, at: int, created: int)
    requires WaitingAt(w.ledger, id, at) && OldQueue(w.ledger, at, created)
    requires OverdueRun(w, timeout, events, id, at, created) && !TakenUp(events, id)
    ensures WaitingRun(w, timeout, events, {}, id, at)
    ensures var s := AfterAll(w, timeout, events).ledger; WaitingAt(s, id, at) && OldQueue(s, at, created)
  {
    if events != [] {
      var front, last := events[..|events| - 1], events[|events| - 1];
      TakenUpSnoc(events, id);
      OverdueQueue(w, timeout, front, id, at, created);
      var wi := AfterAll(w, timeout, front);
      TimeoutMoves(wi, timeout, last, id, at, created);
      EventKeepsOld(wi, timeout, last, id, at, created);
      WaitingEvent(wi, timeout, last, {}, id, at);
    }
  }

  lemma {:induction false} OverdueRunAt(w: World, timeout: int, events: seq<Event>, id: string, at: int, created: int, i: nat)
    requires OverdueRun(w, timeout, events, id, at, created) && i <= |events|
    ensures OverdueRun(w, timeout, events[..i], id, at, created)
    ensures i < |events| ==>
              && Legal(AfterAll(w, timeout, events[..i]), timeout, events[i]) && PastTimeout(events[i], timeout, created)
              && Healthy(events[i], timeout, at)
  {
    if i == |events| {
      assert events[..i] == events;
    } else if i < |events| - 1 {
      var front := events[..|events| - 1];
      OverdueRunAt(w, timeout, front, id, at, created, i);
      assert front[..i] == events[..i] && front[i] == events[i];
    }
  }

  /** The first pass that takes the task up. */
  lemma {:induction false} FirstTaken(events: seq<Event>, id: string) returns (i: nat)
    requires TakenUp(events, id)
    ensures i < |events| && events[i].PassEvent? && id in events[i].batch && !TakenUp(events[..i], id)
  {
    var front := events[..|events| - 1];
    TakenUpSnoc(events, id);
    if TakenUp(front, id) {
      i := FirstTaken(front, id);
      assert front[..i] == events[..i];
    } else {
      i := |events| - 1;
    }
  }

  lemma OverdueIsTakenUp(w: World, timeout: int, events: seq<Event>, id: string, at: int, created: int)
    requires WaitingAt(w.ledger, id, at) && OldQueue(w.ledger, at, created)
    requires OverdueRun(w, timeout, events, id, at, created)
    requires BATCH * Passes(events) >= |DueBy(w.ledger, at)|
    ensures TakenUp(events, id)
  {
    if !TakenUp(events, id) {
      OverdueQueue(w, timeout, events, id, at, created);
      assert DueBy(w.ledger, at) - {} == DueBy(w.ledger, at);
      BoundedWaiting(w, timeout, events, {}, id, at);
    }
  }

  /**
   No task runs forever, with an upstream id either: once everything due no later than it is older than
   the timeout, ceil(r / 50) passes fail it, r being the number of Running tasks due by then. Keys that
   do not decrypt, missing adapters and silent upstreams make no difference.
   */
  lemma OverdueTaskIsFailed(w: World, timeout: int, events: seq<Event>, id: string, at: int, created: int)
    requires WaitingAt(w.ledger, id, at) && OldQueue(w.ledger, at, created)
    requires OverdueRun(w, timeout, events, id, at, created)
    requires BATCH * Passes(events) >= |DueBy(w.ledger, at)|
    ensures exists i :: 0 <= i < |events| && events[i].PassEvent? && id in events[i].batch && FailedAfter(w, timeout, events[..i + 1], id)
  {
    OverdueIsTakenUp(w, timeout, events, id, at, created);
    var i := FirstTaken(events, id);
    OverdueAt(w, timeout, events, id, at, created, i);
  }

  lemma OverdueAt(w: World, timeout: int, events: seq<Event>, id: string, at: int, created: int, i: nat)
    requires WaitingAt(w.ledger, id, at) && OldQueue(w.ledger, at, created)
    requires OverdueRun(w, timeout, events, id, at, created)
    requires i < |events| && events[i].PassEvent? && id in events[i].batch && !TakenUp(events[..i], id)
    ensures FailedAfter(w, timeout, events[..i + 1], id)
  {
    OverdueUpTo(w, timeout, events, id, at, created, i);
    assert events[..i + 1][..i] == events[..i];
    OverdueTurn(AfterAll(w, timeout, events[..i]), timeout, events[i], id, at, created);
  }

  /** Until it is first taken up the task waits, among tasks as old. */
  lemma OverdueUpTo(w: World, timeout: int, events: seq<Event>, id: string, at: int, created: int, i: nat)
    requires WaitingAt(w.ledger, id, at) && OldQueue(w.ledger, at, created)
    requires OverdueRun(w, timeout, events, id, at, created) && i < |events| && !TakenUp(events[..i], id)
    ensures var wi := AfterAll(w, timeout, events[..i]);
      && WaitingAt(wi.ledger, id, at) && OldQueue(wi.ledger, at, created)
      && Legal(wi, timeout, events[i]) && PastTimeout(events[i], timeout, created) && Healthy(events[i], timeout, at)
  {
    OverdueRunAt(w, timeout, events, id, at, created, i);
    OverdueQueue(w, timeout, events[..i], id, at, created);
  }

  predicate FailedAfter(w: World, timeout: int, events: seq<Event>, id: string) {
    var s := AfterAll(w, timeout, events).ledger;
    id in s.tasks && s.tasks[id].status == L.Failed
  }

  lemma OverdueTurn(w: World, timeout: int, e: Event, id: string, at: int, created: int)
    requires WaitingAt(w.ledger, id, at) && OldQueue(w.ledger, at, created)
    requires e.PassEvent? && id in e.batch && Legal(w, timeout, e) && PastTimeout(e, timeout, created) && Healthy(e, timeout, at)
    ensures id in After(w, timeout, e).ledger.tasks && After(w, timeout, e).ledger.tasks[id].status == L.Failed
  {
    assert id in DueBy(w.ledger, at);
    SweepAllEffect(w.ledger, e.sweep, e.world);
    AdvanceAllEffect(w.(ledger := SweepAll(w.ledger, e.sweep, e.world)), e.batch, timeout, e.world);
  }

  // ---------- the task's own timeout ----------

  predicate PastOwnTimeout(e: Event, timeout: int, id: string, created: int) {
    e.PassEvent? ==> timeout > 0 && e.world.now - created > timeout && e.world.task(id).refund != NothingWritten
  }

  lemma {:induction false} WaitingRunAt(w: World, timeout: int, events: seq<Event>, stuck: set<string>, id: string, at: int, i: nat)
    requires WaitingRun(w, timeout, events, stuck, id, at) && i <= |events|
    ensures WaitingRun(w, timeout, events[..i], stuck, id, at)
    ensures i < |events| ==> Legal(AfterAll(w, timeout, events[..i]), timeout, events[i]) && Healthy(events[i], timeout, at)
  {
    if i == |events| {
      assert events[..i] == events;
    } else if i < |events| - 1 {
      var front := events[..|events| - 1];
      WaitingRunAt(w, timeout, front, stuck, id, at, i);
      assert front[..i] == events[..i] && front[i] == events[i];
    }
  }

  /**
   The same for one task past its own timeout, whatever the age of the others: k < 50 of them may be
   stuck, and ceil(r / (50 - k)) passes fail it, r as in `BoundedWaiting`.
   */
  lemma OwnTimeoutFails(w: World, timeout: int, events: seq<Event>, stuck: set<string>, id: string, at: int)
    requires WaitingAt(w.ledger, id, at) && id !in stuck && |stuck| < BATCH
    requires WaitingRun(w, timeout, events, stuck, id, at)
    requires forall e :: e in events ==> PastOwnTimeout(e, timeout, id, w.ledger.tasks[id].createdAt)
    requires (BATCH - |stuck|) * Passes(events) >= |DueBy(w.ledger, at) - stuck|
    ensures exists i :: 0 <= i < |events| && events[i].PassEvent? && id in events[i].batch && FailedAfter(w, timeout, events[..i + 1], id)
  {
    BoundedWaiting(w, timeout, events, stuck, id, at);
    var i := FirstTaken(events, id);
    assert events[i] in events;
    OwnTimeoutAt(w, timeout, events, stuck, id, at, i);
  }

  lemma OwnTimeoutAt(w: World, timeout: int, events: seq<Event>, stuck: set<string>, id: string, at: int, i: nat)
    requires WaitingAt(w.ledger, id, at) && id !in stuck && |stuck| < BATCH
    requires WaitingRun(w, timeout, events, stuck, id, at)
    requires i < |events| && events[i].PassEvent? && id in events[i].batch && !TakenUp(events[..i], id)
    requires PastOwnTimeout(events[i], timeout, id, w.ledger.tasks[id].createdAt)
    ensures FailedAfter(w, timeout, events[..i + 1], id)
  {
    WaitingUpTo(w, timeout, events, stuck, id, at, i);
    assert events[..i + 1][..i] == events[..i];
    OwnTurn(AfterAll(w, timeout, events[..i]), timeout, events[i], id, at);
  }

  /** Until it is first taken up the task's row stays as it was. */
  lemma WaitingUpTo(w: World, timeout: int, events: seq<Event>, stuck: set<string>, id: string, at: int, i: nat)
    requires WaitingAt(w.ledger, id, at) && id !in stuck && |stuck| < BATCH
    requires WaitingRun(w, timeout, events, stuck, id, at) && i < |events| && !TakenUp(events[..i], id)
    ensures var wi := AfterAll(w, timeout, events[..i]);
      && WaitingAt(wi.ledger, id, at) && wi.ledger.tasks[id] == w.ledger.tasks[id]
      && Legal(wi, timeout, events[i]) && Healthy(events[i], timeout, at)
  {
    WaitingRunAt(w, timeout, events, stuck, id, at, i);
    WaitingShrinksQueue(w, timeout, events[..i], stuck, id, at);
  }

  lemma OwnTurn(w: World, timeout: int, e: Event, id: string, at: int)
    requires WaitingAt(w.ledger, id, at) && e.PassEvent? && id in e.batch && Legal(w, timeout, e) && Healthy(e, timeout, at)
    requires PastOwnTimeout(e, timeout, id, w.ledger.tasks[id].createdAt)
    ensures id in After(w, timeout, e).ledger.tasks && After(w, timeout, e).ledger.tasks[id].status == L.Failed
  {
    TakenUpMeansMoved(w, timeout, e.world, e.sweep, e.batch, id);
  }

  // ---------- tasks that never got an upstream id ----------

  function StaleBy(s: L.State, created: int): set<string> {
    set id | id in s.tasks && s.tasks[id].status == L.Running && s.tasks[id].upstream == "" && s.tasks[id].createdAt <= created
  }

  /** The task is Running without an upstream id, and its starter is gone: no step acts on it any more. */
  predicate Abandoned(s: L.State, id: string, created: int) {
    id in s.tasks && s.tasks[id].status == L.Running && s.tasks[id].upstream == "" && s.tasks[id].createdAt == created
  }

  predicate SweepWorks(e: Event, timeout: int, created: int) {
    e.PassEvent? ==>
      && timeout > 0 && !e.world.cancelled && e.world.sweepQueryOk && created < e.world.now - timeout
      && forall id :: id in e.sweep ==> e.world.task(id).refund != NothingWritten
  }

  predicate LaterStarts(e: Event, id: string, created: int) {
    e.StepEvent? ==>
      && L.Target(e.step) != Some(id)
      && (e.step.ReserveStep? ==> e.step.now > created) && (e.step.ChatStep? ==> e.step.now > created)
  }

  lemma SweepShrinksStale(w: World, timeout: int, p: PassWorld, sweep: seq<string>, batch: seq<string>, id: string, created: int)
    requires Abandoned(w.ledger, id, created) && id !in sweep
    requires Answers(w, timeout, p, sweep, batch) && SweepWorks(PassEvent(p, sweep, batch), timeout, created)
    ensures var s := Pass(w, timeout, p, sweep, batch).ledger;
      && id in s.tasks && s.tasks[id] == w.ledger.tasks[id]
      && |StaleBy(s, created)| + SWEEP <= |StaleBy(w.ledger, created)|
  {
    var s1 := SweepAll(w.ledger, sweep, p);
    SweepClearsStale(w.ledger, timeout, p, sweep, id, created);
    AdvanceAllEffect(w.(ledger := s1), batch, timeout, p);
    BatchKeepsStale(s1, Pass(w, timeout, p, sweep, batch).ledger, batch, timeout, p, id, created);
  }

  lemma SweepClearsStale(s: L.State, timeout: int, p: PassWorld, sweep: seq<string>, id: string, created: int)
    requires Abandoned(s, id, created) && id !in sweep && created < p.now - timeout
    requires IsTop(SweepKeys(s, timeout, p.now), SWEEP, sweep)
    requires forall k :: k in sweep ==> p.task(k).refund != NothingWritten
    ensures var s1 := SweepAll(s, sweep, p);
      id in s1.tasks && s1.tasks[id] == s.tasks[id] && |StaleBy(s1, created)| + SWEEP <= |StaleBy(s, created)|
  {
    var keys, s1 := SweepKeys(s, timeout, p.now), SweepAll(s, sweep, p);
    assert id in keys;
    LeftOutMeansFull(keys, SWEEP, sweep, id);
    SweepAllEffect(s, sweep, p);
    forall k | k in sweep ensures k in StaleBy(s, created) && k !in StaleBy(s1, created) {
      assert AtMost(keys[k], keys[id]);
    }
    DistinctSize(sweep);
    LeavingShrinks(StaleBy(s, created), StaleBy(s1, created), Elements(sweep), {});
  }

  lemma BatchKeepsStale(s: L.State, s': L.State, batch: seq<string>, timeout: int, p: PassWorld, id: string, created: int)
    requires BatchEffect(s, s', batch, timeout, p) && forall k :: k in batch ==> s.tasks[k].upstream != ""
    requires Abandoned(s, id, created)
    ensures id in s'.tasks && s'.tasks[id] == s.tasks[id] && StaleBy(s', created) == StaleBy(s, created)
  {
    forall k | k in s.tasks ensures k in StaleBy(s', created) <==> k in StaleBy(s, created) {
      if k in batch {
        assert RowEffect(s.tasks[k], s'.tasks[k], timeout, p.task(k));
      }
    }
  }

  lemma LaterStartsKeepStale(s: L.State, step: L.Step, id: string, created: int)
    requires Abandoned(s, id, created) && L.Enabled(s, step) && LaterStarts(StepEvent(step), id, created)
    requires step.UpstreamStep? ==> step.upstream != ""
    ensures var s' := L.Apply(s, step);
      && id in s'.tasks && s'.tasks[id] == s.tasks[id]
      && |StaleBy(s', created)| <= |StaleBy(s, created)|
  {
    var s' := L.Apply(s, step);
    L.StepFrames(s, step);
    forall k | k in StaleBy(s', created) ensures k in StaleBy(s, created) {
      if L.Target(step) == Some(k) {
        L.TargetMoves(s, step, k);
      }
    }
    SubsetSize(StaleBy(s', created), StaleBy(s, created));
  }

  /** Working sweeps, mixed with other handlers' steps that leave `id` alone and start nothing older. */
  ghost predicate SweepingRun(w: World, timeout: int, events: seq<Event>, id: string, created: int) {
    events == [] ||
    (var front, last := events[..|events| - 1], events[|events| - 1];
     && SweepingRun(w, timeout, front, id, created)
     && Legal(AfterAll(w, timeout, front), timeout, last)
     && SweepWorks(last, timeout, created) && LaterStarts(last, id, created)
     && (last.StepEvent? && last.step.UpstreamStep? ==> last.step.upstream != ""))
  }

  lemma {:induction false} SweepingRunAt(w: World, timeout: int, events: seq<Event>, id: string, created: int, i: nat)
    requires SweepingRun(w, timeout, events, id, created) && i < |events|
    ensures Legal(AfterAll(w, timeout, events[..i]), timeout, events[i]) && SweepWorks(events[i], timeout, created)
  {
    var front := events[..|events| - 1];
    if i < |front| {
      SweepingRunAt(w, timeout, front, id, created, i);
      assert front[..i] == events[..i];
    }
  }

  lemma {:induction false} StaleQueueShrinks(w: World, timeout: int, events: seq<Event>, id: string, created: int)
    requires Abandoned(w.ledger, id, created) && SweepingRun(w, timeout, events, id, created)
    requires forall i :: 0 <= i < |events| && events[i].PassEvent? ==> id !in events[i].sweep
    ensures var s := AfterAll(w, timeout, events).ledger;
      && Abandoned(s, id, created)
      && 1 + SWEEP * Passes(events) <= |StaleBy(s, created)| + SWEEP * Passes(events) <= |StaleBy(w.ledger, created)|
  {
    if events != [] {
      var front, last := events[..|events| - 1], events[|events| - 1];
      forall i | 0 <= i < |front| ensures front[i] == events[i] {}
      StaleQueueShrinks(w, timeout, front, id, created);
      var wi := AfterAll(w, timeout, front);
      match last {
        case PassEvent(p, sweep, batch) => SweepShrinksStale(wi, timeout, p, sweep, batch, id, created);
        case StepEvent(step) => LaterStartsKeepStale(wi.ledger, step, id, created);
      }
    }
    assert id in StaleBy(AfterAll(w, timeout, events).ledger, created);
  }

  /**
   No task runs forever, even if its starter died and no adapter answers: once it is older than the
   timeout, ceil(r / 20) passes fail it, r being the number of Running tasks without upstream id at
   least as old.
   */
  lemma AbandonedTaskIsFailed(w: World, timeout: int, events: seq<Event>, id: string, created: int)
    requires Abandoned(w.ledger, id, created) && SweepingRun(w, timeout, events, id, created)
    requires SWEEP * Passes(events) >= |StaleBy(w.ledger, created)|
    ensures exists i :: 0 <= i < |events| && events[i].PassEvent? && id in events[i].sweep && FailedAfter(w, timeout, events[..i + 1], id)
  {
    if forall i :: 0 <= i < |events| && events[i].PassEvent? ==> id !in events[i].sweep {
      StaleQueueShrinks(w, timeout, events, id, created);
    } else {
      var i :| 0 <= i < |events| && events[i].PassEvent? && id in events[i].sweep;
      SweptAt(w, timeout, events, id, created, i);
    }
  }

  lemma SweptAt(w: World, timeout: int, events: seq<Event>, id: string, created: int, i: nat)
    requires SweepingRun(w, timeout, events, id, created) && i < |events| && events[i].PassEvent? && id in events[i].sweep
    ensures FailedAfter(w, timeout, events[..i + 1], id)
  {
    assert events[..i + 1][..i] == events[..i];
    SweepingRunAt(w, timeout, events, id, created, i);
    SweptIsFailed(AfterAll(w, timeout, events[..i]), timeout, events[i], id, created);
  }

  lemma SweptIsFailed(w: World, timeout: int, e: Event, id: string, created: int)
    requires e.PassEvent? && id in e.sweep && Legal(w, timeout, e) && SweepWorks(e, timeout, created)
    ensures id in After(w, timeout, e).ledger.tasks && After(w, timeout, e).ledger.tasks[id].status == L.Failed
  {
    var s := SweepAll(w.ledger, e.sweep, e.world);
    SweepAllEffect(w.ledger, e.sweep, e.world);
    assert id !in e.batch && forall k :: k in e.batch ==> k in s.tasks;
    AdvanceAllEffect(w.(ledger := s), e.batch, timeout, e.world);
  }

  // ---------- why the world has to be responsive ----------

  /** Tasks ahead of `id` in the queue. */
  predicate Ahead(s: L.State, stuck: set<string>, id: string, at: int) {
    forall k :: k in stuck ==>
      && k in s.tasks && s.tasks[k].status == L.Running && s.tasks[k].upstream != ""
      && s.tasks[k].nextPollAt.Some? && s.tasks[k].nextPollAt.value < at
  }

  /** Enough of them to fill a batch. */
  predicate StuckAhead(s: L.State, stuck: set<string>, id: string, at: int) {
    |stuck| >= BATCH && Ahead(s, stuck, id, at)
  }

  predicate KeepsStuck(s: L.State, stuck: set<string>, timeout: int, e: Event) {
    match e
    case PassEvent(p, _, _) => forall k :: k in stuck && k in s.tasks ==> Stuck(s.tasks[k], timeout, p.task(k))
    case StepEvent(step) => L.Target(step).Some? ==> L.Target(step).value !in stuck
  }

  lemma StuckPass(w: World, timeout: int, p: PassWorld, sweep: seq<string>, batch: seq<string>,
                  stuck: set<string>, id: string, at: int)
    requires WaitingAt(w.ledger, id, at) && p.now >= at && StuckAhead(w.ledger, stuck, id, at)
    requires Answers(w, timeout, p, sweep, batch) && KeepsStuck(w.ledger, stuck, timeout, PassEvent(p, sweep, batch))
    ensures id !in batch
    ensures var s := Pass(w, timeout, p, sweep, batch).ledger;
      && id in s.tasks && s.tasks[id] == w.ledger.tasks[id]
      && forall k :: k in stuck ==> k in s.tasks && s.tasks[k] == w.ledger.tasks[k]
  {
    var s1 := SweepAll(w.ledger, sweep, p);
    SweepAllEffect(w.ledger, sweep, p);
    forall k | k in stuck + {id} ensures k !in sweep && s1.tasks[k] == w.ledger.tasks[k] {}
    StuckFirst(s1, p.now, batch, stuck, id, at);
    assert forall k :: k in batch ==> k in s1.tasks;
    AdvanceAllEffect(w.(ledger := s1), batch, timeout, p);
    forall k | k in stuck ensures Pass(w, timeout, p, sweep, batch).ledger.tasks[k] == w.ledger.tasks[k] {
      StuckRowStays(w.(ledger := s1), batch, timeout, p, k);
    }
  }

  lemma StuckFirst(s: L.State, now: int, batch: seq<string>, stuck: set<string>, id: string, at: int)
    requires WaitingAt(s, id, at) && now >= at && StuckAhead(s, stuck, id, at)
    requires batch == [] || IsTop(DueKeys(s, now), BATCH, batch)
    ensures id !in batch
  {
    var keys := DueKeys(s, now);
    if id in batch {
      forall k | k in stuck ensures k in Elements(batch) {
        assert !AtMost(keys[id], keys[k]);
      }
      SubsetSize(stuck + {id}, Elements(batch));
      DistinctSize(batch);
      assert false;
    }
  }

  lemma {:induction false} StuckRowStays(w: World, batch: seq<string>, timeout: int, p: PassWorld, k: string)
    requires Distinct(batch) && forall id :: id in batch ==> id in w.ledger.tasks
    requires k in w.ledger.tasks
    requires Stuck(w.ledger.tasks[k], timeout, p.task(k))
    ensures var s := AdvanceAll(w, batch, timeout, p).0.ledger;
      s.tasks.Keys == w.ledger.tasks.Keys && s.tasks[k] == w.ledger.tasks[k]
  {
    if batch != [] {
      var front, last := batch[..|batch| - 1], batch[|batch| - 1];
      StuckRowStays(w, front, timeout, p, k);
      AdvanceOneEffect(AdvanceAll(w, front, timeout, p).0, last, timeout, p.task(last));
    }
  }

  /** Passes that leave the stuck tasks stuck, mixed with steps on neither them nor `id`. */
  ghost predicate StuckRun(w: World, timeout: int, events: seq<Event>, stuck: set<string>, id: string, at: int) {
    events == [] ||
    (var front, last := events[..|events| - 1], events[|events| - 1];
     var wi := AfterAll(w, timeout, front);
     && StuckRun(w, timeout, front, stuck, id, at)
     && Legal(wi, timeout, last) && KeepsStuck(wi.ledger, stuck, timeout, last)
     && (last.PassEvent? ==> last.world.now >= at)
     && (last.StepEvent? ==> L.Target(last.step) != Some(id)))
  }

  /**
   Head-of-line blocking. Fifty tasks due earlier that a turn leaves as they are (a key that does not
   decrypt, an adapter that is missing, an unknown answer, writes that fail) are neither rescheduled
   nor failed, so as long as that lasts no number of passes reaches anything behind them.
   */
  lemma {:induction false} StarvedBehindStuckTasks(w: World, timeout: int, events: seq<Event>,
                                                   stuck: set<string>, id: string, at: int)
    requires WaitingAt(w.ledger, id, at) && StuckAhead(w.ledger, stuck, id, at)
    requires StuckRun(w, timeout, events, stuck, id, at)
    ensures var s := AfterAll(w, timeout, events).ledger;
      && WaitingAt(s, id, at) && s.tasks[id] == w.ledger.tasks[id]
      && StuckAhead(s, stuck, id, at)
    ensures !TakenUp(events, id)
  {
    if events != [] {
      var front, last := events[..|events| - 1], events[|events| - 1];
      TakenUpSnoc(events, id);
      StarvedBehindStuckTasks(w, timeout, front, stuck, id, at);
      StuckEvent(AfterAll(w, timeout, front), timeout, last, stuck, id, at);
    }
  }

  lemma StuckEvent(w: World, timeout: int, e: Event, stuck: set<string>, id: string, at: int)
    requires WaitingAt(w.ledger, id, at) && StuckAhead(w.ledger, stuck, id, at)
    requires Legal(w, timeout, e) && KeepsStuck(w.ledger, stuck, timeout, e)
    requires e.PassEvent? ==> e.world.now >= at
    requires e.StepEvent? ==> L.Target(e.step) != Some(id)
    ensures var s := After(w, timeout, e).ledger;
      && WaitingAt(s, id, at) && s.tasks[id] == w.ledger.tasks[id] && StuckAhead(s, stuck, id, at)
      && forall k :: k in stuck ==> s.tasks[k] == w.ledger.tasks[k]
    ensures e.PassEvent? ==> id !in e.batch
  {
    match e
    case PassEvent(p, sweep, batch) => StuckPass(w, timeout, p, sweep, batch, stuck, id, at);
    case StepEvent(step) => StuckStep(w.ledger, step, stuck, id, at);
  }

  lemma StuckStep(s: L.State, step: L.Step, stuck: set<string>, id: string, at: int)
    requires WaitingAt(s, id, at) && StuckAhead(s, stuck, id, at) && L.Enabled(s, step)
    requires L.Target(step) != Some(id) && (L.Target(step).Some? ==> L.Target(step).value !in stuck)
    ensures var s' := L.Apply(s, step);
      && WaitingAt(s', id, at) && s'.tasks[id] == s.tasks[id] && StuckAhead(s', stuck, id, at)
      && forall k :: k in stuck ==> s'.tasks[k] == s.tasks[k]
  {
    L.StepFrames(s, step);
  }

  // ---------- the ticking poller ----------

  /** The time of the latest pass. */
  function Latest(events: seq<Event>, at: int): int {
    if events == [] then at
    else if events[|events| - 1].PassEvent? then events[|events| - 1].world.now
    else Latest(events[..|events| - 1], at)
  }

  /**
   The clock never goes back, and every pass takes a tick of its own. The ticker keeps one tick for a pass
   that comes late, so the j-th pass after the first shows at least j - 1 ticks more than `at`.
   */
  predicate Ticking(events: seq<Event>, tick: int, at: int) {
    events == [] ||
    (var front, last := events[..|events| - 1], events[|events| - 1];
     && Ticking(front, tick, at)
     && (last.PassEvent? ==> last.world.now >= Latest(front, at) && last.world.now >= at + PerPass(front, tick) - tick))
  }

  /** A waiting run of the ticking poller, in which `marks` says whether all refunds leave a mark. */
  ghost predicate PollerRun(w: World, timeout: int, tick: int, marks: bool, events: seq<Event>, stuck: set<string>, id: string, at: int) {
    && WaitingRun(w, timeout, events, stuck, id, at) && Ticking(events, tick, at)
    && (marks ==> forall e :: e in events ==> Marks(e))
  }

  function LatePasses(events: seq<Event>, grace: nat): nat {
    if Passes(events) > grace then Passes(events) - grace else 0
  }

  /** One event that does not take the task up; past the timeout a pass clears a whole batch. */
  lemma AgeingEvent(w: World, timeout: int, e: Event, stuck: set<string>, id: string, at: int, created: int, late: bool)
    requires WaitingAt(w.ledger, id, at) && OldQueue(w.ledger, at, created) && (e.PassEvent? ==> id !in e.batch)
    requires Legal(w, timeout, e) && Responsive(w, timeout, e, stuck) && Healthy(e, timeout, at) && Outsider(e, id, at)
    requires late ==> e.PassEvent? && PastTimeout(e, timeout, created)
    ensures var s' := After(w, timeout, e).ledger;
      && WaitingAt(s', id, at) && OldQueue(s', at, created)
      && |DueBy(s', at)| + (if late then BATCH else 0) <= |DueBy(w.ledger, at)|
  {
    EventKeepsOld(w, timeout, e, id, at, created);
    WaitingEvent(w, timeout, e, stuck, id, at);
    SubsetSize(DueBy(After(w, timeout, e).ledger, at), DueBy(w.ledger, at));
    if late {
      TimeoutMoves(w, timeout, e, id, at, created);
      WaitingEvent(w, timeout, e, {}, id, at);
      NothingTaken(DueBy(w.ledger, at), DueBy(After(w, timeout, e).ledger, at));
    }
  }

  lemma NothingTaken(a: set<string>, b: set<string>)
    ensures a - {} == a && b - {} == b
  {
  }

  lemma MulMono(tick: int, few: int, many: int)
    requires tick >= 0 && few <= many
    ensures tick * few <= tick * many
  {
  }

  lemma LateTicks(events: seq<Event>, tick: int, grace: nat)
    requires tick >= 0 && Passes(events) >= grace
    ensures PerPass(events, tick) >= tick * grace
  {
    PerPassIsProduct(events, tick);
    MulMono(tick, grace, Passes(events));
  }

  lemma {:induction false} AgeingShrinksQueue(w: World, timeout: int, tick: int, events: seq<Event>, stuck: set<string>,
                                              id: string, at: int, created: int, grace: nat)
    requires WaitingAt(w.ledger, id, at) && OldQueue(w.ledger, at, created)
    requires timeout > 0 && tick > 0 && tick * grace > timeout + created - at + tick
    requires PollerRun(w, timeout, tick, true, events, stuck, id, at) && !TakenUp(events, id)
    ensures var s := AfterAll(w, timeout, events).ledger;
      && WaitingAt(s, id, at) && OldQueue(s, at, created)
      && |DueBy(s, at)| + BATCH * LatePasses(events, grace) <= |DueBy(w.ledger, at)|
  {
    if events != [] {
      var front, last := events[..|events| - 1], events[|events| - 1];
      TakenUpSnoc(events, id);
      AgeingShrinksQueue(w, timeout, tick, front, stuck, id, at, created, grace);
      var late := last.PassEvent? && Passes(front) >= grace;
      if late {
        LateTicks(front, tick, grace);
      }
      assert last in events;
      AgeingEvent(AfterAll(w, timeout, front), timeout, last, stuck, id, at, created, late);
    }
  }

  lemma AgeingNotTakenUp(w: World, timeout: int, tick: int, events: seq<Event>, stuck: set<string>,
                         id: string, at: int, created: int, grace: nat)
    requires WaitingAt(w.ledger, id, at) && OldQueue(w.ledger, at, created)
    requires timeout > 0 && tick > 0 && tick * grace > timeout + created - at + tick
    requires PollerRun(w, timeout, tick, true, events, stuck, id, at) && !TakenUp(events, id)
    ensures BATCH * LatePasses(events, grace) < |DueBy(w.ledger, at)|
  {
    AgeingShrinksQueue(w, timeout, tick, events, stuck, id, at, created, grace);
    assert id in DueBy(AfterAll(w, timeout, events).ledger, at);
  }

  /**
   The timeout bounds waiting, however many tasks are stuck: with refunds that leave a mark, a due task
   is taken up within `grace` passes, whose ticks make everything due by then older than the timeout,
   and ceil(r / 50) passes more, r being the number of Running tasks due by then.
   */
  lemma TimeoutBoundsWaiting(w: World, timeout: int, tick: int, events: seq<Event>, stuck: set<string>,
                             id: string, at: int, created: int, grace: nat)
    requires WaitingAt(w.ledger, id, at) && OldQueue(w.ledger, at, created)
    requires timeout > 0 && tick > 0 && tick * grace > timeout + created - at + tick
    requires PollerRun(w, timeout, tick, true, events, stuck, id, at)
    requires BATCH * (Passes(events) - grace) >= |DueBy(w.ledger, at)|
    ensures TakenUp(events, id)
  {
    if !TakenUp(events, id) {
      AgeingNotTakenUp(w, timeout, tick, events, stuck, id, at, created, grace);
    }
  }

  /** Some time bounds the creation of these tasks. */
  lemma {:induction false} NewestOf(s: L.State, ids: set<string>) returns (created: int)
    requires ids <= s.tasks.Keys
    ensures forall k :: k in ids ==> s.tasks[k].createdAt <= created
  {
    created := 0;
    if ids != {} {
      var k :| k in ids;
      var rest := NewestOf(s, ids - {k});
      created := if s.tasks[k].createdAt < rest then rest else s.tasks[k].createdAt;
    }
  }

  // ---------- exactly fifty, or a timeout ----------

  /** A turn that finds its upstream still running. */
  function Alive(now: int): TaskWorld {
    TaskWorld(now, true, true, true, PollOk(UpRunning, 0.0, []), false, (i: nat) => F.Fetch(false, "", "", "", F.WriteFailed), false,
              true, RefundCommits)
  }

  /** The same with a key that does not decrypt and, unless it `marks`, a refund that writes nothing. */
  function Blind(now: int, marks: bool): TaskWorld {
    Alive(now).(decrypts := false, refund := if marks then RefundCommits else NothingWritten)
  }

  /** A pass during which exactly these tasks meet such a turn. */
  function BlindPass(stuck: set<string>, now: int, marks: bool): PassWorld {
    PassWorld(now, false, true, true, (k: string) => if k in stuck then Blind(now, marks) else Alive(now))
  }

  /** Until then no timeout that leaves a mark ends any of these tasks. */
  predicate Lasting(s: L.State, stuck: set<string>, timeout: int, until: int, marks: bool) {
    marks ==> forall k :: k in stuck && k in s.tasks ==> !TimedOut(s.tasks[k], timeout, until)
  }

  /** There is always one more pass that leaves `id` out. */
  lemma BlindPassExists(w: World, timeout: int, marks: bool, stuck: set<string>, id: string, at: int, now: int) returns (e: Event)
    requires WaitingAt(w.ledger, id, at) && id !in stuck && StuckAhead(w.ledger, stuck, id, at)
    requires now >= at && Lasting(w.ledger, stuck, timeout, now, marks)
    ensures e.PassEvent? && Legal(w, timeout, e) && Responsive(w, timeout, e, stuck) && Healthy(e, timeout, at)
    ensures KeepsStuck(w.ledger, stuck, timeout, e) && e.world.now == now && (marks ==> Marks(e))
  {
    var p := BlindPass(stuck, now, marks);
    var sweep: seq<string> := [];
    if timeout > 0 {
      sweep := TopExists(SweepKeys(w.ledger, timeout, now), SWEEP);
    }
    var batch := TopExists(DueKeys(SweepAll(w.ledger, sweep, p), now), BATCH);
    e := PassEvent(p, sweep, batch);
  }

  /** Such a pass takes the run one tick further. */
  lemma StarvingRunGrows(w: World, timeout: int, tick: int, marks: bool, before: seq<Event>, e: Event,
                         stuck: set<string>, id: string, at: int)
    requires WaitingAt(w.ledger, id, at) && id !in stuck && StuckAhead(w.ledger, stuck, id, at)
    requires PollerRun(w, timeout, tick, marks, before, stuck, id, at) && StuckRun(w, timeout, before, stuck, id, at)
    requires var wi := AfterAll(w, timeout, before);
      && e.PassEvent? && Legal(wi, timeout, e) && Responsive(wi, timeout, e, stuck) && Healthy(e, timeout, at)
      && KeepsStuck(wi.ledger, stuck, timeout, e) && (marks ==> Marks(e))
    requires tick > 0 && OnePassATick(before, tick, at) && e.world.now == at + PerPass(before, tick) >= Latest(before, at)
    ensures var events := before + [e];
      && PollerRun(w, timeout, tick, marks, events, stuck, id, at) && StuckRun(w, timeout, events, stuck, id, at)
      && OnePassATick(events, tick, at) && Passes(events) == Passes(before) + 1
  {
    assert (before + [e])[..|before|] == before;
  }

  lemma {:induction false} StuckRowsStay(w: World, timeout: int, events: seq<Event>, stuck: set<string>, id: string, at: int)
    requires WaitingAt(w.ledger, id, at) && StuckAhead(w.ledger, stuck, id, at)
    requires StuckRun(w, timeout, events, stuck, id, at)
    ensures var s := AfterAll(w, timeout, events).ledger;
      forall k :: k in stuck ==> k in s.tasks && s.tasks[k] == w.ledger.tasks[k]
  {
    if events != [] {
      var front, last := events[..|events| - 1], events[|events| - 1];
      StuckRowsStay(w, timeout, front, stuck, id, at);
      StarvedBehindStuckTasks(w, timeout, front, stuck, id, at);
      StuckEvent(AfterAll(w, timeout, front), timeout, last, stuck, id, at);
    }
  }

  /**
   Behind fifty stuck tasks there are runs of n passes, one a tick, that never take `id` up: for every n
   if refunds leave no mark or there is no timeout, else for the n that end before the timeout.
   */
  lemma {:induction false} StarvingRunExists(w: World, timeout: int, tick: int, marks: bool, stuck: set<string>, id: string, at: int, n: nat)
    returns (events: seq<Event>)
    requires WaitingAt(w.ledger, id, at) && id !in stuck && StuckAhead(w.ledger, stuck, id, at)
    requires tick > 0 && Lasting(w.ledger, stuck, timeout, at + tick * n, marks)
    ensures PollerRun(w, timeout, tick, marks, events, stuck, id, at) && StuckRun(w, timeout, events, stuck, id, at)
    ensures OnePassATick(events, tick, at) && Passes(events) == n && !TakenUp(events, id)
  {
    if n == 0 {
      events := [];
    } else {
      MulMono(tick, n - 1, n);
      var before := StarvingRunExists(w, timeout, tick, marks, stuck, id, at, n - 1);
      PerPassIsProduct(before, tick);
      events := NextStarvingPass(w, timeout, tick, marks, before, stuck, id, at);
    }
  }

  /** One tick further. */
  lemma NextStarvingPass(w: World, timeout: int, tick: int, marks: bool, before: seq<Event>, stuck: set<string>, id: string, at: int)
    returns (events: seq<Event>)
    requires WaitingAt(w.ledger, id, at) && id !in stuck && StuckAhead(w.ledger, stuck, id, at)
    requires PollerRun(w, timeout, tick, marks, before, stuck, id, at) && StuckRun(w, timeout, before, stuck, id, at)
    requires tick > 0 && OnePassATick(before, tick, at) && Lasting(w.ledger, stuck, timeout, at + PerPass(before, tick), marks)
    ensures PollerRun(w, timeout, tick, marks, events, stuck, id, at) && StuckRun(w, timeout, events, stuck, id, at)
    ensures OnePassATick(events, tick, at) && Passes(events) == Passes(before) + 1 && !TakenUp(events, id)
  {
    var wi := AfterAll(w, timeout, before);
    StarvedBehindStuckTasks(w, timeout, before, stuck, id, at);
    StuckRowsStay(w, timeout, before, stuck, id, at);
    OnePassATickLaw(before, tick, at);
    var e := BlindPassExists(wi, timeout, marks, stuck, id, at, at + PerPass(before, tick));
    StarvingRunGrows(w, timeout, tick, marks, before, e, stuck, id, at);
    events := before + [e];
    StarvedBehindStuckTasks(w, timeout, events, stuck, id, at);
  }

  /** Nothing but passes, the first at `at` and then one with every tick. */
  predicate OnePassATick(events: seq<Event>, tick: int, at: int) {
    events == [] ||
    (var front, last := events[..|events| - 1], events[|events| - 1];
     && OnePassATick(front, tick, at)
     && last.PassEvent? && last.world.now == at + PerPass(front, tick))
  }

  lemma {:induction false} OnePassATickLaw(events: seq<Event>, tick: int, at: int)
    requires tick > 0 && OnePassATick(events, tick, at)
    ensures PerPass(events, tick) >= 0 && Latest(events, at) <= at + PerPass(events, tick)
  {
    if events != [] {
      OnePassATickLaw(events[..|events| - 1], tick, at);
    }
  }

  /** Some number of passes is enough, whichever of these tasks are stuck and whatever else happens. */
  ghost predicate Guaranteed(w: World, timeout: int, tick: int, marks: bool, stuck: set<string>, id: string, at: int) {
    exists n: nat :: EnoughPasses(w, timeout, tick, marks, stuck, id, at, n)
  }

  ghost predicate EnoughPasses(w: World, timeout: int, tick: int, marks: bool, stuck: set<string>, id: string, at: int, n: nat) {
    forall events :: PollerRun(w, timeout, tick, marks, events, stuck, id, at) && Passes(events) >= n ==> TakenUp(events, id)
  }

  /**
   The exact condition for bounded waiting on the ticking poller, with a set of tasks ahead of `id` that
   may be stuck: the set is smaller than a batch, or there is a timeout and its refunds leave a mark.
   */
  lemma WaitingIsBoundedIff(w: World, timeout: int, tick: int, marks: bool, stuck: set<string>, id: string, at: int)
    requires WaitingAt(w.ledger, id, at) && id !in stuck && Ahead(w.ledger, stuck, id, at) && tick > 0
    ensures Guaranteed(w, timeout, tick, marks, stuck, id, at) <==> |stuck| < BATCH || (timeout > 0 && marks)
  {
    if |stuck| < BATCH {
      FewStuckSuffice(w, timeout, tick, marks, stuck, id, at);
    } else if timeout > 0 && marks {
      TimeoutSuffices(w, timeout, tick, stuck, id, at);
    } else if Guaranteed(w, timeout, tick, marks, stuck, id, at) {
      var n: nat :| EnoughPasses(w, timeout, tick, marks, stuck, id, at, n);
      var _ := StarvingRunExists(w, timeout, tick, marks, stuck, id, at, n);
      assert false;
    }
  }

  lemma FewStuckSuffice(w: World, timeout: int, tick: int, marks: bool, stuck: set<string>, id: string, at: int)
    requires WaitingAt(w.ledger, id, at) && id !in stuck && |stuck| < BATCH
    ensures EnoughPasses(w, timeout, tick, marks, stuck, id, at, |DueBy(w.ledger, at) - stuck|)
  {
    var n := |DueBy(w.ledger, at) - stuck|;
    forall events | PollerRun(w, timeout, tick, marks, events, stuck, id, at) && Passes(events) >= n ensures TakenUp(events, id) {
      AtLeastOnce(BATCH - |stuck|, Passes(events));
      BoundedWaiting(w, timeout, events, stuck, id, at);
    }
  }

  lemma TimeoutSuffices(w: World, timeout: int, tick: int, stuck: set<string>, id: string, at: int)
    requires WaitingAt(w.ledger, id, at) && timeout > 0 && tick > 0
    ensures Guaranteed(w, timeout, tick, true, stuck, id, at)
  {
    var created := NewestOf(w.ledger, DueBy(w.ledger, at));
    var grace: nat := if timeout + created - at < 0 then 2 else timeout + created - at + 2;
    AtLeastOnce(tick, grace - 1);
    assert tick * grace == tick * (grace - 1) + tick;
    var n := grace + |DueBy(w.ledger, at)|;
    forall events | PollerRun(w, timeout, tick, true, events, stuck, id, at) && Passes(events) >= n ensures TakenUp(events, id) {
      TimeoutBoundsWaiting(w, timeout, tick, events, stuck, id, at, created, grace);
    }
    assert EnoughPasses(w, timeout, tick, true, stuck, id, at, n);
  }

  lemma AtLeastOnce(room: int, passes: nat)
    requires room >= 1
    ensures room * passes >= passes
  {
  }

  // ---------- a reachable queue ----------

  /** The i-th task's id. */
  function Name(i: nat): string {
    seq(i + 1, _ => 't')
  }

  /** One user starts n tasks, one a millisecond, each getting its upstream id at once. */
  function QueueSteps(n: nat, credits: int): seq<L.Step> {
    if n == 0 then [L.AdjustStep("u", credits), L.LimitStep("u", 0)]
    else QueueSteps(n - 1, credits) + [L.ReserveStep("u", Name(n - 1), 1, n - 1), L.UpstreamStep(Name(n - 1), "x", n - 1)]
  }

  predicate Queued(s: L.State, n: nat, credits: int) {
    && "u" in s.users && s.users["u"].balance == credits - n && s.users["u"].concurrentLimit == 0
    && (forall k :: k in s.tasks ==> |k| <= n)
    && (forall i :: 0 <= i < n ==> Name(i) in s.tasks && s.tasks[Name(i)] == L.NewTask("u", 1, i).(upstream := "x"))
  }

  lemma {:induction false} QueueIsReachable(n: nat, credits: int)
    requires n <= credits && credits > 0
    ensures L.RunEnabled(L.EMPTY, QueueSteps(n, credits)) && Queued(L.Run(L.EMPTY, QueueSteps(n, credits)), n, credits)
  {
    if n == 0 {
      FirstSteps(credits);
    } else {
      QueueIsReachable(n - 1, credits);
      QueueGrows(QueueSteps(n - 1, credits), n, credits);
    }
  }

  lemma QueueGrows(front: seq<L.Step>, n: nat, credits: int)
    requires 0 < n <= credits && L.RunEnabled(L.EMPTY, front) && Queued(L.Run(L.EMPTY, front), n - 1, credits)
    ensures var all := front + [L.ReserveStep("u", Name(n - 1), 1, n - 1), L.UpstreamStep(Name(n - 1), "x", n - 1)];
            L.RunEnabled(L.EMPTY, all) && Queued(L.Run(L.EMPTY, all), n, credits)
  {
    NextQueued(L.Run(L.EMPTY, front), n, credits);
    RunTwo(front, L.ReserveStep("u", Name(n - 1), 1, n - 1), L.UpstreamStep(Name(n - 1), "x", n - 1));
  }

  lemma RunTwo(front: seq<L.Step>, a: L.Step, b: L.Step)
    ensures L.Run(L.EMPTY, front + [a, b]) == L.Apply(L.Apply(L.Run(L.EMPTY, front), a), b)
    ensures L.RunEnabled(L.EMPTY, front + [a, b])
       <==> L.RunEnabled(L.EMPTY, front) && L.Enabled(L.Run(L.EMPTY, front), a) && L.Enabled(L.Apply(L.Run(L.EMPTY, front), a), b)
  {
    L.RunSnoc(L.EMPTY, front, a);
    L.RunSnoc(L.EMPTY, front + [a], b);
    assert front + [a, b] == front + [a] + [b];
  }

  lemma FirstSteps(credits: int)
    requires credits > 0
    ensures L.RunEnabled(L.EMPTY, QueueSteps(0, credits)) && Queued(L.Run(L.EMPTY, QueueSteps(0, credits)), 0, credits)
  {
    var adjust, limit := L.AdjustStep("u", credits), L.LimitStep("u", 0);
    L.RunSnoc(L.EMPTY, [], adjust);
    L.RunSnoc(L.EMPTY, [adjust], limit);
    assert [] + [adjust] == [adjust] && [adjust] + [limit] == [adjust, limit];
    assert L.Run(L.EMPTY, []) == L.EMPTY;
  }

  lemma NextQueued(s: L.State, n: nat, credits: int)
    requires 0 < n <= credits && Queued(s, n - 1, credits)
    ensures var mid := L.Apply(s, L.ReserveStep("u", Name(n - 1), 1, n - 1));
      && L.Enabled(mid, L.UpstreamStep(Name(n - 1), "x", n - 1))
      && Queued(L.Apply(mid, L.UpstreamStep(Name(n - 1), "x", n - 1)), n, credits)
  {
    var id := Name(n - 1);
    assert forall i :: 0 <= i < n - 1 ==> |Name(i)| < |id|;
    var mid := L.Apply(s, L.ReserveStep("u", id, 1, n - 1));
    assert mid.tasks == s.tasks[id := L.NewTask("u", 1, n - 1)];
  }

  function Names(n: nat): set<string> {
    if n == 0 then {} else Names(n - 1) + {Name(n - 1)}
  }

  lemma {:induction false} NamesLaw(n: nat)
    ensures |Names(n)| == n
    ensures forall k :: k in Names(n) ==> 1 <= |k| <= n && k == Name(|k| - 1)
  {
    if n > 0 {
      NamesLaw(n - 1);
      assert |Name(n - 1)| == n;
    }
  }

  /**
   A concrete queue. One user tops up fifty-one credits and starts fifty-one tasks. While the keys of the
   first fifty do not decrypt there are runs of n passes, one a tick, that never take up the last one:
   for any n without a timeout or with refunds that write nothing, and else for any n that ends before
   the timeout.
   */
  lemma FiftyStuckTasksStarve(timeout: int, tick: int, marks: bool, files: F.Store, n: nat) returns (events: seq<Event>)
    requires tick > 0 && (!marks || timeout <= 0 || 1050 + tick * n <= timeout)
    ensures L.RunEnabled(L.EMPTY, QueueSteps(BATCH + 1, BATCH + 1))
    ensures var w := World(L.Run(L.EMPTY, QueueSteps(BATCH + 1, BATCH + 1)), files);
      && WaitingAt(w.ledger, Name(BATCH), 1050)
      && PollerRun(w, timeout, tick, marks, events, Names(BATCH), Name(BATCH), 1050)
      && OnePassATick(events, tick, 1050) && Passes(events) == n && !TakenUp(events, Name(BATCH))
  {
    QueueIsReachable(BATCH + 1, BATCH + 1);
    var s := L.Run(L.EMPTY, QueueSteps(BATCH + 1, BATCH + 1));
    FiftyAhead(s, timeout, 1050 + tick * n, marks);
    events := StarvingRunExists(World(s, files), timeout, tick, marks, Names(BATCH), Name(BATCH), 1050, n);
  }

  lemma FiftyAhead(s: L.State, timeout: int, until: int, marks: bool)
    requires Queued(s, BATCH + 1, BATCH + 1) && (!marks || timeout <= 0 || until <= timeout)
    ensures WaitingAt(s, Name(BATCH), 1050) && Name(BATCH) !in Names(BATCH)
    ensures StuckAhead(s, Names(BATCH), Name(BATCH), 1050) && Lasting(s, Names(BATCH), timeout, until, marks)
  {
    NamesLaw(BATCH);
    assert s.tasks[Name(BATCH)] == L.NewTask("u", 1, BATCH).(upstream := "x");
    forall k | k in Names(BATCH) ensures exists i: nat :: i < BATCH && k in s.tasks && s.tasks[k] == L.NewTask("u", 1, i).(upstream := "x") {
      assert s.tasks[Name(|k| - 1)] == L.NewTask("u", 1, |k| - 1).(upstream := "x");
    }
  }
}
