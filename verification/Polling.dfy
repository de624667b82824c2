/**
 One pass of the asynchronous poller, as a function of the tables and of what the outside world
 answers (internal/service/async_runner.go).
 */
module Polling {
  import opened Common
  import opened Query
  import L = Ledger
  import F = Files

  // ---------- the outside world ----------

  /** How `failTaskAndRefund` fares: refund transaction commits; only the fallback update does; neither does. */
  datatype RefundFault = RefundCommits | OnlyFallback | NothingWritten

  datatype UpstreamStatus = UpRunning | UpFailed | UpSucceeded | UpUnknown

  datatype PollReply = PollError | PollOk(status: UpstreamStatus, progress: real, media: seq<F.Media>)

  /** Everything one task meets while it is being handled, at time `clock`. */
  datatype TaskWorld = TaskWorld(
    clock: int,
    credentialFound: bool,
    decrypts: bool,
    adapterFound: bool,
    poll: PollReply,
    listOk: bool,
    fetch: nat -> F.Fetch,
    commitOk: bool,
    writeOk: bool,
    refund: RefundFault)

  datatype PassWorld = PassWorld(now: int, cancelled: bool, sweepQueryOk: bool, dueQueryOk: bool, task: string -> TaskWorld)

  datatype World = World(ledger: L.State, files: F.Store)

  const BATCH := 50
  const SWEEP := 20
  const PROGRESS_DELAY := 2000
  const IDLE_DELAY := 5000

  // ---------- one task ----------

  function NextDelay(previous: real, next: real): int {
    if next > previous then PROGRESS_DELAY else IDLE_DELAY
  }

  function ClampDelay(delay: int): int {
    if delay <= 0 then L.INITIAL_POLL_DELAY else if delay > IDLE_DELAY then IDLE_DELAY else delay
  }

  function FailAndRefund(s: L.State, id: string, now: int, fault: RefundFault): L.State {
    var out := L.FailTaskAndRefund(s, id, now);
    if fault == RefundCommits && out.error.None? then out.state
    else if fault == NothingWritten then s
    else L.MarkRefundFailed(s, id, now)
  }

  function ScheduleNextPoll(s: L.State, id: string, delay: int, status: string, progress: real, t: TaskWorld): L.State {
    if t.writeOk then L.Reschedule(s, id, ClampDelay(delay), status, progress, t.clock) else s
  }

  /** `finalizeSucceeded`: download what is missing, then mark the task. */
  function Finalize(w: World, id: string, media: seq<F.Media>, t: TaskWorld): (World, bool) {
    if media == [] || !t.listOk then (w, false)
    else
      var d := F.Attempt(w.files, id, L.Row(w.ledger, id).user, media, t.fetch);
      if !d.complete || !t.commitOk then (w.(files := d.store), false)
      else (World(L.MarkSucceeded(w.ledger, id, d.ids, t.clock), d.store), true)
  }

  function TimedOut(row: L.Task, timeout: int, clock: int): bool {
    timeout > 0 && clock - row.createdAt > timeout
  }

  /** `advanceOne`: the new tables, and whether it returned without an error. */
  function AdvanceOne(w: World, id: string, timeout: int, t: TaskWorld): (World, bool) {
    var row := L.Row(w.ledger, id);
    if TimedOut(row, timeout, t.clock) || !t.credentialFound then
      (w.(ledger := FailAndRefund(w.ledger, id, t.clock, t.refund)), true)
    else if !t.decrypts || !t.adapterFound then (w, false)
    else
      match t.poll
      case PollError => (w.(ledger := ScheduleNextPoll(w.ledger, id, IDLE_DELAY, "", row.progress, t)), false)
      case PollOk(UpRunning, progress, _) =>
        (w.(ledger := ScheduleNextPoll(w.ledger, id, NextDelay(row.progress, progress), "running", progress, t)), true)
      case PollOk(UpFailed, _, _) => (w.(ledger := FailAndRefund(w.ledger, id, t.clock, t.refund)), true)
      case PollOk(UpSucceeded, _, media) =>
        if media == [] then (w.(ledger := FailAndRefund(w.ledger, id, t.clock, t.refund)), true)
        else
          var r := Finalize(w, id, media, t);
          if r.1 then r
          else (r.0.(ledger := ScheduleNextPoll(r.0.ledger, id, IDLE_DELAY, "succeeded", row.progress, t)), false)
      case PollOk(UpUnknown, _, _) => (w, true)
  }

  // ---------- one pass ----------

  function DueKeys(s: L.State, now: int): map<string, Key> {
    map id | id in s.tasks && Due(s.tasks[id], now) :: DueKey(s.tasks[id])
  }

  predicate Due(t: L.Task, now: int) {
    t.status == L.Running && t.upstream != "" && (t.nextPollAt.None? || t.nextPollAt.value <= now)
  }

  function DueKey(t: L.Task): Key {
    match t.nextPollAt
    case None => Key(0, 0, t.updatedAt)
    case Some(at) => Key(1, at, t.updatedAt)
  }

  function SweepKeys(s: L.State, timeout: int, now: int): map<string, Key> {
    map id | id in s.tasks && Overdue(s.tasks[id], timeout, now) :: Key(0, s.tasks[id].createdAt, 0)
  }

  predicate Overdue(t: L.Task, timeout: int, now: int) {
    t.status == L.Running && t.upstream == "" && t.createdAt < now - timeout
  }

  function SweepAll(s: L.State, sweep: seq<string>, p: PassWorld): L.State {
    if sweep == [] then s
    else
      var last := sweep[|sweep| - 1];
      FailAndRefund(SweepAll(s, sweep[..|sweep| - 1], p), last, p.task(last).clock, p.task(last).refund)
  }

  /** The batch loop: new tables and how many tasks were handled without an error. */
  function AdvanceAll(w: World, batch: seq<string>, timeout: int, p: PassWorld): (World, nat) {
    if batch == [] then (w, 0)
    else
      var last := batch[|batch| - 1];
      var before := AdvanceAll(w, batch[..|batch| - 1], timeout, p);
      var r := AdvanceOne(before.0, last, timeout, p.task(last));
      (r.0, before.1 + if r.1 then 1 else 0)
  }

  /** The two answers of the database are possible ones, and empty when the query is skipped or fails. */
  ghost predicate Answers(w: World, timeout: int, p: PassWorld, sweep: seq<string>, batch: seq<string>) {
    && (if timeout > 0 && !p.cancelled && p.sweepQueryOk then IsTop(SweepKeys(w.ledger, timeout, p.now), SWEEP, sweep)
        else sweep == [])
    && (if (timeout <= 0 || (!p.cancelled && p.sweepQueryOk)) && p.dueQueryOk
        then IsTop(DueKeys(SweepAll(w.ledger, sweep, p), p.now), BATCH, batch)
        else batch == [])
  }

  function Pass(w: World, timeout: int, p: PassWorld, sweep: seq<string>, batch: seq<string>): World {
    AdvanceAll(w.(ledger := SweepAll(w.ledger, sweep, p)), batch, timeout, p).0
  }

  // ---------- what one task's turn does ----------

  /** The row is out of the way: finished, or due again only after `clock`, within five seconds. */
  predicate Settled(t: L.Task, clock: int) {
    L.Terminal(t) || (t.nextPollAt.Some? && clock < t.nextPollAt.value <= clock + IDLE_DELAY)
  }

  /** The turn gives the task up without asking upstream. */
  predicate Discarded(row: L.Task, timeout: int, t: TaskWorld) {
    TimedOut(row, timeout, t.clock) || !t.credentialFound
  }

  /** The turn ends in a failed or empty result. */
  predicate NoResult(t: TaskWorld) {
    t.poll.PollOk? && (t.poll.status == UpFailed || (t.poll.status == UpSucceeded && t.poll.media == []))
  }

  /** The world lets this task move: it is failed, or finished, or scheduled anew. */
  predicate Movable(row: L.Task, timeout: int, t: TaskWorld) {
    if Discarded(row, timeout, t) then t.refund != NothingWritten
    else
      && t.decrypts && t.adapterFound && (t.poll.PollOk? ==> t.poll.status != UpUnknown)
      && if NoResult(t) then t.refund != NothingWritten else t.writeOk
  }

  /** The turn leaves the row as it is. Besides not being movable, a result must fail to be recorded. */
  predicate Stuck(row: L.Task, timeout: int, t: TaskWorld) {
    && !Movable(row, timeout, t)
    && (!Discarded(row, timeout, t) && t.decrypts && t.adapterFound && t.poll.PollOk? && t.poll.status == UpSucceeded ==>
          t.poll.media == [] || !t.listOk || !t.commitOk)
  }

  lemma FailAndRefundEffect(s: L.State, id: string, now: int, fault: RefundFault)
    requires id in s.tasks
    ensures var s' := FailAndRefund(s, id, now, fault);
      && s'.tasks.Keys == s.tasks.Keys
      && (forall k :: k in s.tasks && k != id ==> s'.tasks[k] == s.tasks[k])
      && (if fault == NothingWritten then s' == s else s'.tasks[id].status == L.Failed)
      && s'.tasks[id].user == s.tasks[id].user && s'.tasks[id].cost == s.tasks[id].cost
      && s'.tasks[id].createdAt == s.tasks[id].createdAt && s'.tasks[id].upstream == s.tasks[id].upstream
  {
  }

  lemma ScheduleEffect(s: L.State, id: string, delay: int, status: string, progress: real, t: TaskWorld)
    requires id in s.tasks
    ensures var s' := ScheduleNextPoll(s, id, delay, status, progress, t);
      && s'.tasks.Keys == s.tasks.Keys
      && (forall k :: k in s.tasks && k != id ==> s'.tasks[k] == s.tasks[k])
      && s'.tasks[id].createdAt == s.tasks[id].createdAt && s'.tasks[id].upstream == s.tasks[id].upstream
      && (t.writeOk ==> Settled(s'.tasks[id], t.clock))
  {
  }

  lemma FinalizeEffect(w: World, id: string, media: seq<F.Media>, t: TaskWorld)
    requires id in w.ledger.tasks
    ensures var r := Finalize(w, id, media, t);
      var s, s' := w.ledger, r.0.ledger;
      && s'.tasks.Keys == s.tasks.Keys
      && (forall k :: k in s.tasks && k != id ==> s'.tasks[k] == s.tasks[k])
      && s'.tasks[id].createdAt == s.tasks[id].createdAt && s'.tasks[id].upstream == s.tasks[id].upstream
      && (if r.1 then s'.tasks[id].status == L.Succeeded else s' == s)
  {
  }

  /** What a turn may make of its row. */
  predicate RowEffect(row: L.Task, row': L.Task, timeout: int, t: TaskWorld) {
    && row'.createdAt == row.createdAt && row'.upstream == row.upstream
    && (row' == row || Settled(row', t.clock))
    && (Movable(row, timeout, t) ==> Settled(row', t.clock))
    && (Stuck(row, timeout, t) ==> row' == row)
    && (TimedOut(row, timeout, t.clock) && t.refund != NothingWritten ==> row'.status == L.Failed)
  }

  /** A turn rewrites no row but its own, and never the creation time or the upstream id. */
  lemma AdvanceOneEffect(w: World, id: string, timeout: int, t: TaskWorld)
    requires id in w.ledger.tasks
    ensures var s, s' := w.ledger, AdvanceOne(w, id, timeout, t).0.ledger;
      && s'.tasks.Keys == s.tasks.Keys
      && (forall k :: k in s.tasks && k != id ==> s'.tasks[k] == s.tasks[k])
      && RowEffect(s.tasks[id], s'.tasks[id], timeout, t)
  {
    FailAndRefundEffect(w.ledger, id, t.clock, t.refund);
    if !Discarded(w.ledger.tasks[id], timeout, t) && t.decrypts && t.adapterFound {
      PolledEffect(w, id, timeout, t);
    }
  }

  /** The turns that get an answer from upstream. */
  lemma PolledEffect(w: World, id: string, timeout: int, t: TaskWorld)
    requires id in w.ledger.tasks && !Discarded(w.ledger.tasks[id], timeout, t) && t.decrypts && t.adapterFound
    ensures var s, s' := w.ledger, AdvanceOne(w, id, timeout, t).0.ledger;
      && s'.tasks.Keys == s.tasks.Keys
      && (forall k :: k in s.tasks && k != id ==> s'.tasks[k] == s.tasks[k])
      && RowEffect(s.tasks[id], s'.tasks[id], timeout, t)
  {
    var row := w.ledger.tasks[id];
    FailAndRefundEffect(w.ledger, id, t.clock, t.refund);
    match t.poll
    case PollError => ScheduleEffect(w.ledger, id, IDLE_DELAY, "", row.progress, t);
    case PollOk(UpRunning, progress, _) =>
      ScheduleEffect(w.ledger, id, NextDelay(row.progress, progress), "running", progress, t);
    case PollOk(UpSucceeded, _, media) =>
      FinalizeEffect(w, id, media, t);
      ScheduleEffect(Finalize(w, id, media, t).0.ledger, id, IDLE_DELAY, "succeeded", row.progress, t);
    case PollOk(_, _, _) =>
  }

  /** Each task of the batch had one turn on the row it started with, and no other row was touched. */
  ghost predicate BatchEffect(s: L.State, s': L.State, batch: seq<string>, timeout: int, p: PassWorld) {
    && s'.tasks.Keys == s.tasks.Keys
    && (forall k :: k in s.tasks && k !in batch ==> s'.tasks[k] == s.tasks[k])
    && (forall k :: k in batch ==> k in s.tasks && RowEffect(s.tasks[k], s'.tasks[k], timeout, p.task(k)))
  }

  lemma {:induction false} AdvanceAllEffect(w: World, batch: seq<string>, timeout: int, p: PassWorld)
    requires Distinct(batch) && forall id :: id in batch ==> id in w.ledger.tasks
    ensures BatchEffect(w.ledger, AdvanceAll(w, batch, timeout, p).0.ledger, batch, timeout, p)
  {
    if batch != [] {
      var front, last := batch[..|batch| - 1], batch[|batch| - 1];
      AdvanceAllEffect(w, front, timeout, p);
      assert last !in front;
      AdvanceOneEffect(AdvanceAll(w, front, timeout, p).0, last, timeout, p.task(last));
      assert forall k :: k in batch <==> k in front || k == last;
    }
  }

  lemma {:induction false} SweepAllEffect(s: L.State, sweep: seq<string>, p: PassWorld)
    requires forall id :: id in sweep ==> id in s.tasks
    ensures var s' := SweepAll(s, sweep, p);
      && s'.tasks.Keys == s.tasks.Keys
      && (forall k :: k in s.tasks && k !in sweep ==> s'.tasks[k] == s.tasks[k])
      && (forall k :: k in s.tasks ==> s'.tasks[k] == s.tasks[k] || s'.tasks[k].status == L.Failed)
      && (forall k :: k in sweep && p.task(k).refund != NothingWritten ==> s'.tasks[k].status == L.Failed)
  {
    if sweep != [] {
      var front, last := sweep[..|sweep| - 1], sweep[|sweep| - 1];
      SweepAllEffect(s, front, p);
      FailAndRefundEffect(SweepAll(s, front, p), last, p.task(last).clock, p.task(last).refund);
      assert forall k :: k in sweep <==> k in front || k == last;
    }
  }

  // ---------- what a turn decides ----------

  /** The turn ends the task without a result. */
  predicate GivesUp(row: L.Task, timeout: int, t: TaskWorld) {
    TimedOut(row, timeout, t.clock) || !t.credentialFound ||
    (t.decrypts && t.adapterFound && t.poll.PollOk? &&
     (t.poll.status == UpFailed || (t.poll.status == UpSucceeded && t.poll.media == [])))
  }

  /** The turn finds a result upstream, and every file of it gets stored and recorded. */
  predicate Delivers(w: World, id: string, row: L.Task, t: TaskWorld) {
    && t.decrypts && t.adapterFound && t.poll.PollOk? && t.poll.status == UpSucceeded
    && t.listOk && t.commitOk && F.Attempt(w.files, id, row.user, t.poll.media, t.fetch).complete
  }

  /**
   On a consistent ledger with working writes, a turn on a Running task fails it exactly when it gives
   up, completes it exactly when it delivers, and otherwise leaves it Running for a later pass. The
   money follows: a failure gives the owner the full price back, and nothing else moves a balance.
   */
  lemma TurnOutcome(w: World, id: string, timeout: int, t: TaskWorld, user: string)
    requires L.Inv(w.ledger) && id in w.ledger.tasks && w.ledger.tasks[id].status == L.Running
    requires t.writeOk && t.refund == RefundCommits
    requires user in w.ledger.users
    ensures var s, s' := w.ledger, AdvanceOne(w, id, timeout, t).0.ledger;
      var row, row' := s.tasks[id], s'.tasks[id];
      && (row'.status == L.Failed <==> GivesUp(row, timeout, t))
      && (row'.status == L.Succeeded <==> !GivesUp(row, timeout, t) && Delivers(w, id, row, t))
      && (L.Terminal(row') || row'.status == L.Running)
      && (row'.status == L.Failed ==> row'.refundStatus == L.Refunded)
      && L.Inv(s')
      && user in s'.users
      && s'.users[user].balance - s.users[user].balance
         == if user == row.user && GivesUp(row, timeout, t) then row.cost else 0
  {
    var s, row := w.ledger, w.ledger.tasks[id];
    L.RefundOfRunning(s, id, t.clock);
    if !GivesUp(row, timeout, t) {
      AdvanceWithoutGivingUp(w, id, timeout, t);
      var row' := AdvanceOne(w, id, timeout, t).0.ledger.tasks[id];
      assert AdvanceOne(w, id, timeout, t).0.ledger == s.(tasks := s.tasks[id := row']);
      L.RowUpdateKeepsInv(s, id, row');
    }
  }

  lemma AdvanceWithoutGivingUp(w: World, id: string, timeout: int, t: TaskWorld)
    requires L.Inv(w.ledger) && id in w.ledger.tasks && w.ledger.tasks[id].status == L.Running && t.writeOk
    requires !GivesUp(w.ledger.tasks[id], timeout, t)
    ensures var s, s' := w.ledger, AdvanceOne(w, id, timeout, t).0.ledger;
      var row, row' := s.tasks[id], s'.tasks[id];
      && s'.users == s.users && s'.txs == s.txs && s'.tasks == s.tasks[id := row']
      && row'.user == row.user && row'.cost == row.cost && row'.refundStatus == row.refundStatus
      && L.Shaped(row')
      && row'.status == (if Delivers(w, id, row, t) then L.Succeeded else L.Running)
  {
    var s, s' := w.ledger, AdvanceOne(w, id, timeout, t).0.ledger;
    assert L.Shaped(s.tasks[id]);
    assert s'.tasks == s.tasks[id := s'.tasks[id]];
  }
}
