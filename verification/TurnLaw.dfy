/**
 What one turn of the poller leaves on its row, case by case, and when it counts as handled
 (internal/service/async_runner.go). Times are in milliseconds.
 */
module TurnLaw {
  import opened Common
  import opened Query
  import opened Polling
  import L = Ledger
  import F = Files

  /** The turn gets as far as asking upstream. */
  predicate Asks(row: L.Task, timeout: int, t: TaskWorld) {
    && !(timeout > 0 && t.clock - row.createdAt > timeout)
    && t.credentialFound && t.decrypts && t.adapterFound
  }

  /** Still Running, due again after so many milliseconds. */
  predicate DueIn(row: L.Task, row': L.Task, delay: int, progress: real, status: string, t: TaskWorld) {
    row' == row.(progress := progress, upstreamStatus := status, nextPollAt := Some(t.clock + delay),
                 pollInterval := delay / 1000, updatedAt := t.clock)
  }

  /**
   A running answer is recorded with its progress, and the task is due again after two seconds if the
   progress rose, else after five.
   */
  lemma RunningAnswerIsRecorded(w: World, id: string, timeout: int, t: TaskWorld)
    requires id in w.ledger.tasks && Asks(w.ledger.tasks[id], timeout, t) && t.writeOk
    requires t.poll.PollOk? && t.poll.status == UpRunning
    ensures var r, row := AdvanceOne(w, id, timeout, t), w.ledger.tasks[id];
      && r.1 && r.0 == w.(ledger := w.ledger.(tasks := w.ledger.tasks[id := r.0.ledger.tasks[id]]))
      && DueIn(row, r.0.ledger.tasks[id], if t.poll.progress > row.progress then 2000 else 5000, t.poll.progress, "running", t)
  {
  }

  /** A failing poll leaves progress and upstream status as they are; the task is due again after five seconds. */
  lemma PollErrorIsRetried(w: World, id: string, timeout: int, t: TaskWorld)
    requires id in w.ledger.tasks && Asks(w.ledger.tasks[id], timeout, t) && t.writeOk && t.poll.PollError?
    ensures var r, row := AdvanceOne(w, id, timeout, t), w.ledger.tasks[id];
      && !r.1 && r.0 == w.(ledger := w.ledger.(tasks := w.ledger.tasks[id := r.0.ledger.tasks[id]]))
      && DueIn(row, r.0.ledger.tasks[id], 5000, row.progress, row.upstreamStatus, t)
  {
  }

  /** The result can be delivered: the stored rows are read, every missing item is fetched and stored, the row is written. */
  predicate Deliverable(files: F.Store, id: string, media: seq<F.Media>, t: TaskWorld) {
    && t.listOk && t.commitOk
    && forall i :: |F.RowsOf(files.rows, id)| <= i < |media| ==> t.fetch(i).reachable && t.fetch(i).save == F.Saved
  }

  lemma FinalizeIff(w: World, id: string, media: seq<F.Media>, t: TaskWorld)
    ensures Finalize(w, id, media, t).1 <==> media != [] && Deliverable(w.files, id, media, t)
  {
    F.AttemptCompletes(w.files, id, L.Row(w.ledger, id).user, media, t.fetch);
  }

  /** Succeeded, with these files and nothing left to poll. */
  predicate Completed(row: L.Task, row': L.Task, ids: seq<string>, t: TaskWorld) {
    row' == row.(status := L.Succeeded, fileIds := ids, completedAt := Some(t.clock), progress := 1.0, nextPollAt := None,
                 pollInterval := 0, upstreamStatus := "succeeded", updatedAt := t.clock)
  }

  /**
   A result completes the task exactly if it can be delivered, with one file id per media item in order
   (the stored rows being a prefix of the media, as they always are). Otherwise what was stored stays, and
   the task is due again after five seconds with "succeeded" noted and its old progress.
   */
  lemma ResultIsDeliveredOrRetried(w: World, id: string, timeout: int, t: TaskWorld)
    requires id in w.ledger.tasks && Asks(w.ledger.tasks[id], timeout, t) && t.writeOk
    requires t.poll.PollOk? && t.poll.status == UpSucceeded && t.poll.media != []
    requires F.IsPrefix(w.files, id, t.poll.media)
    ensures var r, row := AdvanceOne(w, id, timeout, t), w.ledger.tasks[id];
            var row', rows := r.0.ledger.tasks[id], F.RowsOf(r.0.files.rows, id);
      && r.0.ledger == w.ledger.(tasks := w.ledger.tasks[id := row'])
      && (r.1 <==> Deliverable(w.files, id, t.poll.media, t))
      && (r.1 ==>
            && |rows| == |t.poll.media| == |row'.fileIds| && Completed(row, row', row'.fileIds, t)
            && forall i :: 0 <= i < |rows| ==> rows[i].media == t.poll.media[i] && row'.fileIds[i] == rows[i].id)
      && (!r.1 ==> DueIn(row, row', 5000, row.progress, "succeeded", t) && F.RowsOf(w.files.rows, id) <= rows)
  {
    F.AttemptLaw(w.files, id, w.ledger.tasks[id].user, t.poll.media, t.fetch);
    DeliveredRow(w, id, timeout, t);
  }

  lemma DeliveredRow(w: World, id: string, timeout: int, t: TaskWorld)
    requires id in w.ledger.tasks && Asks(w.ledger.tasks[id], timeout, t) && t.writeOk
    requires t.poll.PollOk? && t.poll.status == UpSucceeded && t.poll.media != []
    ensures var r, row := AdvanceOne(w, id, timeout, t), w.ledger.tasks[id];
            var row', d := r.0.ledger.tasks[id], F.Attempt(w.files, id, row.user, t.poll.media, t.fetch);
      && r.0.ledger == w.ledger.(tasks := w.ledger.tasks[id := row'])
      && (r.1 <==> t.listOk && t.commitOk && d.complete)
      && (r.1 ==> Completed(row, row', d.ids, t) && r.0.files == d.store)
      && (!r.1 ==> DueIn(row, row', 5000, row.progress, "succeeded", t) && r.0.files == if t.listOk then d.store else w.files)
  {
  }

  /**
   The task is given up: past its timeout, its credential gone, failed upstream, or finished without any
   media. It is then Failed; the price comes back if the refund commits, and is noted as owed if only the
   fallback update takes.
   */
  predicate GivenUp(row: L.Task, timeout: int, t: TaskWorld) {
    || (timeout > 0 && t.clock - row.createdAt > timeout)
    || !t.credentialFound
    || (Asks(row, timeout, t) && t.poll.PollOk?
        && (t.poll.status == UpFailed || (t.poll.status == UpSucceeded && t.poll.media == [])))
  }

  /** What failing a Running task leaves, by how far the database lets the refund go. */
  ghost predicate PaidBack(s: L.State, s': L.State, id: string, clock: int, refund: RefundFault)
    requires id in s.tasks
  {
    var row := s.tasks[id];
    match refund
    case NothingWritten => s' == s
    case OnlyFallback =>
      s' == s.(tasks := s.tasks[id := row.(status := L.Failed, refundStatus := L.RefundFailed, nextPollAt := None,
                                           completedAt := Some(clock), updatedAt := clock)])
    case RefundCommits =>
      && row.user in s.users
      && s'.tasks == s.tasks[id := row.(status := L.Failed, refundStatus := L.Refunded, refundAmount := row.cost,
                                        refundedAt := Some(clock), nextPollAt := None,
                                        completedAt := Some(clock), updatedAt := clock)]
      && s'.users == s.users[row.user := s.users[row.user].(balance := s.users[row.user].balance + row.cost,
                                                            totalConsumed := s.users[row.user].totalConsumed - row.cost)]
      && s'.txs == s.txs + [L.Tx(row.user, row.cost, L.RefundTx, id, s.users[row.user].balance + row.cost)]
  }

  lemma FailingPaysBack(s: L.State, id: string, clock: int, refund: RefundFault)
    requires L.Inv(s) && id in s.tasks && s.tasks[id].status == L.Running
    ensures PaidBack(s, FailAndRefund(s, id, clock, refund), id, clock, refund)
  {
    assert L.Booked(s, id) && L.Shaped(s.tasks[id]);
  }

  lemma GivenUpIsPaidBack(w: World, id: string, timeout: int, t: TaskWorld)
    requires L.Inv(w.ledger) && id in w.ledger.tasks && w.ledger.tasks[id].status == L.Running
    requires GivenUp(w.ledger.tasks[id], timeout, t)
    ensures var r := AdvanceOne(w, id, timeout, t);
            r.1 && r.0.files == w.files && PaidBack(w.ledger, r.0.ledger, id, t.clock, t.refund)
  {
    FailingPaysBack(w.ledger, id, t.clock, t.refund);
  }

  /** A turn that can neither ask nor give up, or gets an answer it does not know, changes nothing. */
  lemma QuietTurn(w: World, id: string, timeout: int, t: TaskWorld)
    requires id in w.ledger.tasks && !GivenUp(w.ledger.tasks[id], timeout, t)
    requires !Asks(w.ledger.tasks[id], timeout, t) || (t.poll.PollOk? && t.poll.status == UpUnknown)
    ensures AdvanceOne(w, id, timeout, t) == (w, Asks(w.ledger.tasks[id], timeout, t))
  {
  }

  /**
   Which turns the pass counts as handled: those that give up, and those that get an answer, unless the
   answer is a result that cannot be delivered. A key that does not decrypt, a missing adapter and a
   failing poll are not handled.
   */
  predicate Handled(w: World, id: string, timeout: int, t: TaskWorld)
    requires id in w.ledger.tasks
  {
    var row := w.ledger.tasks[id];
    || GivenUp(row, timeout, t)
    || (Asks(row, timeout, t) && t.poll.PollOk?
        && (t.poll.status == UpSucceeded ==> Deliverable(w.files, id, t.poll.media, t)))
  }

  lemma HandledIff(w: World, id: string, timeout: int, t: TaskWorld)
    requires id in w.ledger.tasks
    ensures AdvanceOne(w, id, timeout, t).1 <==> Handled(w, id, timeout, t)
  {
    if Asks(w.ledger.tasks[id], timeout, t) && t.poll.PollOk? && t.poll.status == UpSucceeded && t.poll.media != [] {
      FinalizeIff(w, id, t.poll.media, t);
    }
  }

  /** A turn stores files for its own task alone. */
  lemma TurnKeepsOtherFiles(w: World, id: string, timeout: int, t: TaskWorld, other: string)
    requires other != id
    ensures F.RowsOf(AdvanceOne(w, id, timeout, t).0.files.rows, other) == F.RowsOf(w.files.rows, other)
  {
    if t.poll.PollOk? && t.poll.media != [] {
      F.AttemptKeepsOthers(w.files, id, L.Row(w.ledger, id).user, t.poll.media, t.fetch, other);
    }
  }

  lemma {:induction false} BatchKeepsOtherFiles(w: World, batch: seq<string>, timeout: int, p: PassWorld, other: string)
    requires other !in batch
    ensures F.RowsOf(AdvanceAll(w, batch, timeout, p).0.files.rows, other) == F.RowsOf(w.files.rows, other)
  {
    if batch != [] {
      var front, last := batch[..|batch| - 1], batch[|batch| - 1];
      BatchKeepsOtherFiles(w, front, timeout, p, other);
      TurnKeepsOtherFiles(AdvanceAll(w, front, timeout, p).0, last, timeout, p.task(last), other);
    }
  }

  /** How many tasks of a batch are handled, each judged on the row and the files it started with. */
  function HandledCount(w: World, batch: seq<string>, timeout: int, p: PassWorld): nat
    requires forall id :: id in batch ==> id in w.ledger.tasks
  {
    if batch == [] then 0
    else
      var last := batch[|batch| - 1];
      HandledCount(w, batch[..|batch| - 1], timeout, p) + if Handled(w, last, timeout, p.task(last)) then 1 else 0
  }

  /** The count a pass reports for its batch. */
  lemma {:induction false} BatchCounts(w: World, batch: seq<string>, timeout: int, p: PassWorld)
    requires Distinct(batch) && forall id :: id in batch ==> id in w.ledger.tasks
    ensures AdvanceAll(w, batch, timeout, p).1 == HandledCount(w, batch, timeout, p)
  {
    if batch != [] {
      var front, last := batch[..|batch| - 1], batch[|batch| - 1];
      var before := AdvanceAll(w, front, timeout, p).0;
      BatchCounts(w, front, timeout, p);
      AdvanceAllEffect(w, front, timeout, p);
      BatchKeepsOtherFiles(w, front, timeout, p, last);
      assert last !in front;
      HandledIff(before, last, timeout, p.task(last));
    }
  }

  // ---------- which tasks a pass takes ----------

  /** Polled no later, a task never polled coming first, and of two polled at once the one touched first. */
  predicate NoLater(a: L.Task, b: L.Task) {
    || (a.nextPollAt.None? && b.nextPollAt.Some?)
    || (a.nextPollAt == b.nextPollAt && a.updatedAt <= b.updatedAt)
    || (a.nextPollAt.Some? && b.nextPollAt.Some? && a.nextPollAt.value < b.nextPollAt.value)
  }

  predicate Waits(row: L.Task, now: int) {
    row.status == L.Running && row.upstream != "" && (row.nextPollAt.Some? ==> row.nextPollAt.value <= now)
  }

  /** The batch of a pass: fifty Running tasks with an upstream id that are due, the longest due first. */
  lemma BatchIsEarliestDue(w: World, timeout: int, p: PassWorld, sweep: seq<string>, batch: seq<string>)
    requires Answers(w, timeout, p, sweep, batch)
    requires p.dueQueryOk && (timeout <= 0 || (!p.cancelled && p.sweepQueryOk))
    ensures var tasks := SweepAll(w.ledger, sweep, p).tasks;
      && (forall id :: id in batch ==> id in tasks && Waits(tasks[id], p.now))
      && |batch| <= 50
      && (forall id :: id in tasks && Waits(tasks[id], p.now) && id !in batch ==>
            |batch| == 50 && forall k :: k in batch ==> k in tasks && NoLater(tasks[k], tasks[id]))
      && (forall i, j :: 0 <= i < j < |batch| ==> NoLater(tasks[batch[i]], tasks[batch[j]]) && batch[i] != batch[j])
  {
    var s := SweepAll(w.ledger, sweep, p);
    var keys := DueKeys(s, p.now);
    forall id | id in s.tasks && Waits(s.tasks[id], p.now) && id !in batch
      ensures |batch| == 50 && forall k :: k in batch ==> k in s.tasks && NoLater(s.tasks[k], s.tasks[id])
    {
      LeftOutMeansFull(keys, 50, batch, id);
      forall k | k in batch ensures k in s.tasks && NoLater(s.tasks[k], s.tasks[id]) {
        assert AtMost(keys[k], keys[id]);
      }
    }
    forall i, j | 0 <= i < j < |batch| ensures NoLater(s.tasks[batch[i]], s.tasks[batch[j]]) {
      assert AtMost(keys[batch[i]], keys[batch[j]]);
    }
  }

  predicate Forgotten(row: L.Task, timeout: int, now: int) {
    row.status == L.Running && row.upstream == "" && now - row.createdAt > timeout
  }

  /** The sweep of a pass: twenty Running tasks without upstream id past the timeout, the oldest first. */
  lemma SweepIsOldest(w: World, timeout: int, p: PassWorld, sweep: seq<string>, batch: seq<string>)
    requires Answers(w, timeout, p, sweep, batch)
    ensures var tasks := w.ledger.tasks;
      && (forall id :: id in sweep ==> id in tasks && timeout > 0 && Forgotten(tasks[id], timeout, p.now))
      && |sweep| <= 20
      && (timeout > 0 && !p.cancelled && p.sweepQueryOk ==>
            forall id :: id in tasks && Forgotten(tasks[id], timeout, p.now) && id !in sweep ==>
              |sweep| == 20 && forall k :: k in sweep ==> k in tasks && tasks[k].createdAt <= tasks[id].createdAt)
      && (forall i, j :: 0 <= i < j < |sweep| ==> tasks[sweep[i]].createdAt <= tasks[sweep[j]].createdAt && sweep[i] != sweep[j])
  {
    var tasks, keys := w.ledger.tasks, SweepKeys(w.ledger, timeout, p.now);
    if timeout > 0 && !p.cancelled && p.sweepQueryOk {
      forall id | id in tasks && Forgotten(tasks[id], timeout, p.now) && id !in sweep
        ensures |sweep| == 20 && forall k :: k in sweep ==> k in tasks && tasks[k].createdAt <= tasks[id].createdAt
      {
        LeftOutMeansFull(keys, 20, sweep, id);
        forall k | k in sweep ensures k in tasks && tasks[k].createdAt <= tasks[id].createdAt {
          assert AtMost(keys[k], keys[id]);
        }
      }
      forall i, j | 0 <= i < j < |sweep| ensures tasks[sweep[i]].createdAt <= tasks[sweep[j]].createdAt {
        assert AtMost(keys[sweep[i]], keys[sweep[j]]);
      }
    }
  }
}
