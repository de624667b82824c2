/**
 The asynchronous generation runner (internal/service/async_runner.go): `StartTask`, with its retry
 loops over credentials and network errors, and `PollOnce`, with its sweep and batch loops.
 */
module Runner {
  import opened Common
  import opened Query
  import opened Credits
  import opened Polling
  import opened StartLaw
  import T = TurnLaw
  import C = CreditLaw
  import L = Ledger
  import F = Files

  // ---------- errors of upstream `Create` (internal/adapter/errors.go) ----------

  predicate IsNetwork(e: CreateError) {
    e.net || e.url
  }

  predicate NeedsCredentialRetry(e: CreateError) {
    match e.http
    case Some(code) => code == 401 || code == 403 || code == 429 || code >= 500
    case None => e.net || e.url
  }

  const MAX_ATTEMPTS := 3
  const NETWORK_ATTEMPTS := 2

  class AsyncRunner {
    const db: Database
    const files: F.FileService
    const taskTimeout: int

    constructor (db: Database, files: F.FileService, taskTimeout: int)
      ensures this.db == db && this.files == files && this.taskTimeout == taskTimeout
    {
      this.db, this.files, this.taskTimeout := db, files, taskTimeout;
    }

    ghost function W(): World
      reads this, db, files
    {
      World(db.S(), files.S())
    }

    method FailTask(id: string, now: int, fault: RefundFault)
      requires db.Valid() && id in db.tasks && db.tasks[id].status == L.Running
      modifies db
      ensures db.Valid() && db.S() == FailAndRefund(old(db.S()), id, now, fault)
      ensures fault == RefundCommits ==> db.tasks[id].status == L.Failed && db.tasks[id].refundStatus == L.Refunded
    {
      L.RunKeepsInv(db.trace);
      L.RefundOfRunning(db.S(), id, now);
      var error := db.FailTaskAndRefund(id, now, fault != RefundCommits);
      if error.Some? && fault != NothingWritten {
        var row := db.tasks[id].(status := L.Failed, refundStatus := L.RefundFailed, nextPollAt := None,
                                 completedAt := Some(now), updatedAt := now);
        db.UpdateTask(id, row, L.RefundFailedStep(id, now));
      }
    }

    method ScheduleNext(id: string, delay: int, status: string, progress: real, t: TaskWorld)
      requires db.Valid() && id in db.tasks && db.tasks[id].status == L.Running
      modifies db
      ensures db.Valid() && db.S() == ScheduleNextPoll(old(db.S()), id, delay, status, progress, t)
    {
      var d := delay;
      if d <= 0 {
        d := L.INITIAL_POLL_DELAY;
      }
      if d > IDLE_DELAY {
        d := IDLE_DELAY;
      }
      if t.writeOk {
        var row := db.tasks[id].(progress := progress, pollInterval := d / 1000, nextPollAt := Some(t.clock + d),
                                 updatedAt := t.clock);
        if status != "" {
          row := row.(upstreamStatus := status);
        }
        db.UpdateTask(id, row, L.RescheduleStep(id, d, status, progress, t.clock));
      }
    }

    method FinalizeSucceeded(id: string, media: seq<F.Media>, t: TaskWorld) returns (ok: bool)
      requires db.Valid() && id in db.tasks && db.tasks[id].status == L.Running && (db as object) != files
      modifies db, files
      ensures db.Valid() && (W(), ok) == Finalize(old(W()), id, media, t)
    {
      if media == [] {
        return false;
      }
      if !t.listOk {
        return false;
      }
      var ids, complete := files.FetchMissing(id, db.tasks[id].user, media, t.fetch);
      if !complete || !t.commitOk {
        return false;
      }
      var row := db.tasks[id].(status := L.Succeeded, fileIds := ids, completedAt := Some(t.clock), progress := 1.0,
                               nextPollAt := None, pollInterval := 0, upstreamStatus := "succeeded", updatedAt := t.clock);
      db.UpdateTask(id, row, L.SucceedStep(id, ids, t.clock));
      return true;
    }

    method Advance(id: string, t: TaskWorld) returns (ok: bool)
      requires db.Valid() && id in db.tasks && db.tasks[id].status == L.Running && (db as object) != files
      modifies db, files
      ensures db.Valid() && (W(), ok) == AdvanceOne(old(W()), id, taskTimeout, t)
    {
      var row := db.tasks[id];
      if taskTimeout > 0 && t.clock - row.createdAt > taskTimeout {
        FailTask(id, t.clock, t.refund);
        return true;
      }
      if !t.credentialFound {
        FailTask(id, t.clock, t.refund);
        return true;
      }
      if !t.decrypts {
        return false;
      }
      if !t.adapterFound {
        return false;
      }
      match t.poll {
        case PollError =>
          ScheduleNext(id, IDLE_DELAY, "", row.progress, t);
          return false;
        case PollOk(UpRunning, progress, _) =>
          ScheduleNext(id, NextDelay(row.progress, progress), "running", progress, t);
          return true;
        case PollOk(UpFailed, _, _) =>
          FailTask(id, t.clock, t.refund);
          return true;
        case PollOk(UpSucceeded, _, media) =>
          if media == [] {
            FailTask(id, t.clock, t.refund);
            return true;
          }
          var done := FinalizeSucceeded(id, media, t);
          if !done {
            ScheduleNext(id, IDLE_DELAY, "succeeded", row.progress, t);
            return false;
          }
          return true;
        case PollOk(UpUnknown, _, _) =>
          return true;
      }
    }

    /** `cleanupTimedOutTasksWithoutUpstreamID`. */
    method CleanupTimedOut(p: PassWorld) returns (count: nat, ok: bool, ghost sweep: seq<string>)
      requires db.Valid()
      modifies db
      ensures db.Valid() && db.S() == SweepAll(old(db.S()), sweep, p) && count == |sweep|
      ensures ok <==> taskTimeout <= 0 || (!p.cancelled && p.sweepQueryOk)
      ensures !ok ==> count == 0
      ensures if taskTimeout > 0 && ok then IsTop(SweepKeys(old(db.S()), taskTimeout, p.now), SWEEP, sweep) else sweep == []
    {
      if taskTimeout <= 0 {
        return 0, true, [];
      }
      if p.cancelled || !p.sweepQueryOk {
        return 0, false, [];
      }
      var keys := map id | id in db.tasks && Overdue(db.tasks[id], taskTimeout, p.now) :: Key(0, db.tasks[id].createdAt, 0);
      var overdue := Top(keys, SWEEP);
      assert keys == SweepKeys(db.S(), taskTimeout, p.now);
      FailOverdue(overdue, p);
      return |overdue|, true, overdue;
    }

    method FailOverdue(overdue: seq<string>, p: PassWorld)
      requires db.Valid()
      requires Distinct(overdue) && forall id :: id in overdue ==> id in db.tasks && db.tasks[id].status == L.Running
      modifies db
      ensures db.Valid() && db.S() == SweepAll(old(db.S()), overdue, p)
    {
      ghost var before := db.S();
      var i := 0;
      while i < |overdue|
        invariant 0 <= i <= |overdue|
        invariant db.Valid() && db.S() == SweepAll(before, overdue[..i], p)
      {
        var id := overdue[i];
        SweepAllEffect(before, overdue[..i], p);
        FailTask(id, p.task(id).clock, p.task(id).refund);
        assert overdue[..i + 1][..i] == overdue[..i];
        i := i + 1;
      }
      assert overdue[..|overdue|] == overdue;
    }

    /** The batch loop: a task whose turn ends in an error is skipped, not fatal. */
    method AdvanceBatch(due: seq<string>, p: PassWorld) returns (handled: nat)
      requires db.Valid() && (db as object) != files
      requires Distinct(due) && forall id :: id in due ==> id in db.tasks && db.tasks[id].status == L.Running
      modifies db, files
      ensures db.Valid() && (W(), handled) == AdvanceAll(old(W()), due, taskTimeout, p)
    {
      ghost var before := W();
      handled := 0;
      var i := 0;
      while i < |due|
        invariant 0 <= i <= |due|
        invariant db.Valid() && (W(), handled) == AdvanceAll(before, due[..i], taskTimeout, p)
      {
        var id := due[i];
        StillWaiting(before, due, i, taskTimeout, p);
        var done := Advance(id, p.task(id));
        if done {
          handled := handled + 1;
        }
        assert due[..i + 1][..i] == due[..i];
        i := i + 1;
      }
      assert due[..|due|] == due;
    }

    /**
     One poller pass: sweep, then advance at most fifty due tasks in order, one failing task never
     stopping the batch. Returns the number handled, or failure when a query failed.
     */
    method PollOnce(p: PassWorld) returns (count: nat, ok: bool, ghost sweep: seq<string>, batch: seq<string>)
      requires db.Valid() && (db as object) != files
      modifies db, files
      ensures db.Valid()
      ensures Answers(old(W()), taskTimeout, p, sweep, batch)
      ensures W() == Pass(old(W()), taskTimeout, p, sweep, batch)
      ensures ok ==>
                count == |sweep| + AdvanceAll(old(W()).(ledger := SweepAll(old(db.S()), sweep, p)), batch, taskTimeout, p).1
      ensures ok <==> (taskTimeout <= 0 || (!p.cancelled && p.sweepQueryOk)) && p.dueQueryOk
      ensures !ok ==> count == 0
    {
      ghost var start := W();
      batch := [];
      count, ok, sweep := CleanupTimedOut(p);
      if !ok {
        return;
      }
      if !p.dueQueryOk {
        return 0, false, sweep, [];
      }
      ghost var swept := W();
      var keys := map id | id in db.tasks && Due(db.tasks[id], p.now) :: DueKey(db.tasks[id]);
      assert keys == DueKeys(swept.ledger, p.now);
      batch := Top(keys, BATCH);
      var handled := AdvanceBatch(batch, p);
      count := count + handled;
    }

    /** Two tries at most; the second only after a network error and an undisturbed wait. */
    method CreateWithNetworkRetry(attempt: int, w: StartWorld) returns (reply: CreateReply, calls: nat)
      ensures 1 <= calls <= NETWORK_ATTEMPTS
      ensures var first := w.create(attempt, 1);
        if first.CreateFailed? && IsNetwork(first.error) then
          if w.backoff(1).Some? then calls == 1 && reply == CreateFailed(w.backoff(1).value)
          else calls == 2 && reply == w.create(attempt, 2)
        else calls == 1 && reply == first
      ensures reply == Reply(w, attempt)
    {
      calls := 0;
      var try := 1;
      while try <= NETWORK_ATTEMPTS
        invariant 1 <= try <= NETWORK_ATTEMPTS
        invariant calls == try - 1
        invariant try == 2 ==>
                    && w.create(attempt, 1).CreateFailed? && IsNetwork(w.create(attempt, 1).error) && w.backoff(1).None?
        decreases NETWORK_ATTEMPTS - try
      {
        reply := w.create(attempt, try);
        calls := calls + 1;
        if reply.CreateOk? || !IsNetwork(reply.error) || try == NETWORK_ATTEMPTS {
          return;
        }
        if w.backoff(try).Some? {
          reply := CreateFailed(w.backoff(try).value);
          return;
        }
        try := try + 1;
      }
    }

    /** What to do with a successful `Create`: store inline media, or remember the upstream id. */
    method Accept(id: string, reply: Option<Created>, w: StartWorld) returns (v: Verdict)
      requires db.Valid() && id in db.tasks && Fresh(db.tasks[id], w) && (db as object) != files
      modifies db, files
      ensures db.Valid() && Judged(old(W()), W(), id, v, reply, w) && Fits(old(files.S()), id, v, reply, w)
    {
      if reply.None? {
        return Rejected;
      }
      var created := reply.value;
      if created.media != [] {
        T.FinalizeIff(W(), id, created.media, w.task);
        var ok := FinalizeSucceeded(id, created.media, w.task);
        if ok {
          return Delivered;
        }
        F.DeleteForTaskLeavesNone(files.S(), id);
        var _ := files.DeleteTaskFiles(id, w.deleteFault);
        FailTask(id, w.task.clock, w.task.refund);
        return Undelivered;
      }
      if created.upstream == "" || !w.upstreamWriteOk {
        return Rejected;
      }
      db.UpdateTask(id, db.tasks[id].(upstream := created.upstream, updatedAt := w.now),
                    L.UpstreamStep(id, created.upstream, w.now));
      return Attached;
    }

    /** One credential: record it on the row, decrypt its key, call `Create`, judge the answer. */
    method TryCredential(id: string, attempt: int, credential: string, w: StartWorld)
      returns (v: Option<Verdict>, ghost calls: nat, ghost reply: Option<Created>)
      requires db.Valid() && id in db.tasks && Fresh(db.tasks[id], w) && (db as object) != files
      modifies db, files
      ensures db.Valid() && calls <= NETWORK_ATTEMPTS
      ensures v.None? <==> PassedOver(w, attempt, credential)
      ensures reply == Answered(w, attempt, credential)
      ensures var named := Naming(old(W()), id, if w.credentialWriteOk(credential) then credential else old(db.tasks[id].credential));
        if v.None? then W() == named
        else Judged(named, W(), id, v.value, reply, w) && Fits(old(files.S()), id, v.value, reply, w)
    {
      NameCredential(id, credential, w);
      if !w.decrypts(credential) {
        return None, 0, None;
      }
      var answer, n := CreateWithNetworkRetry(attempt, w);
      if answer.CreateOk? {
        var verdict := Accept(id, answer.result, w);
        return Some(verdict), n, answer.result;
      }
      if !NeedsCredentialRetry(answer.error) {
        return Some(Rejected), n, None;
      }
      return None, n, None;
    }

    /** Note the credential on the row; the write's error is dropped. */
    method NameCredential(id: string, credential: string, w: StartWorld)
      requires db.Valid() && id in db.tasks && Fresh(db.tasks[id], w) && (db as object) != files
      modifies db
      ensures db.Valid() && id in db.tasks && Fresh(db.tasks[id], w)
      ensures W() == Naming(old(W()), id, if w.credentialWriteOk(credential) then credential else old(db.tasks[id].credential))
    {
      if w.credentialWriteOk(credential) {
        db.UpdateTask(id, db.tasks[id].(credential := credential, updatedAt := w.now), L.CredentialStep(id, credential, w.now));
      } else {
        assert db.tasks[id := db.tasks[id]] == db.tasks;
      }
    }

    /** One round of the search below. */
    method TryNext(id: string, attempt: int, credential: string, w: StartWorld, ghost fixed: string, ghost before: World,
                   ghost tried: seq<string>, ghost had: nat)
      returns (v: Option<Verdict>, ghost calls: nat, ghost reply: Option<Created>)
      requires db.Valid() && (db as object) != files && SearchGoesOn(before, W(), id, fixed, tried, had, w)
      requires |tried| < Attempts(fixed) && Next(w, fixed, tried) == Some(credential) && (fixed == "" ==> credential !in tried)
      requires attempt == |tried| + 1
      modifies db, files
      ensures db.Valid()
      ensures v.None? ==> SearchGoesOn(before, W(), id, fixed, tried + [credential], calls, w)
      ensures v.Some? ==> SearchEnds(before, W(), id, fixed, tried + [credential], calls, v.value, reply, w)
    {
      OneMoreTried(before, W(), id, fixed, tried, credential, w);
      v, calls, reply := TryCredential(id, attempt, credential, w);
      TriesGrow(tried, credential, fixed, had, calls);
      calls := had + calls;
    }

    /**
     The retry loop over credentials for a reserved task. The credentials tried are those the world
     offers, up to the first that is not passed over; `Create` runs at most twice on each.
     */
    method TryCredentials(id: string, fixed: string, w: StartWorld)
      returns (v: Verdict, ghost tried: seq<string>, ghost calls: nat, ghost last: Option<Created>)
      requires db.Valid() && id in db.tasks && Fresh(db.tasks[id], w) && db.tasks[id].credential == "" && (db as object) != files
      requires forall excluded :: w.pick(excluded).Some? ==> w.pick(excluded).value !in excluded
      modifies db, files
      ensures db.Valid() && SearchEnds(old(W()), W(), id, fixed, tried, calls, v, last, w)
    {
      ghost var before := W();
      tried, calls, last := [], 0, None;
      var excluded := [];
      var maxAttempts := if fixed != "" then 1 else MAX_ATTEMPTS;
      var attempt := 1;
      NamingNothing(before, id);
      while attempt <= maxAttempts
        invariant 1 <= attempt <= maxAttempts + 1
        invariant db.Valid() && SearchGoesOn(before, W(), id, fixed, tried, calls, w)
        invariant tried == excluded && |tried| == attempt - 1
      {
        var picked := if fixed != "" then Some(fixed) else w.pick(excluded);
        if picked.None? {
          SearchFails(before, W(), id, fixed, tried, calls, w);
          return Rejected, tried, calls, None;
        }
        var credential := picked.value;
        var verdict, n, reply := TryNext(id, attempt, credential, w, fixed, before, tried, calls);
        tried, calls := tried + [credential], n;
        if verdict.Some? {
          return verdict.value, tried, calls, reply;
        }
        excluded := excluded + [credential];
        attempt := attempt + 1;
      }
      SearchFails(before, W(), id, fixed, tried, calls, w);
      return Rejected, tried, calls, None;
    }

    /**
     Whether a start goes through is decided by the world alone: exactly if it may start and the last
     credential tried gets a usable result, every one before it having been passed over. `Started` leaves
     the task charged, and either Running under the upstream id it got, or Succeeded with one stored file
     per media item, in order. `NotStarted` after a reserve leaves it Failed, the price given back when the
     refund commits, and no file when the clean-up works. `NotStarted` before a reserve leaves no task and
     no entry in the log. No other row changes, no credential is tried twice, and upstream `Create` runs at
     most twice per credential, on at most three credentials (one if it is fixed).
     */
    method StartTask(input: StartInput, w: StartWorld)
      returns (r: StartResult, ghost tried: seq<string>, ghost calls: nat, ghost last: Option<Created>)
      requires db.Valid() && (db as object) != files
      requires forall excluded :: w.pick(excluded).Some? ==> w.pick(excluded).value !in excluded
      modifies db, files
      ensures db.Valid()
      ensures r == NotStarted(false) <==> !MayStart(old(db.S()), input, w)
      ensures if r == NotStarted(false) then tried == [] else Searched(w, input.credential, tried)
      ensures r.Started? <==>
                && MayStart(old(db.S()), input, w)
                && tried != [] && Usable(old(files.S()), w, |tried|, tried[|tried| - 1])
      ensures OthersKept(old(W()), W(), w.taskId)
      ensures last == Last(w, tried) && AllOrNothing(old(W()), W(), input, w, r, Recorded(tried, w), last)
      ensures Tries(tried, input.credential, calls)
    {
      ghost var before := W();
      var reserved := CheckAndReserve(input, w);
      if !reserved {
        return NotStarted(false), [], 0, None;
      }
      r, tried, calls, last := FinishStart(input, w, before);
    }

    /** The checks before the reserve, and the reserve. */
    method CheckAndReserve(input: StartInput, w: StartWorld) returns (ok: bool)
      requires db.Valid() && (db as object) != files
      modifies db
      ensures db.Valid() && (ok <==> MayStart(old(db.S()), input, w))
      ensures ok ==> Charged(old(db.S()), db.S(), input.user, w.price.value, w.taskId, Reserved(input, w, ""))
      ensures !ok ==> Untouched(old(W()), W(), input.user) && OthersKept(old(W()), W(), w.taskId)
    {
      if input.user == "" || input.provider == "" || input.body == "" || w.price.None? || !w.adapterFound {
        return false;
      }
      if input.credential != "" && !w.fixedFound {
        return false;
      }
      ok := Reserve(input, w);
    }

    method Reserve(input: StartInput, w: StartWorld) returns (ok: bool)
      requires db.Valid() && w.price.Some? && input.user != "" && (db as object) != files
      modifies db
      ensures db.Valid()
      ensures ok <==> && !w.reserveFault && w.price.value > 0 && w.taskId != "" && w.taskId !in old(db.tasks)
                      && C.Account(old(db.S()), input.user).balance >= w.price.value && C.HasRoom(old(db.S()), input.user)
      ensures ok ==> Charged(old(db.S()), db.S(), input.user, w.price.value, w.taskId, Reserved(input, w, ""))
      ensures !ok ==> Untouched(old(W()), W(), input.user)
    {
      ghost var before := W();
      ReserveDecides(db.S(), input, w);
      var error := db.ReserveAndCreateTask(input.user, w.price.value, w.taskId, false, w.now, w.reserveFault);
      if error.Some? {
        RefusedIsUntouched(before, W(), input.user);
      }
      return error.None?;
    }

    /** The part of `StartTask` after the reserve. */
    method FinishStart(input: StartInput, w: StartWorld, ghost before: World)
      returns (r: StartResult, ghost tried: seq<string>, ghost calls: nat, ghost last: Option<Created>)
      requires db.Valid() && (db as object) != files && before.files == files.S()
      requires w.price.Some?
      requires Charged(before.ledger, db.S(), input.user, w.price.value, w.taskId, Reserved(input, w, ""))
      requires forall excluded :: w.pick(excluded).Some? ==> w.pick(excluded).value !in excluded
      modifies db, files
      ensures db.Valid() && Searched(w, input.credential, tried) && Tries(tried, input.credential, calls)
      ensures last == Last(w, tried)
      ensures r.Started? <==> tried != [] && Usable(before.files, w, |tried|, tried[|tried| - 1])
      ensures r != NotStarted(false) && AllOrNothing(before, W(), input, w, r, Recorded(tried, w), last)
      ensures OthersKept(before, W(), w.taskId)
    {
      ghost var reserved := W();
      L.RunKeepsInv(db.trace);
      var v;
      v, tried, calls, last := TryCredentials(w.taskId, input.credential, w);
      UsableVerdict(before.files, tried, v, w);
      if v.Attached? || v.Delivered? {
        GoodVerdict(before, reserved, W(), input, w, v, Recorded(tried, w), last);
        r := Started(w.price.value);
        OneNewRow(before, W(), input, w, r, Recorded(tried, w), last);
        return;
      }
      if v.Rejected? {
        FailTask(w.taskId, w.task.clock, w.task.refund);
      }
      FailedStart(before, reserved, W(), input, w, Recorded(tried, w), last);
      r := NotStarted(true);
      OneNewRow(before, W(), input, w, r, Recorded(tried, w), last);
    }
  }

  /** Earlier turns of a batch leave later tasks alone. */
  lemma StillWaiting(w: World, due: seq<string>, i: nat, timeout: int, p: PassWorld)
    requires Distinct(due) && (forall id :: id in due ==> id in w.ledger.tasks) && i < |due|
    ensures var s := AdvanceAll(w, due[..i], timeout, p).0.ledger;
            due[i] in s.tasks && s.tasks[due[i]] == w.ledger.tasks[due[i]]
  {
    AdvanceAllEffect(w, due[..i], timeout, p);
    assert due[i] !in due[..i];
  }

  /** A task `StartTask` reserved and has not concluded: Running, to be polled, last written at the start. */
  predicate Fresh(t: L.Task, w: StartWorld) {
    t.status == L.Running && t.nextPollAt.Some? && t.updatedAt == w.now
  }

  /** The result one attempt gets, if any. */
  function Answered(w: StartWorld, attempt: int, credential: string): Option<Created> {
    if !w.decrypts(credential) then None
    else
      match Reply(w, attempt)
      case CreateFailed(_) => None
      case CreateOk(result) => result
  }

  lemma TriesGrow(tried: seq<string>, credential: string, fixed: string, calls: nat, n: nat)
    requires Tries(tried, fixed, calls) && n <= NETWORK_ATTEMPTS
    requires if fixed == "" then credential !in tried && |tried| < MAX_ATTEMPTS else tried == [] && credential == fixed
    ensures Tries(tried + [credential], fixed, calls + n)
  {
  }

  lemma RecordedSnoc(tried: seq<string>, credential: string, w: StartWorld)
    ensures Recorded(tried + [credential], w) == if w.credentialWriteOk(credential) then credential else Recorded(tried, w)
  {
    assert (tried + [credential])[..|tried|] == tried;
  }

  /** No verdict yet: the world as reserved, but for the credential the row names. */
  ghost predicate Searching(before: World, now: World, id: string, tried: seq<string>, w: StartWorld) {
    && id in before.ledger.tasks && Fresh(before.ledger.tasks[id], w)
    && now == Naming(before, id, Recorded(tried, w))
  }

  /** No credential is left. */
  lemma SearchFails(before: World, now: World, id: string, fixed: string, tried: seq<string>, calls: nat, w: StartWorld)
    requires SearchGoesOn(before, now, id, fixed, tried, calls, w)
    requires |tried| == Attempts(fixed) || Next(w, fixed, tried).None?
    ensures SearchEnds(before, now, id, fixed, tried, calls, Rejected, None, w)
  {
  }

  /** The search has no verdict yet. */
  ghost predicate SearchGoesOn(before: World, now: World, id: string, fixed: string, tried: seq<string>, calls: nat, w: StartWorld) {
    Searching(before, now, id, tried, w) && SoFar(w, fixed, tried) && Tries(tried, fixed, calls)
  }

  /** The search is over, with this verdict on the last result. */
  ghost predicate SearchEnds(before: World, now: World, id: string, fixed: string, tried: seq<string>, calls: nat, v: Verdict,
                             last: Option<Created>, w: StartWorld) {
    && Searched(w, fixed, tried) && Tries(tried, fixed, calls) && last == Last(w, tried)
    && id in before.ledger.tasks && Judged(Naming(before, id, Recorded(tried, w)), now, id, v, last, w)
    && Fits(before.files, id, v, last, w)
  }

  lemma OneMoreTried(before: World, mid: World, id: string, fixed: string, tried: seq<string>, credential: string, w: StartWorld)
    requires Searching(before, mid, id, tried, w)
    requires SoFar(w, fixed, tried) && |tried| < Attempts(fixed) && Next(w, fixed, tried) == Some(credential)
    ensures var longer := tried + [credential];
      && Naming(mid, id, if w.credentialWriteOk(credential) then credential else mid.ledger.tasks[id].credential)
         == Naming(before, id, Recorded(longer, w))
      && Answered(w, |longer|, credential) == Last(w, longer)
      && if PassedOver(w, |longer|, credential) then SoFar(w, fixed, longer) else Searched(w, fixed, longer)
  {
    PathGrows(w, fixed, tried, credential);
    RecordedSnoc(tried, credential, w);
    NamingTwice(before, id, Recorded(tried, w), Recorded(tried + [credential], w));
  }

  lemma NamingNothing(w: World, id: string)
    requires id in w.ledger.tasks && w.ledger.tasks[id].credential == ""
    ensures Naming(w, id, "") == w
  {
    assert w.ledger.tasks[id := w.ledger.tasks[id]] == w.ledger.tasks;
  }

  lemma NamingTwice(w: World, id: string, first: string, second: string)
    requires id in w.ledger.tasks
    ensures Naming(Naming(w, id, first), id, second) == Naming(w, id, second)
  {
    var row := w.ledger.tasks[id];
    SameKey(w.ledger.tasks, id, row.(credential := first), row.(credential := second));
  }

  /** Whatever a started task leaves, it is one new row. */
  lemma OneNewRow(before: World, after: World, input: StartInput, w: StartWorld, r: StartResult, credential: string,
                  last: Option<Created>)
    requires AllOrNothing(before, after, input, w, r, credential, last)
    ensures OthersKept(before, after, w.taskId)
  {
  }
}
