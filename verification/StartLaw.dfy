/**
 What `StartTask` meets and what decides its outcome, said of the outside world alone
 (internal/service/async_runner.go, internal/adapter/errors.go).
 */
module StartLaw {
  import opened Common
  import opened CreditLaw
  import opened Polling
  import T = TurnLaw
  import L = Ledger
  import F = Files

  /** What `errors.As` finds in the chain of an error of upstream `Create`. */
  datatype CreateError = CreateError(http: Option<int>, net: bool, url: bool)

  datatype Created = Created(upstream: string, media: seq<F.Media>)

  datatype CreateReply = CreateFailed(error: CreateError) | CreateOk(result: Option<Created>)

  /**
   What one `StartTask` call meets. `backoff(a)` is the context error while waiting to retry attempt `a`;
   `credentialWriteOk` tells for which credentials the unchecked write of `credential_id` takes.
   */
  datatype StartWorld = StartWorld(
    price: Option<int>,
    adapterFound: bool,
    fixedFound: bool,
    taskId: string,
    now: int,
    reserveFault: bool,
    pick: seq<string> -> Option<string>,
    decrypts: string -> bool,
    credentialWriteOk: string -> bool,
    create: (int, int) -> CreateReply,
    backoff: int -> Option<CreateError>,
    upstreamWriteOk: bool,
    task: TaskWorld,
    deleteFault: F.DeleteFault)

  datatype StartInput = StartInput(user: string, provider: string, body: string, credential: string)

  datatype StartResult = Started(cost: int) | NotStarted(reserved: bool)

  // ---------- the way to a result ----------

  /** The request is complete, priced and served by an adapter, its fixed credential exists, and the price can be reserved. */
  predicate MayStart(s: L.State, input: StartInput, w: StartWorld) {
    && input.user != "" && input.provider != "" && input.body != ""
    && w.price.Some? && w.adapterFound && (input.credential != "" ==> w.fixedFound)
    && !w.reserveFault && w.price.value > 0 && w.taskId != "" && w.taskId !in s.tasks
    && Account(s, input.user).balance >= w.price.value && HasRoom(s, input.user)
  }

  /** What `Create` comes to on an attempt: after a network error it is called once more, if the wait is not disturbed. */
  function Reply(w: StartWorld, attempt: int): CreateReply {
    var first := w.create(attempt, 1);
    if first.CreateOk? || !(first.error.net || first.error.url) then first
    else if w.backoff(1).Some? then CreateFailed(w.backoff(1).value)
    else w.create(attempt, 2)
  }

  /** The search goes on: the key does not decrypt, or the error is one another credential may avoid. */
  predicate PassedOver(w: StartWorld, attempt: int, credential: string) {
    || !w.decrypts(credential)
    || (var r := Reply(w, attempt);
        r.CreateFailed? && match r.error.http
                           case Some(code) => code in {401, 403, 429} || code >= 500
                           case None => r.error.net || r.error.url)
  }

  /** The attempt's result starts the task: an upstream id that gets written, or media that get delivered. */
  predicate Usable(files: F.Store, w: StartWorld, attempt: int, credential: string) {
    && w.decrypts(credential)
    && var r := Reply(w, attempt);
       && r.CreateOk? && r.result.Some?
       && var c := r.result.value;
          if c.media == [] then c.upstream != "" && w.upstreamWriteOk else T.Deliverable(files, w.taskId, c.media, w.task)
  }

  /** Who is tried next: the fixed credential, or one not tried before. */
  function Next(w: StartWorld, fixed: string, tried: seq<string>): Option<string> {
    if fixed != "" then Some(fixed) else w.pick(tried)
  }

  /** Three attempts, or one with a fixed credential. */
  function Attempts(fixed: string): nat {
    if fixed != "" then 1 else 3
  }

  /** Each credential was next after those before it, all of which were passed over. */
  ghost predicate Path(w: StartWorld, fixed: string, tried: seq<string>)
    decreases tried, 0
  {
    tried == [] ||
    (var front := tried[..|tried| - 1];
     SoFar(w, fixed, front) && |front| < Attempts(fixed) && Next(w, fixed, front) == Some(tried[|tried| - 1]))
  }

  /** A path all of whose credentials were passed over. */
  ghost predicate SoFar(w: StartWorld, fixed: string, tried: seq<string>)
    decreases tried, 1
  {
    Path(w, fixed, tried) && (tried != [] ==> PassedOver(w, |tried|, tried[|tried| - 1]))
  }

  /** The search stops at the first credential not passed over, and otherwise only when none is left to try. */
  ghost predicate Searched(w: StartWorld, fixed: string, tried: seq<string>) {
    && Path(w, fixed, tried)
    && (SoFar(w, fixed, tried) ==> |tried| == Attempts(fixed) || Next(w, fixed, tried).None?)
  }

  lemma PathGrows(w: StartWorld, fixed: string, tried: seq<string>, credential: string)
    requires SoFar(w, fixed, tried) && |tried| < Attempts(fixed) && Next(w, fixed, tried) == Some(credential)
    ensures Path(w, fixed, tried + [credential])
  {
    assert (tried + [credential])[..|tried|] == tried;
  }

  /** The world fixes the credentials tried. */
  lemma SearchIsDetermined(w: StartWorld, fixed: string, a: seq<string>, b: seq<string>)
    requires Searched(w, fixed, a) && Searched(w, fixed, b)
    ensures a == b
    decreases if |a| <= |b| then 0 else 1
  {
    if |a| < |b| {
      PathPrefix(w, fixed, b, |a|);
      SamePath(w, fixed, a, b[..|a|]);
    } else if |a| == |b| {
      SamePath(w, fixed, a, b);
    } else {
      SearchIsDetermined(w, fixed, b, a);
    }
  }

  lemma {:induction false} PathPrefix(w: StartWorld, fixed: string, tried: seq<string>, n: nat)
    requires Path(w, fixed, tried) && n < |tried|
    ensures SoFar(w, fixed, tried[..n]) && n < Attempts(fixed) && Next(w, fixed, tried[..n]) == Some(tried[n])
  {
    if n < |tried| - 1 {
      PathPrefix(w, fixed, tried[..|tried| - 1], n);
      assert tried[..|tried| - 1][..n] == tried[..n];
    }
  }

  lemma {:induction false} SamePath(w: StartWorld, fixed: string, a: seq<string>, b: seq<string>)
    requires Path(w, fixed, a) && Path(w, fixed, b) && |a| == |b|
    ensures a == b
  {
    if a != [] {
      SamePath(w, fixed, a[..|a| - 1], b[..|b| - 1]);
      assert a == a[..|a| - 1] + [a[|a| - 1]] && b == b[..|b| - 1] + [b[|b| - 1]];
    }
  }

  /** The result of the last attempt, if it got one. */
  function Last(w: StartWorld, tried: seq<string>): Option<Created> {
    if tried == [] || !w.decrypts(tried[|tried| - 1]) then None
    else
      match Reply(w, |tried|)
      case CreateFailed(_) => None
      case CreateOk(result) => result
  }

  /** The credential the row names: the last one tried whose write took. */
  function Recorded(tried: seq<string>, w: StartWorld): string {
    if tried == [] then ""
    else
      var last := tried[|tried| - 1];
      if w.credentialWriteOk(last) then last else Recorded(tried[..|tried| - 1], w)
  }

  /** No credential twice, at most three of them, or just the fixed one; `Create` at most twice on each. */
  ghost predicate Tries(tried: seq<string>, fixed: string, calls: nat) {
    && (fixed == "" ==> Distinct(tried) && |tried| <= 3)
    && (fixed != "" ==> |tried| <= 1 && forall c :: c in tried ==> c == fixed)
    && calls <= 2 * |tried|
  }

  // ---------- what is left behind ----------

  /** No existing row changes, and at most this one is new. */
  ghost predicate OthersKept(before: World, after: World, id: string) {
    && (forall k :: k in before.ledger.tasks ==> k in after.ledger.tasks && after.ledger.tasks[k] == before.ledger.tasks[k])
    && (forall k :: k in after.ledger.tasks ==> k in before.ledger.tasks || k == id)
  }

  /** Charged, with one new row. */
  ghost predicate Charged(s: L.State, s': L.State, user: string, cost: int, id: string, row: L.Task) {
    && user in s.users && id !in s.tasks
    && var c := s.users[user];
       s' == L.State(s.users[user := c.(balance := c.balance - cost, totalConsumed := c.totalConsumed + cost)],
                     s.txs + [L.Tx(user, -cost, L.ConsumeTx, id, c.balance - cost)], s.tasks[id := row])
  }

  /** Charged and given back. */
  ghost predicate GivenBack(s: L.State, s': L.State, user: string, cost: int, id: string, row: L.Task) {
    && user in s.users && id !in s.tasks
    && var balance := s.users[user].balance;
       s' == L.State(s.users,
                     s.txs + [L.Tx(user, -cost, L.ConsumeTx, id, balance - cost), L.Tx(user, cost, L.RefundTx, id, balance)],
                     s.tasks[id := row])
  }

  /** The row as reserved, under this credential: Running, its first poll a second away. */
  function Reserved(input: StartInput, w: StartWorld, credential: string): L.Task
    requires w.price.Some?
  {
    L.Task(input.user, credential, "", L.Running, 0.0, w.price.value, Some(w.now + 1000), 1, "", L.NoRefund, 0, None, None, w.now,
           w.now, [])
  }

  /** The task's stored rows are one per media item, in order, and these are their ids. */
  ghost predicate HoldsExactly(s: F.Store, task: string, media: seq<F.Media>, ids: seq<string>) {
    var rows := F.RowsOf(s.rows, task);
    && |rows| == |media| == |ids|
    && forall i :: 0 <= i < |rows| ==> rows[i].media == media[i] && rows[i].id == ids[i]
  }

  /** Charged, and waiting under its upstream id, or complete with one file per media item, in order. */
  ghost predicate StartedWell(before: World, after: World, input: StartInput, w: StartWorld, credential: string,
                              last: Option<Created>)
    requires w.price.Some?
  {
    && last.Some?
    && var row := Reserved(input, w, credential);
       if last.value.media == [] then
         && Charged(before.ledger, after.ledger, input.user, w.price.value, w.taskId, row.(upstream := last.value.upstream))
         && after.files == before.files
       else
         && w.taskId in after.ledger.tasks
         && var row' := after.ledger.tasks[w.taskId];
            && Charged(before.ledger, after.ledger, input.user, w.price.value, w.taskId, row')
            && T.Completed(row, row', row'.fileIds, w.task)
            && (F.RowsOf(before.files.rows, w.taskId) == [] ==>
                  HoldsExactly(after.files, w.taskId, last.value.media, row'.fileIds))
  }

  /** Failed and given back, as far as the database lets it; no file left if the clean-up works. */
  ghost predicate FailedCleanly(before: World, after: World, input: StartInput, w: StartWorld, credential: string,
                                last: Option<Created>)
    requires w.price.Some?
  {
    var row, cost, clock := Reserved(input, w, credential), w.price.value, w.task.clock;
    var failed := row.(status := L.Failed, nextPollAt := None, completedAt := Some(clock), updatedAt := clock);
    && (match w.task.refund
        case RefundCommits =>
          GivenBack(before.ledger, after.ledger, input.user, cost, w.taskId,
                    failed.(refundStatus := L.Refunded, refundAmount := cost, refundedAt := Some(clock)))
        case OnlyFallback =>
          Charged(before.ledger, after.ledger, input.user, cost, w.taskId, failed.(refundStatus := L.RefundFailed))
        case NothingWritten => Charged(before.ledger, after.ledger, input.user, cost, w.taskId, row))
    && (last.None? || last.value.media == [] ==> after.files == before.files)
    && (w.deleteFault == F.NoFault && F.RowsOf(before.files.rows, w.taskId) == [] ==> F.RowsOf(after.files.rows, w.taskId) == [])
  }

  /** Nothing but perhaps an empty account. */
  ghost predicate Untouched(before: World, after: World, user: string) {
    && after.files == before.files && after.ledger.tasks == before.ledger.tasks && after.ledger.txs == before.ledger.txs
    && after.ledger.users in {before.ledger.users, before.ledger.users[user := Account(before.ledger, user)]}
  }

  /** The three ways `StartTask` can leave things. */
  ghost predicate AllOrNothing(before: World, after: World, input: StartInput, w: StartWorld, r: StartResult,
                               credential: string, last: Option<Created>)
  {
    match r
    case NotStarted(false) => Untouched(before, after, input.user)
    case NotStarted(true) => w.price.Some? && FailedCleanly(before, after, input, w, credential, last)
    case Started(cost) => w.price == Some(cost) && StartedWell(before, after, input, w, credential, last)
  }

  // ---------- the steps in between ----------

  /** How the search for an upstream ended. */
  datatype Verdict = Attached | Delivered | Undelivered | Rejected

  /** The same world with the task's row naming this credential. */
  function Naming(w: World, id: string, credential: string): World
    requires id in w.ledger.tasks
  {
    w.(ledger := w.ledger.(tasks := w.ledger.tasks[id := w.ledger.tasks[id].(credential := credential)]))
  }

  /** What each verdict says, from the state it was reached in. */
  ghost predicate Judged(before: World, after: World, id: string, v: Verdict, reply: Option<Created>, w: StartWorld) {
    && id in before.ledger.tasks
    && var s, row := before.ledger, before.ledger.tasks[id];
       match v
       case Rejected => after == before && (reply.Some? ==> reply.value.media == [])
       case Attached =>
         && reply.Some? && reply.value.media == [] && reply.value.upstream != ""
         && after == before.(ledger := s.(tasks := s.tasks[id := row.(upstream := reply.value.upstream)]))
       case Delivered =>
         && reply.Some? && reply.value.media != []
         && var d := F.Attempt(before.files, id, row.user, reply.value.media, w.task.fetch);
            && d.complete && after.files == d.store && id in after.ledger.tasks
            && after.ledger == s.(tasks := s.tasks[id := after.ledger.tasks[id]])
            && T.Completed(row, after.ledger.tasks[id], d.ids, w.task)
       case Undelivered =>
         && reply.Some? && reply.value.media != []
         && after.ledger == FailAndRefund(s, id, w.task.clock, w.task.refund)
         && (w.deleteFault == F.NoFault ==> F.RowsOf(after.files.rows, id) == [])
  }

  /** The verdict a result gets. */
  predicate Fits(files: F.Store, id: string, v: Verdict, reply: Option<Created>, w: StartWorld) {
    match v
    case Attached => reply.Some? && reply.value.media == [] && reply.value.upstream != "" && w.upstreamWriteOk
    case Delivered => reply.Some? && reply.value.media != [] && T.Deliverable(files, id, reply.value.media, w.task)
    case Undelivered => reply.Some? && reply.value.media != [] && !T.Deliverable(files, id, reply.value.media, w.task)
    case Rejected => reply.Some? ==> reply.value.media == [] && !(reply.value.upstream != "" && w.upstreamWriteOk)
  }

  /** A start goes through exactly on the verdicts of a usable last attempt. */
  lemma UsableVerdict(files: F.Store, tried: seq<string>, v: Verdict, w: StartWorld)
    requires Fits(files, w.taskId, v, Last(w, tried), w)
    ensures v.Attached? || v.Delivered? <==> tried != [] && Usable(files, w, |tried|, tried[|tried| - 1])
  {
  }

  /** From a usable verdict to what the caller finds. */
  lemma GoodVerdict(before: World, reserved: World, after: World, input: StartInput, w: StartWorld, v: Verdict,
                    credential: string, last: Option<Created>)
    requires w.price.Some? && reserved.files == before.files
    requires Charged(before.ledger, reserved.ledger, input.user, w.price.value, w.taskId, Reserved(input, w, ""))
    requires (v.Attached? || v.Delivered?) && Judged(Naming(reserved, w.taskId, credential), after, w.taskId, v, last, w)
    ensures StartedWell(before, after, input, w, credential, last)
  {
    var s, row := reserved.ledger, Reserved(input, w, credential);
    assert Naming(reserved, w.taskId, credential).ledger.tasks[w.taskId] == row;
    SameKey(before.ledger.tasks, w.taskId, Reserved(input, w, ""), row);
    if v.Attached? {
      SameKey(before.ledger.tasks, w.taskId, row, row.(upstream := last.value.upstream));
    } else {
      SameKey(before.ledger.tasks, w.taskId, row, after.ledger.tasks[w.taskId]);
      F.FreshAttempt(before.files, w.taskId, input.user, last.value.media, w.task.fetch);
    }
  }

  lemma SameKey(tasks: map<string, L.Task>, id: string, a: L.Task, b: L.Task)
    ensures tasks[id := a][id := b] == tasks[id := b]
  {
  }

  /** The reserve goes through exactly if the start may, once the request itself is in order. */
  lemma ReserveDecides(s: L.State, input: StartInput, w: StartWorld)
    requires w.price.Some? && input.user != ""
    ensures var cost := w.price.value;
            var out := L.ReserveAndCreateTask(s, input.user, cost, w.taskId, L.NewTask(input.user, cost, w.now));
      && (out.error.None? <==>
            && cost > 0 && w.taskId != "" && w.taskId !in s.tasks
            && Account(s, input.user).balance >= cost && HasRoom(s, input.user))
      && (out.error.None? ==> Charged(s, out.state, input.user, cost, w.taskId, Reserved(input, w, "")))
  {
    ReserveIff(s, input.user, w.price.value, w.taskId, L.NewTask(input.user, w.price.value, w.now));
  }

  /** A reserve that fails opens an account at most. */
  lemma RefusedIsUntouched(before: World, after: World, user: string)
    requires after.files == before.files && after.ledger in {before.ledger, L.EnsureUser(before.ledger, user)}
    ensures Untouched(before, after, user)
  {
    assert user in before.ledger.users ==> before.ledger.users[user := Account(before.ledger, user)] == before.ledger.users;
  }

  /** The refund of a failed search, and what the caller then finds. */
  lemma FailedStart(before: World, reserved: World, after: World, input: StartInput, w: StartWorld,
                    credential: string, last: Option<Created>)
    requires w.price.Some? && reserved.files == before.files && w.taskId in reserved.ledger.tasks && L.Inv(reserved.ledger)
    requires Charged(before.ledger, reserved.ledger, input.user, w.price.value, w.taskId, Reserved(input, w, ""))
    requires after.ledger == FailAndRefund(Naming(reserved, w.taskId, credential).ledger, w.taskId, w.task.clock, w.task.refund)
    requires last.None? || last.value.media == [] ==> after.files == before.files
    requires last.Some? && last.value.media != [] && w.deleteFault == F.NoFault ==> F.RowsOf(after.files.rows, w.taskId) == []
    ensures FailedCleanly(before, after, input, w, credential, last)
  {
    L.RowUpdateKeepsInv(reserved.ledger, w.taskId, reserved.ledger.tasks[w.taskId].(credential := credential));
    T.FailingPaysBack(Naming(reserved, w.taskId, credential).ledger, w.taskId, w.task.clock, w.task.refund);
    BadVerdict(before, reserved, after, input, w, credential, last);
  }

  lemma BadVerdict(before: World, reserved: World, after: World, input: StartInput, w: StartWorld,
                   credential: string, last: Option<Created>)
    requires w.price.Some? && reserved.files == before.files && w.taskId in reserved.ledger.tasks
    requires Charged(before.ledger, reserved.ledger, input.user, w.price.value, w.taskId, Reserved(input, w, ""))
    requires T.PaidBack(Naming(reserved, w.taskId, credential).ledger, after.ledger, w.taskId, w.task.clock, w.task.refund)
    requires last.None? || last.value.media == [] ==> after.files == before.files
    requires last.Some? && last.value.media != [] && w.deleteFault == F.NoFault ==> F.RowsOf(after.files.rows, w.taskId) == []
    ensures FailedCleanly(before, after, input, w, credential, last)
  {
    var s, row, clock := Naming(reserved, w.taskId, credential).ledger, Reserved(input, w, credential), w.task.clock;
    SameKey(before.ledger.tasks, w.taskId, Reserved(input, w, ""), row);
    assert s.tasks == before.ledger.tasks[w.taskId := row];
    SameKey(before.ledger.tasks, w.taskId, row, after.ledger.tasks[w.taskId]);
    if w.task.refund == RefundCommits {
      var c := before.ledger.users[input.user];
      assert after.ledger.users == before.ledger.users[input.user := c] == before.ledger.users;
    }
  }
}
