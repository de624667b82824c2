/**
 The credit ledger: user balances, the append-only transaction log and the generation
 task rows that the log pays for (internal/service/credit.go, internal/model/user_credit.go,
 internal/model/generation_task.go). Every database transaction is one step on a `State`.
 */
module Ledger {
  import opened Common

  // ---------- rows ----------

  datatype TxKind = AdjustTx | ConsumeTx | RefundTx

  datatype Tx = Tx(user: string, amount: int, kind: TxKind, task: string, balanceAfter: int)

  datatype Credit = Credit(balance: int, totalTopup: int, totalConsumed: int, concurrentLimit: int)

  datatype Status = Pending | Running | Succeeded | Failed | Canceled

  datatype RefundStatus = NoRefund | Refunded | RefundFailed | RefundSkipped

  datatype Task = Task(
    user: string,
    credential: string,
    upstream: string,
    status: Status,
    progress: real,
    cost: int,
    nextPollAt: Option<int>,
    pollInterval: int,
    upstreamStatus: string,
    refundStatus: RefundStatus,
    refundAmount: int,
    refundedAt: Option<int>,
    completedAt: Option<int>,
    createdAt: int,
    updatedAt: int,
    fileIds: seq<string>)

  datatype State = State(users: map<string, Credit>, txs: seq<Tx>, tasks: map<string, Task>)

  datatype Error =
    | ZeroAmount | InsufficientBalance | CostNotPositive | MissingTaskId | MissingUserId
    | UserMismatch | ConcurrentLimit | DuplicateTask | TaskNotFound | CreditRowMissing | NegativeLimit
    | DatabaseFault

  /** What a service call leaves behind: the tables, and the error it returned, if any. */
  datatype Outcome = Outcome(state: State, error: Option<Error>)

  const EMPTY := State(map[], [], map[])

  // ---------- queries ----------

  /** `WHERE task_id = ? AND type = ? ORDER BY id ASC` over the log. */
  function TxOf(txs: seq<Tx>, task: string, kind: TxKind): seq<Tx> {
    if txs == [] then []
    else
      var last := txs[|txs| - 1];
      TxOf(txs[..|txs| - 1], task, kind) + if last.task == task && last.kind == kind then [last] else []
  }

  /** `SUM(amount)` of one user's log entries. */
  function UserSum(txs: seq<Tx>, user: string): int {
    if txs == [] then 0
    else
      var last := txs[|txs| - 1];
      UserSum(txs[..|txs| - 1], user) + if last.user == user then last.amount else 0
  }

  /** The part of `UserSum` that administrators put in or took out by hand. */
  function AdjustSum(txs: seq<Tx>, user: string): int {
    if txs == [] then 0
    else
      var last := txs[|txs| - 1];
      AdjustSum(txs[..|txs| - 1], user) + if last.user == user && last.kind == AdjustTx then last.amount else 0
  }

  function Amounts(txs: seq<Tx>): int {
    if txs == [] then 0 else Amounts(txs[..|txs| - 1]) + txs[|txs| - 1].amount
  }

  /** What a task has cost its user so far, according to the log alone. */
  function NetCharge(txs: seq<Tx>, task: string): int {
    -(Amounts(TxOf(txs, task, ConsumeTx)) + Amounts(TxOf(txs, task, RefundTx)))
  }

  predicate Live(t: Task) {
    t.status == Pending || t.status == Running
  }

  predicate Terminal(t: Task) {
    t.status == Succeeded || t.status == Failed
  }

  /** The tasks that count against a user's concurrency limit. */
  function LiveTasksOf(s: State, user: string): set<string> {
    set id | id in s.tasks && s.tasks[id].user == user && Live(s.tasks[id])
  }

  /** The start-up self-check: users whose stored balance differs from their log. */
  function CheckIntegrity(s: State): set<string> {
    set u | u in s.users && s.users[u].balance != UserSum(s.txs, u)
  }

  // ---------- the transactions of the credit service ----------

  function EnsureUser(s: State, user: string): State {
    if user in s.users then s else s.(users := s.users[user := Credit(0, 0, 0, 1)])
  }

  function Adjust(s0: State, user: string, amount: int): Outcome {
    if amount == 0 then Outcome(s0, Some(ZeroAmount))
    else
      var s := EnsureUser(s0, user);
      var row := s.users[user];
      var balance := row.balance + amount;
      if balance < 0 then Outcome(s, Some(InsufficientBalance))
      else
        var topup := if amount > 0 then row.totalTopup + amount else row.totalTopup;
        Outcome(
          s.(users := s.users[user := row.(balance := balance, totalTopup := topup)],
             txs := s.txs + [Tx(user, amount, AdjustTx, "", balance)]),
          None)
  }

  function SetConcurrentLimit(s0: State, user: string, limit: int): Outcome {
    if limit < 0 then Outcome(s0, Some(NegativeLimit))
    else
      var s := EnsureUser(s0, user);
      Outcome(s.(users := s.users[user := s.users[user].(concurrentLimit := limit)]), None)
  }

  /** Charge the user and create the task row in one transaction. */
  function ReserveAndCreateTask(s0: State, userArg: string, cost: int, id: string, draft0: Task): Outcome {
    if cost <= 0 then Outcome(s0, Some(CostNotPositive))
    else if id == "" then Outcome(s0, Some(MissingTaskId))
    else
      var user := if userArg == "" then draft0.user else userArg;
      if user == "" then Outcome(s0, Some(MissingUserId))
      else
        var draft := if draft0.user == "" then draft0.(user := user) else draft0;
        if draft.user != user then Outcome(s0, Some(UserMismatch))
        else
          var s := EnsureUser(s0, user);
          var row := s.users[user];
          if row.concurrentLimit > 0 && |LiveTasksOf(s, user)| >= row.concurrentLimit then
            Outcome(s, Some(ConcurrentLimit))
          else if row.balance < cost then Outcome(s, Some(InsufficientBalance))
          else if id in s.tasks then Outcome(s, Some(DuplicateTask))
          else
            var balance := row.balance - cost;
            Outcome(
              State(
                s.users[user := row.(balance := balance, totalConsumed := row.totalConsumed + cost)],
                s.txs + [Tx(user, -cost, ConsumeTx, id, balance)],
                s.tasks[id := draft]),
              None)
  }

  /** Mark the task failed and give back what was charged, at most once. */
  function FailTaskAndRefund(s: State, id: string, now: int): Outcome {
    if id == "" then Outcome(s, Some(MissingTaskId))
    else if id !in s.tasks then Outcome(s, Some(TaskNotFound))
    else
      var t := s.tasks[id];
      var refunds, consumes := TxOf(s.txs, id, RefundTx), TxOf(s.txs, id, ConsumeTx);
      if t.refundStatus == Refunded || t.refundStatus == RefundSkipped then
        Outcome(s.(tasks := s.tasks[id := FailedRow(t, t.refundStatus, t.refundAmount, t.refundedAt, now)]), None)
      else if refunds != [] then
        var amount := if t.refundAmount == 0 then refunds[0].amount else t.refundAmount;
        var at := if t.refundedAt.None? then Some(now) else t.refundedAt;
        Outcome(s.(tasks := s.tasks[id := FailedRow(t, Refunded, amount, at, now)]), None)
      else if consumes == [] then
        Outcome(s.(tasks := s.tasks[id := FailedRow(t, RefundSkipped, t.refundAmount, t.refundedAt, now)]), None)
      else if consumes[0].user !in s.users then Outcome(s, Some(CreditRowMissing))
      else
        var amount, user := -consumes[0].amount, consumes[0].user;
        var row := s.users[user];
        var balance := row.balance + amount;
        Outcome(
          State(
            s.users[user := row.(balance := balance, totalConsumed := row.totalConsumed - amount)],
            s.txs + [Tx(user, amount, RefundTx, id, balance)],
            s.tasks[id := FailedRow(t, Refunded, amount, Some(now), now)]),
          None)
  }

  function FailedRow(t: Task, refund: RefundStatus, amount: int, at: Option<int>, now: int): Task {
    t.(status := Failed, refundStatus := refund, refundAmount := amount, refundedAt := at,
       nextPollAt := None, completedAt := Some(now), updatedAt := now)
  }

  // ---------- direct updates of a task row (internal/service/async_runner.go) ----------

  /** A freshly reserved task: Running, first poll due one second after creation. */
  function NewTask(user: string, cost: int, now: int): Task {
    Task(user, "", "", Running, 0.0, cost, Some(now + INITIAL_POLL_DELAY), 1, "", NoRefund, 0, None, None, now, now, [])
  }

  const INITIAL_POLL_DELAY := 1000

  /** A freshly reserved chat request (internal/service/provider_proxy.go): Running, never polled. */
  function NewChatTask(user: string, cost: int, now: int): Task {
    NewTask(user, cost, now).(nextPollAt := None)
  }

  function Update(s: State, id: string, row: Task): State {
    if id in s.tasks then s.(tasks := s.tasks[id := row]) else s
  }

  function Row(s: State, id: string): Task {
    if id in s.tasks then s.tasks[id] else NewTask("", 0, 0)
  }

  /** Fallback of `failTaskAndRefund` when the refund transaction failed. */
  function MarkRefundFailed(s: State, id: string, now: int): State {
    Update(s, id, Row(s, id).(status := Failed, refundStatus := RefundFailed, nextPollAt := None,
                              completedAt := Some(now), updatedAt := now))
  }

  function MarkSucceeded(s: State, id: string, fileIds: seq<string>, now: int): State {
    Update(s, id, Row(s, id).(status := Succeeded, fileIds := fileIds, completedAt := Some(now), progress := 1.0,
                              nextPollAt := None, pollInterval := 0, upstreamStatus := "succeeded", updatedAt := now))
  }

  function FinishChat(s: State, id: string, now: int): State {
    Update(s, id, Row(s, id).(status := Succeeded, completedAt := Some(now), progress := 1.0, updatedAt := now))
  }

  function Reschedule(s: State, id: string, delay: int, upstreamStatus: string, progress: real, now: int): State {
    var t := Row(s, id);
    Update(s, id, t.(progress := progress, pollInterval := delay / 1000, nextPollAt := Some(now + delay), updatedAt := now,
                     upstreamStatus := if upstreamStatus == "" then t.upstreamStatus else upstreamStatus))
  }

  function SetCredential(s: State, id: string, credential: string, now: int): State {
    Update(s, id, Row(s, id).(credential := credential, updatedAt := now))
  }

  function SetUpstream(s: State, id: string, upstream: string, now: int): State {
    Update(s, id, Row(s, id).(upstream := upstream, updatedAt := now))
  }

  // ---------- runs ----------

  datatype Step =
    | EnsureUserStep(user: string)
    | AdjustStep(user: string, amount: int)
    | LimitStep(user: string, limit: int)
    | ReserveStep(user: string, id: string, cost: int, now: int)
    | ChatStep(user: string, id: string, cost: int, now: int)
    | ChatDoneStep(id: string, now: int)
    | CredentialStep(id: string, credential: string, now: int)
    | UpstreamStep(id: string, upstream: string, now: int)
    | RescheduleStep(id: string, delay: int, upstreamStatus: string, progress: real, now: int)
    | SucceedStep(id: string, fileIds: seq<string>, now: int)
    | RefundStep(id: string, now: int)
    | RefundFailedStep(id: string, now: int)

  function Apply(s: State, step: Step): State {
    match step
    case EnsureUserStep(user) => EnsureUser(s, user)
    case AdjustStep(user, amount) => Adjust(s, user, amount).state
    case LimitStep(user, limit) => SetConcurrentLimit(s, user, limit).state
    case ReserveStep(user, id, cost, now) => ReserveAndCreateTask(s, user, cost, id, NewTask(user, cost, now)).state
    case ChatStep(user, id, cost, now) => ReserveAndCreateTask(s, user, cost, id, NewChatTask(user, cost, now)).state
    case ChatDoneStep(id, now) => FinishChat(s, id, now)
    case CredentialStep(id, credential, now) => SetCredential(s, id, credential, now)
    case UpstreamStep(id, upstream, now) => SetUpstream(s, id, upstream, now)
    case RescheduleStep(id, delay, upstreamStatus, progress, now) => Reschedule(s, id, delay, upstreamStatus, progress, now)
    case SucceedStep(id, fileIds, now) => MarkSucceeded(s, id, fileIds, now)
    case RefundStep(id, now) => FailTaskAndRefund(s, id, now).state
    case RefundFailedStep(id, now) => MarkRefundFailed(s, id, now)
  }

  /** The task whose row a step rewrites, for the steps that act on an existing task. */
  function Target(step: Step): Option<string> {
    match step
    case CredentialStep(id, _, _) => Some(id)
    case UpstreamStep(id, _, _) => Some(id)
    case RescheduleStep(id, _, _, _, _) => Some(id)
    case SucceedStep(id, _, _) => Some(id)
    case ChatDoneStep(id, _) => Some(id)
    case RefundStep(id, _) => Some(id)
    case RefundFailedStep(id, _) => Some(id)
    case _ => None
  }

  /**
   The caller-side discipline: a task row is only rewritten while it is Running; upstream ids go to
   rows that are polled, chat answers to rows that are not.
   */
  predicate Enabled(s: State, step: Step) {
    Target(step).Some? ==>
      && Target(step).value in s.tasks && s.tasks[Target(step).value].status == Running
      && (step.UpstreamStep? ==> s.tasks[step.id].nextPollAt.Some?)
      && (step.ChatDoneStep? ==> s.tasks[step.id].nextPollAt.None?)
  }

  function Run(s: State, steps: seq<Step>): State {
    if steps == [] then s else Apply(Run(s, steps[..|steps| - 1]), steps[|steps| - 1])
  }

  predicate RunEnabled(s: State, steps: seq<Step>) {
    steps == [] ||
    (RunEnabled(s, steps[..|steps| - 1]) && Enabled(Run(s, steps[..|steps| - 1]), steps[|steps| - 1]))
  }

  lemma RunSnoc(s: State, steps: seq<Step>, step: Step)
    ensures Run(s, steps + [step]) == Apply(Run(s, steps), step)
    ensures RunEnabled(s, steps + [step]) <==> RunEnabled(s, steps) && Enabled(Run(s, steps), step)
  {
    assert (steps + [step])[..|steps|] == steps;
  }

  // ---------- what a step does to the rows ----------

  /** Rows other than the target stay, and the only new row is a fresh reservation. */
  predicate RowsFramed(s: State, s': State, step: Step) {
    && (forall k :: k in s.tasks && Target(step) != Some(k) ==> k in s'.tasks && s'.tasks[k] == s.tasks[k])
    && (forall k :: k in s'.tasks && k !in s.tasks ==>
          || (step.ReserveStep? && step.id == k && s'.tasks[k] == NewTask(step.user, step.cost, step.now))
          || (step.ChatStep? && step.id == k && s'.tasks[k] == NewChatTask(step.user, step.cost, step.now)))
  }

  /** A rewritten row keeps its owner; while it stays Running only a reschedule moves its next poll. */
  predicate RowMoves(row: Task, row': Task, step: Step) {
    && row'.user == row.user && row'.createdAt == row.createdAt
    && (row'.status == Running ==>
          && (row'.nextPollAt == row.nextPollAt || (step.RescheduleStep? && row'.nextPollAt == Some(step.now + step.delay)))
          && (row'.upstream == row.upstream || (step.UpstreamStep? && row'.upstream == step.upstream)))
  }

  lemma StepFrames(s: State, step: Step)
    requires Enabled(s, step)
    ensures RowsFramed(s, Apply(s, step), step)
  {
    match step
    case ReserveStep(user, id, cost, now) => ReserveFrames(s, user, id, cost, NewTask(user, cost, now));
    case ChatStep(user, id, cost, now) => ReserveFrames(s, user, id, cost, NewChatTask(user, cost, now));
    case RefundStep(id, now) => RefundFrames(s, id, now);
    case _ =>
  }

  lemma ReserveFrames(s: State, user: string, id: string, cost: int, draft: Task)
    requires draft.user == user
    ensures var tasks := ReserveAndCreateTask(s, user, cost, id, draft).state.tasks;
            tasks == s.tasks || (id !in s.tasks && tasks == s.tasks[id := draft])
  {
  }

  lemma RefundFrames(s: State, id: string, now: int)
    requires id in s.tasks
    ensures var tasks := FailTaskAndRefund(s, id, now).state.tasks;
            tasks.Keys == s.tasks.Keys && forall k :: k in s.tasks && k != id ==> tasks[k] == s.tasks[k]
  {
  }

  lemma TargetMoves(s: State, step: Step, k: string)
    requires Enabled(s, step) && Target(step) == Some(k)
    ensures k in Apply(s, step).tasks && RowMoves(s.tasks[k], Apply(s, step).tasks[k], step)
  {
    match step
    case RefundStep(id, now) =>
    case _ =>
  }

  // ---------- the invariant ----------

  /** What a task's status says it should have cost. */
  function Charge(t: Task): int {
    if t.status == Failed && t.refundStatus == Refunded then 0 else t.cost
  }

  /** Sum of the charges of one user's tasks. */
  ghost function ChargedTotal(tasks: map<string, Task>, user: string): int {
    if tasks == map[] then 0
    else
      var id :| id in tasks;
      (if tasks[id].user == user then Charge(tasks[id]) else 0) + ChargedTotal(tasks - {id}, user)
  }

  lemma {:induction false} ChargedTotalSplit(tasks: map<string, Task>, user: string, id: string)
    requires id in tasks
    ensures ChargedTotal(tasks, user)
         == (if tasks[id].user == user then Charge(tasks[id]) else 0) + ChargedTotal(tasks - {id}, user)
    decreases |tasks|
  {
    var k :| k in tasks && ChargedTotal(tasks, user)
                       == (if tasks[k].user == user then Charge(tasks[k]) else 0) + ChargedTotal(tasks - {k}, user);
    if k != id {
      ChargedTotalSplit(tasks - {k}, user, id);
      assert (tasks - {k}) - {id} == (tasks - {id}) - {k};
      ChargedTotalSplit(tasks - {id}, user, k);
    }
  }

  lemma ChargedTotalUpdate(tasks: map<string, Task>, user: string, id: string, row: Task)
    ensures ChargedTotal(tasks[id := row], user)
         == ChargedTotal(tasks, user)
            - (if id in tasks && tasks[id].user == user then Charge(tasks[id]) else 0)
            + (if row.user == user then Charge(row) else 0)
  {
    var after := tasks[id := row];
    ChargedTotalSplit(after, user, id);
    if id in tasks {
      ChargedTotalSplit(tasks, user, id);
      assert after - {id} == tasks - {id};
    } else {
      assert after - {id} == tasks;
    }
  }

  /** One user's money: the balance matches the log, and the log matches what the task rows claim. */
  ghost predicate Balanced(s: State, u: string) {
    var c := if u in s.users then s.users[u] else Credit(0, 0, 0, 1);
    && c.balance == UserSum(s.txs, u)
    && c.balance >= 0
    && c.totalConsumed == ChargedTotal(s.tasks, u)
    && c.balance == AdjustSum(s.txs, u) - ChargedTotal(s.tasks, u)
  }

  /** One charge per task, and one refund exactly when the row says so. */
  predicate Booked(s: State, id: string) {
    var consumes, refunds := TxOf(s.txs, id, ConsumeTx), TxOf(s.txs, id, RefundTx);
    if id in s.tasks then
      var t := s.tasks[id];
      && |consumes| == 1 && consumes[0].amount == -t.cost && consumes[0].user == t.user
      && t.user in s.users
      && (if t.refundStatus == Refunded then |refunds| == 1 && refunds[0].amount == t.cost && refunds[0].user == t.user
          else refunds == [])
    else consumes == [] && refunds == []
  }

  predicate Shaped(t: Task) {
    && t.cost > 0
    && match t.status
       case Running => t.refundStatus == NoRefund && t.completedAt.None?
       case Succeeded => t.refundStatus == NoRefund && t.completedAt.Some? && t.nextPollAt.None?
       case Failed => t.refundStatus in {Refunded, RefundFailed} && t.completedAt.Some? && t.nextPollAt.None?
       case _ => false
  }

  ghost predicate Inv(s: State) {
    && (forall u :: Balanced(s, u))
    && (forall id :: Booked(s, id))
    && (forall id :: id in s.tasks ==> Shaped(s.tasks[id]))
    && "" !in s.tasks
  }

  lemma EmptyInv()
    ensures Inv(EMPTY)
  {
  }

  /** What appending one entry does to each query of the log. */
  lemma LogSnoc(txs: seq<Tx>, tx: Tx, u: string)
    ensures UserSum(txs + [tx], u) == UserSum(txs, u) + if tx.user == u then tx.amount else 0
    ensures AdjustSum(txs + [tx], u) == AdjustSum(txs, u) + if tx.user == u && tx.kind == AdjustTx then tx.amount else 0
  {
    assert (txs + [tx])[..|txs|] == txs;
  }

  lemma TxOfSnoc(txs: seq<Tx>, tx: Tx, id: string, kind: TxKind)
    ensures TxOf(txs + [tx], id, kind) == TxOf(txs, id, kind) + if tx.task == id && tx.kind == kind then [tx] else []
  {
    assert (txs + [tx])[..|txs|] == txs;
  }

  lemma EnsureUserKeepsInv(s: State, user: string)
    requires Inv(s)
    ensures Inv(EnsureUser(s, user))
  {
    var s' := EnsureUser(s, user);
    forall u ensures Balanced(s', u) { assert Balanced(s, u); }
    forall id ensures Booked(s', id) { assert Booked(s, id); }
  }

  lemma AdjustKeepsInv(s0: State, user: string, amount: int)
    requires Inv(s0)
    ensures Inv(Adjust(s0, user, amount).state)
  {
    EnsureUserKeepsInv(s0, user);
    var s, s' := EnsureUser(s0, user), Adjust(s0, user, amount).state;
    if amount != 0 && s.users[user].balance + amount >= 0 {
      var tx := s'.txs[|s.txs|];
      forall u ensures Balanced(s', u) { assert Balanced(s, u); LogSnoc(s.txs, tx, u); }
      forall id ensures Booked(s', id) { assert Booked(s, id); TxOfBoth(s.txs, tx, id); }
    }
  }

  lemma TxOfBoth(txs: seq<Tx>, tx: Tx, id: string)
    ensures TxOf(txs + [tx], id, ConsumeTx)
         == TxOf(txs, id, ConsumeTx) + if tx.task == id && tx.kind == ConsumeTx then [tx] else []
    ensures TxOf(txs + [tx], id, RefundTx)
         == TxOf(txs, id, RefundTx) + if tx.task == id && tx.kind == RefundTx then [tx] else []
  {
    TxOfSnoc(txs, tx, id, ConsumeTx);
    TxOfSnoc(txs, tx, id, RefundTx);
  }

  lemma LimitKeepsInv(s0: State, user: string, limit: int)
    requires Inv(s0)
    ensures Inv(SetConcurrentLimit(s0, user, limit).state)
  {
    EnsureUserKeepsInv(s0, user);
    var s, s' := EnsureUser(s0, user), SetConcurrentLimit(s0, user, limit).state;
    forall u ensures Balanced(s', u) { assert Balanced(s, u); }
    forall id ensures Booked(s', id) { assert Booked(s, id); }
  }

  /** A row as a reserve creates it. */
  predicate Draft(t: Task, user: string, cost: int) {
    t.user == user && t.cost == cost && t.status == Running && t.refundStatus == NoRefund && t.completedAt.None?
  }

  lemma ReserveKeepsInv(s0: State, user: string, id: string, cost: int, draft: Task)
    requires Inv(s0) && Draft(draft, user, cost)
    ensures Inv(ReserveAndCreateTask(s0, user, cost, id, draft).state)
  {
    EnsureUserKeepsInv(s0, user);
    var out := ReserveAndCreateTask(s0, user, cost, id, draft);
    if out.error.None? {
      ReservedKeepsInv(EnsureUser(s0, user), user, id, cost, draft);
    }
  }

  /** The ledger after charging for a new task. */
  function AfterReserve(s: State, user: string, id: string, cost: int, draft: Task): State
    requires user in s.users
  {
    var row := s.users[user];
    State(s.users[user := row.(balance := row.balance - cost, totalConsumed := row.totalConsumed + cost)],
          s.txs + [Tx(user, -cost, ConsumeTx, id, row.balance - cost)], s.tasks[id := draft])
  }

  lemma ReservedKeepsInv(s: State, user: string, id: string, cost: int, draft: Task)
    requires Inv(s) && Draft(draft, user, cost) && cost > 0 && user in s.users && id !in s.tasks && id != ""
    requires s.users[user].balance >= cost
    ensures Inv(AfterReserve(s, user, id, cost, draft))
  {
    var s' := AfterReserve(s, user, id, cost, draft);
    forall u ensures Balanced(s', u) {
      ReservedBalances(s, user, id, cost, draft, u);
    }
    forall k ensures Booked(s', k) {
      ReservedBooks(s, user, id, cost, draft, k);
    }
  }

  lemma ReservedBalances(s: State, user: string, id: string, cost: int, draft: Task, u: string)
    requires Balanced(s, u) && Draft(draft, user, cost) && user in s.users && id !in s.tasks && s.users[user].balance >= cost
    ensures Balanced(AfterReserve(s, user, id, cost, draft), u)
  {
    ReservedSums(s, user, id, cost, draft, u);
    assert u == user || AfterReserve(s, user, id, cost, draft).users[user := s.users[user]] == s.users;
  }

  lemma ReservedSums(s: State, user: string, id: string, cost: int, draft: Task, u: string)
    requires Draft(draft, user, cost) && user in s.users && id !in s.tasks
    ensures var s', spent := AfterReserve(s, user, id, cost, draft), if u == user then cost else 0;
      && UserSum(s'.txs, u) == UserSum(s.txs, u) - spent && AdjustSum(s'.txs, u) == AdjustSum(s.txs, u)
      && ChargedTotal(s'.tasks, u) == ChargedTotal(s.tasks, u) + spent
  {
    LogSnoc(s.txs, Tx(user, -cost, ConsumeTx, id, s.users[user].balance - cost), u);
    ChargedTotalUpdate(s.tasks, u, id, draft);
  }

  lemma ReservedBooks(s: State, user: string, id: string, cost: int, draft: Task, k: string)
    requires Booked(s, k) && Draft(draft, user, cost) && user in s.users && id !in s.tasks
    ensures Booked(AfterReserve(s, user, id, cost, draft), k)
  {
    TxOfBoth(s.txs, Tx(user, -cost, ConsumeTx, id, s.users[user].balance - cost), k);
  }

  /** Rewriting a row without touching its money fields keeps the books. */
  lemma RowUpdateKeepsInv(s: State, id: string, row: Task)
    requires Inv(s)
    requires id in s.tasks
    requires row.user == s.tasks[id].user && row.cost == s.tasks[id].cost && Charge(row) == Charge(s.tasks[id])
    requires (row.refundStatus == Refunded) == (s.tasks[id].refundStatus == Refunded)
    requires Shaped(row)
    ensures Inv(s.(tasks := s.tasks[id := row]))
  {
    var s' := s.(tasks := s.tasks[id := row]);
    forall u ensures Balanced(s', u) {
      assert Balanced(s, u);
      ChargedTotalUpdate(s.tasks, u, id, row);
    }
    forall k ensures Booked(s', k) { assert Booked(s, k); }
  }

  /** The ledger after giving a Running task's price back in full. */
  function AfterRefund(s: State, id: string, now: int): State
    requires id in s.tasks && s.tasks[id].user in s.users
  {
    var t := s.tasks[id];
    var row := s.users[t.user];
    State(s.users[t.user := row.(balance := row.balance + t.cost, totalConsumed := row.totalConsumed - t.cost)],
          s.txs + [Tx(t.user, t.cost, RefundTx, id, row.balance + t.cost)],
          s.tasks[id := FailedRow(t, Refunded, t.cost, Some(now), now)])
  }

  /** On a Running task of a consistent ledger the refund always goes through, in full. */
  lemma RefundOfRunning(s: State, id: string, now: int)
    requires Inv(s) && id in s.tasks && s.tasks[id].status == Running
    ensures s.tasks[id].user in s.users
    ensures FailTaskAndRefund(s, id, now) == Outcome(AfterRefund(s, id, now), None)
    ensures Inv(AfterRefund(s, id, now))
  {
    assert Booked(s, id) && Shaped(s.tasks[id]);
    AfterRefundKeepsInv(s, id, now);
  }

  lemma AfterRefundKeepsInv(s: State, id: string, now: int)
    requires Inv(s) && id in s.tasks && s.tasks[id].status == Running && s.tasks[id].user in s.users
    ensures Inv(AfterRefund(s, id, now))
  {
    assert Booked(s, id) && Shaped(s.tasks[id]);
    var s' := AfterRefund(s, id, now);
    var tx := s'.txs[|s.txs|];
    forall u ensures Balanced(s', u) {
      assert Balanced(s, u);
      LogSnoc(s.txs, tx, u);
      ChargedTotalUpdate(s.tasks, u, id, s'.tasks[id]);
    }
    forall k ensures Booked(s', k) {
      assert Booked(s, k);
      TxOfBoth(s.txs, tx, k);
    }
  }

  // ---------- main results ----------

  lemma StepKeepsInv(s: State, step: Step)
    requires Inv(s) && Enabled(s, step)
    ensures Inv(Apply(s, step))
  {
    match step
    case EnsureUserStep(user) => EnsureUserKeepsInv(s, user);
    case AdjustStep(user, amount) => AdjustKeepsInv(s, user, amount);
    case LimitStep(user, limit) => LimitKeepsInv(s, user, limit);
    case ReserveStep(user, id, cost, now) => ReserveKeepsInv(s, user, id, cost, NewTask(user, cost, now));
    case ChatStep(user, id, cost, now) => ReserveKeepsInv(s, user, id, cost, NewChatTask(user, cost, now));
    case RefundStep(id, now) => RefundOfRunning(s, id, now);
    case _ =>
      var id := Target(step).value;
      RowUpdateKeepsInv(s, id, Apply(s, step).tasks[id]);
  }

  lemma {:induction false} RunKeepsInv(steps: seq<Step>)
    requires RunEnabled(EMPTY, steps)
    ensures Inv(Run(EMPTY, steps))
  {
    if steps == [] {
      EmptyInv();
    } else {
      RunKeepsInv(steps[..|steps| - 1]);
      StepKeepsInv(Run(EMPTY, steps[..|steps| - 1]), steps[|steps| - 1]);
    }
  }

  /**
   Whatever calls were made, in whatever order and however they failed: the start-up self-check
   finds nothing, no balance is negative, and each balance is what administrators put in less what
   the user's tasks cost, where a task costs its price unless it is Failed and refunded.
   */
  lemma LedgerConservation(steps: seq<Step>, user: string)
    requires RunEnabled(EMPTY, steps)
    ensures var s := Run(EMPTY, steps);
      && CheckIntegrity(s) == {}
      && (user in s.users ==>
            && s.users[user].balance == AdjustSum(s.txs, user) - ChargedTotal(s.tasks, user)
            && s.users[user].totalConsumed == ChargedTotal(s.tasks, user)
            && s.users[user].balance >= 0)
  {
    RunKeepsInv(steps);
    var s := Run(EMPTY, steps);
    assert Balanced(s, user);
    forall u | u in s.users ensures u !in CheckIntegrity(s) { assert Balanced(s, u); }
  }

  // What needs no discipline at all: late writes of any kind may scramble task rows, but not the books.

  ghost predicate UserBooked(s: State, u: string) {
    (if u in s.users then s.users[u].balance else 0) == UserSum(s.txs, u) && UserSum(s.txs, u) >= 0
  }

  predicate TaskBooked(s: State, id: string) {
    var consumes := TxOf(s.txs, id, ConsumeTx);
    && (id !in s.tasks ==> consumes == [] && TxOf(s.txs, id, RefundTx) == [])
    && |consumes| <= 1 && |TxOf(s.txs, id, RefundTx)| <= 1 && (consumes != [] ==> consumes[0].amount < 0)
  }

  ghost predicate Books(s: State) {
    (forall u :: UserBooked(s, u)) && (forall id :: TaskBooked(s, id))
  }

  /** One more entry that a balance follows; a charge opens a task's account, a refund answers a charge. */
  lemma EntryKeepsBooks(s: State, s': State, tx: Tx)
    requires Books(s) && s'.txs == s.txs + [tx] && s.tasks.Keys <= s'.tasks.Keys
    requires tx.user in s'.users && s'.users[tx.user].balance == UserSum(s.txs, tx.user) + tx.amount >= 0
    requires forall u :: u != tx.user ==> (u in s.users <==> u in s'.users) && (u in s.users ==> s'.users[u].balance == s.users[u].balance)
    requires tx.kind == ConsumeTx ==> tx.task !in s.tasks && tx.task in s'.tasks && tx.amount < 0
    requires tx.kind == RefundTx ==> tx.task in s'.tasks && TxOf(s.txs, tx.task, RefundTx) == []
    ensures Books(s')
  {
    forall u ensures UserBooked(s', u) {
      assert UserBooked(s, u);
      LogSnoc(s.txs, tx, u);
    }
    forall id ensures TaskBooked(s', id) {
      assert TaskBooked(s, id);
      TxOfBoth(s.txs, tx, id);
    }
  }

  lemma SameLogKeepsBooks(s: State, s': State)
    requires Books(s) && s'.txs == s.txs && s.tasks.Keys <= s'.tasks.Keys
    requires forall u :: (if u in s'.users then s'.users[u].balance else 0) == (if u in s.users then s.users[u].balance else 0)
    ensures Books(s')
  {
    forall u ensures UserBooked(s', u) {
      assert UserBooked(s, u);
    }
    forall id ensures TaskBooked(s', id) {
      assert TaskBooked(s, id);
    }
  }

  lemma ReserveKeepsBooks(s0: State, user: string, id: string, cost: int, draft: Task)
    requires Books(s0) && draft.user == user
    ensures Books(ReserveAndCreateTask(s0, user, cost, id, draft).state)
  {
    var s, out := EnsureUser(s0, user), ReserveAndCreateTask(s0, user, cost, id, draft);
    SameLogKeepsBooks(s0, s);
    if out.error.None? {
      assert UserBooked(s, user);
      EntryKeepsBooks(s, out.state, out.state.txs[|s.txs|]);
    }
  }

  lemma AdjustKeepsBooks(s0: State, user: string, amount: int)
    requires Books(s0)
    ensures Books(Adjust(s0, user, amount).state)
  {
    var s, out := EnsureUser(s0, user), Adjust(s0, user, amount);
    SameLogKeepsBooks(s0, s);
    if out.error.None? {
      assert UserBooked(s, user);
      EntryKeepsBooks(s, out.state, out.state.txs[|s.txs|]);
    }
  }

  lemma RefundKeepsBooks(s: State, id: string, now: int)
    requires Books(s)
    ensures Books(FailTaskAndRefund(s, id, now).state)
  {
    var out := FailTaskAndRefund(s, id, now);
    assert TaskBooked(s, id);
    if out.state.txs == s.txs {
      SameLogKeepsBooks(s, out.state);
    } else {
      var tx := out.state.txs[|s.txs|];
      assert UserBooked(s, tx.user);
      EntryKeepsBooks(s, out.state, tx);
    }
  }

  lemma StepKeepsBooks(s: State, step: Step)
    requires Books(s)
    ensures Books(Apply(s, step))
  {
    match step
    case AdjustStep(user, amount) => AdjustKeepsBooks(s, user, amount);
    case ReserveStep(user, id, cost, now) => ReserveKeepsBooks(s, user, id, cost, NewTask(user, cost, now));
    case ChatStep(user, id, cost, now) => ReserveKeepsBooks(s, user, id, cost, NewChatTask(user, cost, now));
    case RefundStep(id, now) => RefundKeepsBooks(s, id, now);
    case LimitStep(_, _) => SameLogKeepsBooks(s, Apply(s, step));
    case EnsureUserStep(_) => SameLogKeepsBooks(s, Apply(s, step));
    case _ => RowStepKeepsBooks(s, step);
  }

  lemma RowStepKeepsBooks(s: State, step: Step)
    requires Books(s) && Target(step).Some? && !step.RefundStep?
    ensures Books(Apply(s, step))
  {
    assert Apply(s, step).users == s.users && Apply(s, step).txs == s.txs && s.tasks.Keys <= Apply(s, step).tasks.Keys;
    SameLogKeepsBooks(s, Apply(s, step));
  }

  /**
   In every run whatsoever, however writes overtake each other: the start-up self-check finds nothing, no
   balance is negative, and no task is charged or refunded twice.
   */
  lemma {:induction false} BooksAlwaysBalance(steps: seq<Step>)
    ensures Books(Run(EMPTY, steps)) && CheckIntegrity(Run(EMPTY, steps)) == {}
  {
    if steps == [] {
      assert Books(EMPTY);
    } else {
      BooksAlwaysBalance(steps[..|steps| - 1]);
      StepKeepsBooks(Run(EMPTY, steps[..|steps| - 1]), steps[|steps| - 1]);
    }
    var s := Run(EMPTY, steps);
    forall u | u in s.users ensures u !in CheckIntegrity(s) {
      assert UserBooked(s, u);
    }
  }

  /** Per task: charged once, refunded at most once, and the log's net charge is what the status says. */
  lemma NetChargeLaw(steps: seq<Step>, id: string)
    requires RunEnabled(EMPTY, steps)
    ensures var s := Run(EMPTY, steps);
      && |TxOf(s.txs, id, ConsumeTx)| == (if id in s.tasks then 1 else 0)
      && |TxOf(s.txs, id, RefundTx)| == (if id in s.tasks && s.tasks[id].refundStatus == Refunded then 1 else 0)
      && NetCharge(s.txs, id) == (if id in s.tasks then Charge(s.tasks[id]) else 0)
  {
    RunKeepsInv(steps);
    assert Booked(Run(EMPTY, steps), id);
    BookedCharge(Run(EMPTY, steps), id);
  }

  lemma BookedCharge(s: State, id: string)
    requires Booked(s, id) && (id in s.tasks ==> Shaped(s.tasks[id]))
    ensures |TxOf(s.txs, id, ConsumeTx)| == (if id in s.tasks then 1 else 0)
    ensures |TxOf(s.txs, id, RefundTx)| == (if id in s.tasks && s.tasks[id].refundStatus == Refunded then 1 else 0)
    ensures NetCharge(s.txs, id) == (if id in s.tasks then Charge(s.tasks[id]) else 0)
  {
    AmountsOfOne(TxOf(s.txs, id, ConsumeTx));
    AmountsOfOne(TxOf(s.txs, id, RefundTx));
  }

  lemma AmountsOfOne(txs: seq<Tx>)
    ensures |txs| == 1 ==> Amounts(txs) == txs[0].amount
  {
    if |txs| == 1 {
      assert Amounts(txs[..0]) == 0;
    }
  }

  /** Succeeded and Failed are absorbing: no enabled step ever rewrites such a row again. */
  lemma {:induction false} TerminalIsAbsorbing(s: State, steps: seq<Step>, id: string)
    requires RunEnabled(s, steps)
    requires id in s.tasks && Terminal(s.tasks[id])
    ensures id in Run(s, steps).tasks && Run(s, steps).tasks[id] == s.tasks[id]
  {
    if steps != [] {
      TerminalIsAbsorbing(s, steps[..|steps| - 1], id);
      StepFrames(Run(s, steps[..|steps| - 1]), steps[|steps| - 1]);
    }
  }

  /**
   The discipline is needed. `finalizeSucceeded`, and `Chat` on an answer, write the row without looking
   at its status; the charge law survives such a write exactly when the task has not been refunded meanwhile.
   */
  lemma LateSuccessBreaksCharge(steps: seq<Step>, id: string, fileIds: seq<string>, now: int)
    requires RunEnabled(EMPTY, steps)
    requires id in Run(EMPTY, steps).tasks
    ensures var s := Run(EMPTY, steps);
      var s', c := MarkSucceeded(s, id, fileIds, now), FinishChat(s, id, now);
      && (NetCharge(s'.txs, id) == Charge(s'.tasks[id]) <==> s.tasks[id].refundStatus != Refunded)
      && (NetCharge(c.txs, id) == Charge(c.tasks[id]) <==> s.tasks[id].refundStatus != Refunded)
  {
    NetChargeLaw(steps, id);
    RunKeepsInv(steps);
    LateSuccess(Run(EMPTY, steps), id, fileIds, now);
  }

  lemma LateSuccess(s: State, id: string, fileIds: seq<string>, now: int)
    requires id in s.tasks && Shaped(s.tasks[id]) && NetCharge(s.txs, id) == Charge(s.tasks[id])
    ensures var s', c := MarkSucceeded(s, id, fileIds, now), FinishChat(s, id, now);
      && (NetCharge(s'.txs, id) == Charge(s'.tasks[id]) <==> s.tasks[id].refundStatus != Refunded)
      && (NetCharge(c.txs, id) == Charge(c.tasks[id]) <==> s.tasks[id].refundStatus != Refunded)
  {
  }

  /** The sweep of a task that is still being started. */
  lemma Overtaken(steps: seq<Step>, id: string, swept: int)
    requires RunEnabled(EMPTY, steps)
    requires id in Run(EMPTY, steps).tasks && Run(EMPTY, steps).tasks[id].status == Running
    ensures RunEnabled(EMPTY, steps + [RefundStep(id, swept)])
    ensures var s := Run(EMPTY, steps + [RefundStep(id, swept)]);
            id in s.tasks && s.tasks[id].status == Failed && NetCharge(s.txs, id) == 0
  {
    RunKeepsInv(steps);
    RefundOfRunning(Run(EMPTY, steps), id, swept);
    RunSnoc(EMPTY, steps, RefundStep(id, swept));
    NetChargeLaw(steps + [RefundStep(id, swept)], id);
  }

  /**
   An overtaken start that only attaches its upstream id reports success for a task that is Failed,
   paid back, and never polled again, whatever its upstream delivers.
   */
  lemma OvertakenAttachIsLost(steps: seq<Step>, id: string, upstream: string, swept: int, now: int)
    requires RunEnabled(EMPTY, steps)
    requires id in Run(EMPTY, steps).tasks && Run(EMPTY, steps).tasks[id].status == Running
    ensures var refund, attach := RefundStep(id, swept), UpstreamStep(id, upstream, now);
      && RunEnabled(EMPTY, steps + [refund])
      && !Enabled(Run(EMPTY, steps + [refund]), attach)
      && var s := Run(EMPTY, steps + [refund, attach]);
         id in s.tasks && s.tasks[id].status == Failed && s.tasks[id].upstream == upstream && NetCharge(s.txs, id) == 0
  {
    var refund, attach := RefundStep(id, swept), UpstreamStep(id, upstream, now);
    Overtaken(steps, id, swept);
    RunSnoc(EMPTY, steps + [refund], attach);
    assert steps + [refund, attach] == steps + [refund] + [attach];
  }

  /** Once a sweep has overtaken a start, the late success delivers the files for free. */
  lemma OvertakenTaskIsFree(steps: seq<Step>, id: string, fileIds: seq<string>, swept: int, now: int)
    requires RunEnabled(EMPTY, steps)
    requires id in Run(EMPTY, steps).tasks && Run(EMPTY, steps).tasks[id].status == Running
    ensures var refund, success := RefundStep(id, swept), SucceedStep(id, fileIds, now);
      && RunEnabled(EMPTY, steps + [refund])
      && !Enabled(Run(EMPTY, steps + [refund]), success)
      && var s := Run(EMPTY, steps + [refund, success]);
         id in s.tasks && s.tasks[id].status == Succeeded && s.tasks[id].fileIds == fileIds && NetCharge(s.txs, id) == 0
  {
    var refund, success := RefundStep(id, swept), SucceedStep(id, fileIds, now);
    Overtaken(steps, id, swept);
    RunSnoc(EMPTY, steps + [refund], success);
    assert steps + [refund, success] == steps + [refund] + [success];
  }

  /** A shortest run that reaches such a Running task. */
  lemma RunningTaskIsReachable()
    ensures var steps := [AdjustStep("u", 5), ReserveStep("u", "t", 5, 0)];
      && RunEnabled(EMPTY, steps)
      && Run(EMPTY, steps).tasks == map["t" := NewTask("u", 5, 0)]
      && Run(EMPTY, steps).users["u"].balance == 0
  {
    var adjust, reserve := AdjustStep("u", 5), ReserveStep("u", "t", 5, 0);
    RunSnoc(EMPTY, [], adjust);
    RunSnoc(EMPTY, [adjust], reserve);
    assert [] + [adjust] == [adjust] && [adjust] + [reserve] == [adjust, reserve];
    assert Run(EMPTY, []) == EMPTY;
    var s := Run(EMPTY, [adjust]);
    assert s.tasks == map[] && s.users["u"] == Credit(5, 5, 0, 1);
    assert LiveTasksOf(s, "u") == {};
  }

  /** Asking twice refunds once, on any database whatsoever, reachable or not. */
  lemma RefundIsIdempotent(s: State, id: string, first: int, second: int)
    ensures var once := FailTaskAndRefund(s, id, first);
      once.error.None? ==>
        var twice := FailTaskAndRefund(once.state, id, second);
        twice.error.None? && twice.state.users == once.state.users && twice.state.txs == once.state.txs
        && twice.state.tasks[id].refundStatus == once.state.tasks[id].refundStatus
        && twice.state.tasks[id].refundAmount == once.state.tasks[id].refundAmount
        && twice.state.tasks[id].refundedAt == once.state.tasks[id].refundedAt
  {
  }

  /** A run that never touches a user's limit keeps that user's live tasks within it (0 = unlimited). */
  lemma {:induction false} ConcurrencyRespected(s: State, steps: seq<Step>, user: string)
    requires RunEnabled(s, steps) && user in s.users
    requires forall i :: 0 <= i < |steps| ==> !(steps[i].LimitStep? && steps[i].user == user)
    requires s.users[user].concurrentLimit > 0 ==> |LiveTasksOf(s, user)| <= s.users[user].concurrentLimit
    ensures var s' := Run(s, steps);
      && user in s'.users && s'.users[user].concurrentLimit == s.users[user].concurrentLimit
      && (s.users[user].concurrentLimit > 0 ==> |LiveTasksOf(s', user)| <= s.users[user].concurrentLimit)
  {
    if steps != [] {
      var front := steps[..|steps| - 1];
      ConcurrencyRespected(s, front, user);
      ConcurrencyStep(Run(s, front), steps[|steps| - 1], user);
    }
  }

  /** Same limit, and no more live tasks than it allows. */
  predicate Within(s: State, s': State, user: string)
    requires user in s.users
  {
    && user in s'.users && s'.users[user].concurrentLimit == s.users[user].concurrentLimit
    && (s.users[user].concurrentLimit > 0 ==> |LiveTasksOf(s', user)| <= s.users[user].concurrentLimit)
  }

  lemma ConcurrencyStep(s: State, step: Step, user: string)
    requires Enabled(s, step) && user in s.users && !(step.LimitStep? && step.user == user)
    requires s.users[user].concurrentLimit > 0 ==> |LiveTasksOf(s, user)| <= s.users[user].concurrentLimit
    ensures Within(s, Apply(s, step), user)
  {
    if step.ReserveStep? {
      ReserveWithin(s, step.user, step.id, step.cost, NewTask(step.user, step.cost, step.now), user);
    } else if step.ChatStep? {
      ReserveWithin(s, step.user, step.id, step.cost, NewChatTask(step.user, step.cost, step.now), user);
    } else if Target(step).Some? {
      LiveTasksShrink(s, step, user);
      SubsetSize(LiveTasksOf(Apply(s, step), user), LiveTasksOf(s, user));
    } else {
      UserStepWithin(s, step, user);
    }
  }

  lemma ReserveWithin(s: State, u: string, id: string, cost: int, draft: Task, user: string)
    requires user in s.users && Draft(draft, u, cost)
    requires s.users[user].concurrentLimit > 0 ==> |LiveTasksOf(s, user)| <= s.users[user].concurrentLimit
    ensures Within(s, ReserveAndCreateTask(s, u, cost, id, draft).state, user)
  {
    var out := ReserveAndCreateTask(s, u, cost, id, draft);
    assert LiveTasksOf(EnsureUser(s, u), user) == LiveTasksOf(s, user);
    if out.error.None? && u == user {
      assert LiveTasksOf(out.state, user) == LiveTasksOf(s, user) + {id};
    } else {
      assert LiveTasksOf(out.state, user) == LiveTasksOf(s, user);
    }
  }

  lemma UserStepWithin(s: State, step: Step, user: string)
    requires step.EnsureUserStep? || step.AdjustStep? || (step.LimitStep? && step.user != user)
    requires user in s.users
    requires s.users[user].concurrentLimit > 0 ==> |LiveTasksOf(s, user)| <= s.users[user].concurrentLimit
    ensures Within(s, Apply(s, step), user)
  {
    var s' := Apply(s, step);
    assert s'.tasks == s.tasks;
    assert LiveTasksOf(s', user) == LiveTasksOf(s, user);
  }

  lemma LiveTasksShrink(s: State, step: Step, user: string)
    requires Enabled(s, step) && Target(step).Some?
    ensures LiveTasksOf(Apply(s, step), user) <= LiveTasksOf(s, user)
    ensures user in s.users ==>
              && user in Apply(s, step).users
              && Apply(s, step).users[user].concurrentLimit == s.users[user].concurrentLimit
  {
    StepFrames(s, step);
    TargetMoves(s, step, Target(step).value);
    if user in s.users {
      LimitsStay(s, step, user);
    }
  }

  lemma LimitsStay(s: State, step: Step, user: string)
    requires Target(step).Some? && user in s.users
    ensures user in Apply(s, step).users && Apply(s, step).users[user].concurrentLimit == s.users[user].concurrentLimit
  {
  }
}
