/**
 When the transactions of the credit service go through, what they then write, and what the columns of
 an account mean over any run (internal/service/credit.go, internal/model/user_credit.go).
 */
module CreditLaw {
  import opened Common
  import opened Ledger

  /** The account as a transaction finds it; a missing one is opened empty, for one task at a time. */
  function Account(s: State, user: string): Credit {
    if user in s.users then s.users[user] else Credit(0, 0, 0, 1)
  }

  // ---------- single transactions ----------

  /** An adjustment goes through exactly if it is not zero and leaves the balance at zero or above. */
  lemma AdjustIff(s: State, user: string, amount: int)
    ensures var out, c := Adjust(s, user, amount), Account(s, user);
      && (out.error.None? <==> amount != 0 && c.balance + amount >= 0)
      && (out.error.Some? ==>
            && out.error == Some(if amount == 0 then ZeroAmount else InsufficientBalance)
            && out.state == if amount == 0 then s else s.(users := s.users[user := c]))
      && (out.error.None? ==>
            out.state == s.(users := s.users[user := c.(balance := c.balance + amount,
                                                        totalTopup := if amount > 0 then c.totalTopup + amount else c.totalTopup)],
                            txs := s.txs + [Tx(user, amount, AdjustTx, "", c.balance + amount)]))
  {
    assert user in s.users ==> s.users[user := Account(s, user)] == s.users;
  }

  /** A limit is set exactly if it is not negative; 0 stands for no limit. */
  lemma LimitIff(s: State, user: string, limit: int)
    ensures var out, c := SetConcurrentLimit(s, user, limit), Account(s, user);
      if limit < 0 then out == Outcome(s, Some(NegativeLimit))
      else out == Outcome(s.(users := s.users[user := c.(concurrentLimit := limit)]), None)
  {
  }

  /** The user may start one more task. */
  predicate HasRoom(s: State, user: string) {
    var limit := Account(s, user).concurrentLimit;
    limit <= 0 || |set id | id in s.tasks && s.tasks[id].user == user && s.tasks[id].status in {Pending, Running}| < limit
  }

  /**
   A task is reserved exactly if its price is positive, its id new, its user known by name, solvent and
   within the limit. Then the price moves from the balance to what was consumed, with one entry in the
   log, and the row is the draft. Otherwise the error names a guard that failed.
   */
  lemma ReserveIff(s: State, user: string, cost: int, id: string, draft: Task)
    requires draft.user == user
    ensures var out, c := ReserveAndCreateTask(s, user, cost, id, draft), Account(s, user);
      && (out.error.None? <==> cost > 0 && id != "" && id !in s.tasks && user != "" && c.balance >= cost && HasRoom(s, user))
      && (out.error.None? ==>
            out.state == State(s.users[user := c.(balance := c.balance - cost, totalConsumed := c.totalConsumed + cost)],
                               s.txs + [Tx(user, -cost, ConsumeTx, id, c.balance - cost)],
                               s.tasks[id := draft]))
      && (out.error.Some? ==>
            && out.state.tasks == s.tasks && out.state.txs == s.txs
            && match out.error.value
               case CostNotPositive => cost <= 0
               case MissingTaskId => id == ""
               case MissingUserId => user == ""
               case ConcurrentLimit => !HasRoom(s, user)
               case InsufficientBalance => c.balance < cost
               case DuplicateTask => id in s.tasks
               case _ => false)
  {
    assert LiveTasksOf(EnsureUser(s, user), user)
        == set k | k in s.tasks && s.tasks[k].user == user && s.tasks[k].status in {Pending, Running};
    assert user in s.users ==> s.users[user := Account(s, user)] == s.users;
  }

  /** The log still owes this task its price: charged, not given back, nor marked as settled. */
  predicate Owed(s: State, id: string) {
    && id in s.tasks && s.tasks[id].refundStatus !in {Refunded, RefundSkipped}
    && TxOf(s.txs, id, RefundTx) == [] && TxOf(s.txs, id, ConsumeTx) != []
  }

  /**
   The refund transaction goes through exactly if the task exists and, where the log still owes it its
   price, the payer's account does. The row is then Failed with nothing left to poll, and money moves
   exactly where the price was owed: the payer of the first charge gets its amount back.
   */
  lemma RefundIff(s: State, id: string, now: int)
    ensures var out := FailTaskAndRefund(s, id, now);
            var charge := TxOf(s.txs, id, ConsumeTx);
      && (out.error.None? <==> id != "" && id in s.tasks && (Owed(s, id) ==> charge[0].user in s.users))
      && (out.error.Some? ==> out.state == s)
      && (out.error.None? ==>
            && id in out.state.tasks && out.state.tasks == s.tasks[id := out.state.tasks[id]]
            && var row, row' := s.tasks[id], out.state.tasks[id];
               && row' == row.(status := Failed, nextPollAt := None, completedAt := Some(now), updatedAt := now,
                               refundStatus := row'.refundStatus, refundAmount := row'.refundAmount, refundedAt := row'.refundedAt)
               && (if Owed(s, id) then
                     var payer, amount := charge[0].user, -charge[0].amount;
                     && row'.refundStatus == Refunded && row'.refundAmount == amount && row'.refundedAt == Some(now)
                     && out.state.users == s.users[payer := s.users[payer].(balance := s.users[payer].balance + amount,
                                                                             totalConsumed := s.users[payer].totalConsumed - amount)]
                     && out.state.txs == s.txs + [Tx(payer, amount, RefundTx, id, s.users[payer].balance + amount)]
                   else
                     && out.state.users == s.users && out.state.txs == s.txs
                     && row'.refundStatus == (if row.refundStatus in {Refunded, RefundSkipped} then row.refundStatus
                                              else if TxOf(s.txs, id, RefundTx) != [] then Refunded else RefundSkipped)
                     && (row'.refundStatus != Refunded || row.refundStatus == Refunded ==>
                           row'.refundAmount == row.refundAmount && row'.refundedAt == row.refundedAt)
                     && (row'.refundStatus == Refunded && row.refundStatus !in {Refunded, RefundSkipped} ==>
                           && row'.refundAmount
                              == (if row.refundAmount != 0 then row.refundAmount else TxOf(s.txs, id, RefundTx)[0].amount)
                           && row'.refundedAt == (if row.refundedAt.Some? then row.refundedAt else Some(now)))))
  {
  }

  // ---------- what the columns mean ----------

  /** What administrators put in by hand, takings aside. */
  function TopupSum(txs: seq<Tx>, user: string): int {
    if txs == [] then 0
    else
      var last := txs[|txs| - 1];
      TopupSum(txs[..|txs| - 1], user) + if last.user == user && last.kind == AdjustTx && last.amount > 0 then last.amount else 0
  }

  /** A step leaves log and top-up totals as they are, or posts one entry with the balance it led to. */
  ghost predicate Posts(s: State, s': State) {
    || (s'.txs == s.txs && forall u :: Account(s', u).totalTopup == Account(s, u).totalTopup)
    || (|s'.txs| == |s.txs| + 1 && s'.txs[..|s.txs|] == s.txs
        && var tx := s'.txs[|s.txs|];
           && tx.user in s'.users && tx.balanceAfter == s'.users[tx.user].balance
           && forall u :: Account(s', u).totalTopup
                == Account(s, u).totalTopup + if tx.user == u && tx.kind == AdjustTx && tx.amount > 0 then tx.amount else 0)
  }

  lemma StepPosts(s: State, step: Step)
    ensures Posts(s, Apply(s, step))
  {
    match step
    case AdjustStep(user, amount) => AdjustIff(s, user, amount);
    case ReserveStep(user, id, cost, now) => ReservePosts(s, user, cost, id, NewTask(user, cost, now));
    case ChatStep(user, id, cost, now) => ReservePosts(s, user, cost, id, NewChatTask(user, cost, now));
    case RefundStep(id, now) => RefundPosts(s, id, now);
    case LimitStep(user, limit) => LimitIff(s, user, limit);
    case _ => assert Apply(s, step).txs == s.txs;
  }

  lemma ReservePosts(s: State, user: string, cost: int, id: string, draft: Task)
    requires draft.user == user
    ensures Posts(s, ReserveAndCreateTask(s, user, cost, id, draft).state)
  {
    ReserveIff(s, user, cost, id, draft);
  }

  lemma RefundPosts(s: State, id: string, now: int)
    ensures Posts(s, FailTaskAndRefund(s, id, now).state)
  {
    RefundIff(s, id, now);
  }

  /** The log reads like a bank statement, and a top-up total is the sum of the top-ups. */
  ghost predicate Audited(s: State) {
    && (forall i :: 0 <= i < |s.txs| ==> s.txs[i].balanceAfter == UserSum(s.txs[..i + 1], s.txs[i].user))
    && (forall u :: Account(s, u).totalTopup == TopupSum(s.txs, u))
  }

  lemma PostKeepsAudited(s: State, s': State)
    requires Audited(s) && Posts(s, s') && Books(s')
    ensures Audited(s')
  {
    if s'.txs != s.txs {
      var tx := s'.txs[|s.txs|];
      assert UserBooked(s', tx.user);
      assert s'.txs[..|s.txs| + 1] == s'.txs;
      forall i | 0 <= i < |s'.txs| ensures s'.txs[i].balanceAfter == UserSum(s'.txs[..i + 1], s'.txs[i].user) {
        if i < |s.txs| {
          assert s'.txs[..i + 1] == s.txs[..i + 1] && s'.txs[i] == s.txs[i];
        }
      }
    }
  }

  /**
   In every run, however writes overtake each other: each log entry notes the sum of its user's entries up
   to and including it, and each top-up total is the sum of the user's positive adjustments.
   */
  lemma {:induction false} StatementsAdd(steps: seq<Step>)
    ensures Audited(Run(EMPTY, steps))
  {
    if steps != [] {
      StatementsAdd(steps[..|steps| - 1]);
      BooksAlwaysBalance(steps);
      StepPosts(Run(EMPTY, steps[..|steps| - 1]), steps[|steps| - 1]);
      PostKeepsAudited(Run(EMPTY, steps[..|steps| - 1]), Run(EMPTY, steps));
    }
  }
}
