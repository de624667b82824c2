/**
 The tables as the services see them. Each method is one database transaction or one row update;
 `trace` records the steps taken, so every fact about runs in `Ledger` holds of a `Valid()` object.
 `fault` is a database error inside the transaction, which rolls it back.
 */
module Credits {
  import opened Common
  import L = Ledger

  class Database {
    var users: map<string, L.Credit>
    var txs: seq<L.Tx>
    var tasks: map<string, L.Task>
    ghost var trace: seq<L.Step>

    constructor ()
      ensures Valid() && S() == L.EMPTY
    {
      users, txs, tasks, trace := map[], [], map[], [];
    }

    ghost function S(): L.State
      reads this
    {
      L.State(users, txs, tasks)
    }

    ghost predicate Valid()
      reads this
    {
      L.RunEnabled(L.EMPTY, trace) && S() == L.Run(L.EMPTY, trace)
    }

    /** A new trace entry keeps the object valid; the log stays consistent whatever the entry. */
    ghost method Record(step: L.Step, before: L.State)
      requires L.RunEnabled(L.EMPTY, trace) && before == L.Run(L.EMPTY, trace)
      requires L.Enabled(before, step) && S() == L.Apply(before, step)
      modifies `trace
      ensures Valid() && trace == old(trace) + [step]
    {
      L.RunSnoc(L.EMPTY, trace, step);
      trace := trace + [step];
    }

    method EnsureUser(user: string)
      requires Valid()
      modifies this
      ensures Valid() && S() == L.EnsureUser(old(S()), user)
      ensures user in users && tasks == old(tasks) && txs == old(txs)
    {
      ghost var before := S();
      if user !in users {
        users := users[user := L.Credit(0, 0, 0, 1)];
      }
      Record(L.EnsureUserStep(user), before);
    }

    method Adjust(user: string, amount: int, fault: bool) returns (error: Option<L.Error>)
      requires Valid()
      modifies this
      ensures Valid()
      ensures !fault ==> L.Outcome(S(), error) == L.Adjust(old(S()), user, amount)
      ensures fault ==> error.Some? && S() == if amount == 0 then old(S()) else L.EnsureUser(old(S()), user)
    {
      ghost var first := S();
      if amount == 0 {
        Record(L.AdjustStep(user, 0), first);
        return Some(L.ZeroAmount);
      }
      EnsureUser(user);
      if fault {
        return Some(L.DatabaseFault);
      }
      ghost var before := S();
      error := AdjustRow(user, amount);
      Record(L.AdjustStep(user, amount), before);
    }

    method AdjustRow(user: string, amount: int) returns (error: Option<L.Error>)
      requires user in users && amount != 0
      modifies `users, `txs
      ensures L.Outcome(S(), error) == L.Adjust(old(S()), user, amount)
    {
      var row := users[user];
      var balance := row.balance + amount;
      if balance < 0 {
        return Some(L.InsufficientBalance);
      }
      row := row.(balance := balance);
      if amount > 0 {
        row := row.(totalTopup := row.totalTopup + amount);
      }
      users := users[user := row];
      txs := txs + [L.Tx(user, amount, L.AdjustTx, "", balance)];
      return None;
    }

    /** Reserve for a task drafted by `StartTask`, or by `Chat`: the draft is the fresh Running row. */
    method ReserveAndCreateTask(user: string, cost: int, id: string, chat: bool, now: int, fault: bool) returns (error: Option<L.Error>)
      requires Valid()
      modifies this
      ensures Valid()
      ensures !fault ==>
                L.Outcome(S(), error) == L.ReserveAndCreateTask(old(S()), user, cost, id, Drafted(user, cost, chat, now))
      ensures error.Some? ==> tasks == old(tasks) && txs == old(txs) && S() in {old(S()), L.EnsureUser(old(S()), user)}
      ensures fault ==> error.Some?
    {
      if cost <= 0 {
        return Some(L.CostNotPositive);
      }
      if id == "" {
        return Some(L.MissingTaskId);
      }
      if user == "" {
        return Some(L.MissingUserId);
      }
      EnsureUser(user);
      if fault {
        return Some(L.DatabaseFault);
      }
      ghost var before := S();
      error := ReserveRow(user, cost, id, Drafted(user, cost, chat, now));
      if error.None? {
        Record(if chat then L.ChatStep(user, id, cost, now) else L.ReserveStep(user, id, cost, now), before);
      }
    }

    method ReserveRow(user: string, cost: int, id: string, draft: L.Task) returns (error: Option<L.Error>)
      requires user in users && cost > 0 && id != "" && user != "" && draft.user == user
      modifies `users, `txs, `tasks
      ensures L.Outcome(S(), error) == L.ReserveAndCreateTask(old(S()), user, cost, id, draft)
      ensures error.Some? ==> S() == old(S())
    {
      assert L.EnsureUser(S(), user) == S();
      var row := users[user];
      if row.concurrentLimit > 0 {
        var running := |set k | k in tasks && tasks[k].user == user && L.Live(tasks[k])|;
        if running >= row.concurrentLimit {
          return Some(L.ConcurrentLimit);
        }
      }
      if row.balance < cost {
        return Some(L.InsufficientBalance);
      }
      if id in tasks {
        return Some(L.DuplicateTask);
      }
      var balance := row.balance - cost;
      users := users[user := row.(balance := balance, totalConsumed := row.totalConsumed + cost)];
      txs := txs + [L.Tx(user, -cost, L.ConsumeTx, id, balance)];
      tasks := tasks[id := draft];
      return None;
    }

    /**
     Refund and fail in one transaction, on any tables. Called on a Running task of a valid
     database it cannot be refused and leaves a valid database.
     */
    method FailTaskAndRefund(id: string, now: int, fault: bool) returns (error: Option<L.Error>)
      modifies this
      ensures fault ==> error.Some? && S() == old(S()) && trace == old(trace)
      ensures !fault ==> L.Outcome(S(), error) == L.FailTaskAndRefund(old(S()), id, now)
      ensures old(Valid()) && old(L.Enabled(S(), L.RefundStep(id, now))) ==> Valid() && (fault || error.None?)
    {
      if fault {
        return Some(L.DatabaseFault);
      }
      ghost var before := S();
      ghost var expected := Valid() && L.Enabled(before, L.RefundStep(id, now));
      if expected {
        L.RunKeepsInv(trace);
        L.RefundOfRunning(before, id, now);
      }
      error := RefundRow(id, now);
      if expected {
        Record(L.RefundStep(id, now), before);
      }
    }

    method RefundRow(id: string, now: int) returns (error: Option<L.Error>)
      modifies `users, `txs, `tasks
      ensures L.Outcome(S(), error) == L.FailTaskAndRefund(old(S()), id, now)
    {
      if id == "" {
        return Some(L.MissingTaskId);
      }
      if id !in tasks {
        return Some(L.TaskNotFound);
      }
      var t := tasks[id];
      var refund, amount, at := t.refundStatus, t.refundAmount, t.refundedAt;
      if refund != L.Refunded && refund != L.RefundSkipped {
        var refunds := L.TxOf(txs, id, L.RefundTx);
        if refunds != [] {
          refund := L.Refunded;
          if at.None? {
            at := Some(now);
          }
          if amount == 0 {
            amount := refunds[0].amount;
          }
        } else {
          var consumes := L.TxOf(txs, id, L.ConsumeTx);
          if consumes == [] {
            refund := L.RefundSkipped;
          } else {
            var back, payer := -consumes[0].amount, consumes[0].user;
            if payer !in users {
              return Some(L.CreditRowMissing);
            }
            var row := users[payer];
            row := row.(balance := row.balance + back, totalConsumed := row.totalConsumed - back);
            users := users[payer := row];
            txs := txs + [L.Tx(payer, back, L.RefundTx, id, row.balance)];
            refund, amount, at := L.Refunded, back, Some(now);
          }
        }
      }
      tasks := tasks[id := L.FailedRow(t, refund, amount, at, now)];
      return None;
    }

    /** Any of the unconditional `UPDATE generation_tasks ... WHERE id = ?` statements of the runner. */
    method UpdateTask(id: string, row: L.Task, ghost step: L.Step)
      requires Valid()
      requires L.Enabled(S(), step) && L.Target(step) == Some(id)
      requires L.Apply(S(), step) == L.State(users, txs, tasks[id := row])
      modifies this
      ensures Valid() && S() == L.Apply(old(S()), step)
    {
      ghost var before := S();
      tasks := tasks[id := row];
      Record(step, before);
    }
  }

  function Drafted(user: string, cost: int, chat: bool, now: int): L.Task {
    if chat then L.NewChatTask(user, cost, now) else L.NewTask(user, cost, now)
  }
}
