/**
 The synchronous chat path (internal/service/provider_proxy.go), the second writer of task rows: reserve,
 try up to three credentials, then record the answer or give the price back. Two of its writes are unchecked.
 */
module ChatLaw {
  import opened Common
  import opened CreditLaw
  import S = StartLaw
  import T = TurnLaw
  import P = Polling
  import L = Ledger

  /** What becomes of one try with a credential: no key, no request, no connection, or an HTTP status. */
  datatype Reply = NoKey | NoRequest | NoConnection | Http(status: int)

  datatype ChatWorld = ChatWorld(
    price: Option<int>,
    adapterFound: bool,
    fixedFound: bool,
    taskId: string,
    now: int,
    reserveFault: bool,
    pick: seq<string> -> Option<string>,
    credentialWriteOk: string -> bool,
    reply: string -> Reply,
    doneWriteOk: bool,
    clock: int,
    refund: P.RefundFault)

  datatype ChatInput = ChatInput(user: string, provider: string, body: string, credential: string)

  datatype ChatResult = Answered(cost: int) | Refusal(reserved: bool)

  // ---------- what decides the outcome ----------

  predicate MayChat(s: L.State, input: ChatInput, w: ChatWorld) {
    && input.user != "" && input.provider != "" && input.body != ""
    && w.price.Some? && w.adapterFound && (input.credential != "" ==> w.fixedFound)
    && !w.reserveFault && w.price.value > 0 && w.taskId != "" && w.taskId !in s.tasks
    && Account(s, input.user).balance >= w.price.value && HasRoom(s, input.user)
  }

  predicate Succeeds(r: Reply) {
    r.Http? && 200 <= r.status <= 299
  }

  /** Another credential may do better. */
  predicate PassedOver(r: Reply) {
    r.NoConnection? || (r.Http? && r.status in {401, 403, 429, 502, 503, 504})
  }

  function Next(w: ChatWorld, fixed: string, tried: seq<string>): Option<string> {
    if fixed != "" then Some(fixed) else w.pick(tried)
  }

  function Attempts(fixed: string): nat {
    if fixed != "" then 1 else 3
  }

  /** Each credential was next after those before it, all of which were passed over. */
  ghost predicate Path(w: ChatWorld, fixed: string, tried: seq<string>)
    decreases tried, 0
  {
    tried == [] ||
    (var front := tried[..|tried| - 1];
     SoFar(w, fixed, front) && |front| < Attempts(fixed) && Next(w, fixed, front) == Some(tried[|tried| - 1]))
  }

  /** A path all of whose credentials were passed over. */
  ghost predicate SoFar(w: ChatWorld, fixed: string, tried: seq<string>)
    decreases tried, 1
  {
    Path(w, fixed, tried) && (tried != [] ==> PassedOver(w.reply(tried[|tried| - 1])))
  }

  /** The search stops at the first credential not passed over, and otherwise only when none is left to try. */
  ghost predicate Searched(w: ChatWorld, fixed: string, tried: seq<string>) {
    && Path(w, fixed, tried)
    && (SoFar(w, fixed, tried) ==> |tried| == Attempts(fixed) || Next(w, fixed, tried).None?)
  }

  lemma PathGrows(w: ChatWorld, fixed: string, tried: seq<string>, credential: string)
    requires SoFar(w, fixed, tried) && |tried| < Attempts(fixed) && Next(w, fixed, tried) == Some(credential)
    ensures Path(w, fixed, tried + [credential])
  {
    assert (tried + [credential])[..|tried|] == tried;
  }

  /** No credential twice, at most three of them, or just the fixed one. */
  ghost predicate Tries(tried: seq<string>, fixed: string) {
    if fixed == "" then Distinct(tried) && |tried| <= 3
    else |tried| <= 1 && forall c :: c in tried ==> c == fixed
  }

  lemma TriesGrow(tried: seq<string>, credential: string, fixed: string)
    requires Tries(tried, fixed)
    requires if fixed == "" then credential !in tried && |tried| < 3 else tried == [] && credential == fixed
    ensures Tries(tried + [credential], fixed)
  {
  }

  /** The credential the row names: the last one tried whose write took. */
  function Recorded(tried: seq<string>, w: ChatWorld): string {
    if tried == [] then ""
    else
      var last := tried[|tried| - 1];
      if w.credentialWriteOk(last) then last else Recorded(tried[..|tried| - 1], w)
  }

  lemma RecordedSnoc(tried: seq<string>, credential: string, w: ChatWorld)
    ensures Recorded(tried + [credential], w) == if w.credentialWriteOk(credential) then credential else Recorded(tried, w)
  {
    assert (tried + [credential])[..|tried|] == tried;
  }

  // ---------- what is left behind ----------

  /** The row as reserved, under this credential: Running, never polled. */
  function Reserved(input: ChatInput, w: ChatWorld, credential: string): L.Task
    requires w.price.Some?
  {
    L.Task(input.user, credential, "", L.Running, 0.0, w.price.value, None, 1, "", L.NoRefund, 0, None, None, w.now, w.now, [])
  }

  /** What a call leaves behind, exit by exit. */
  ghost predicate Settled(s: L.State, s': L.State, input: ChatInput, w: ChatWorld, r: ChatResult, credential: string) {
    match r
    case Refusal(false) =>
      s'.tasks == s.tasks && s'.txs == s.txs && s'.users in {s.users, s.users[input.user := Account(s, input.user)]}
    case Refusal(true) =>
      && w.price.Some?
      && var row, cost := Reserved(input, w, credential), w.price.value;
         var failed := row.(status := L.Failed, completedAt := Some(w.clock), updatedAt := w.clock);
         (match w.refund
          case RefundCommits =>
            S.GivenBack(s, s', input.user, cost, w.taskId,
                        failed.(refundStatus := L.Refunded, refundAmount := cost, refundedAt := Some(w.clock)))
          case OnlyFallback => S.Charged(s, s', input.user, cost, w.taskId, failed.(refundStatus := L.RefundFailed))
          case NothingWritten => S.Charged(s, s', input.user, cost, w.taskId, row))
    case Answered(cost) =>
      && w.price == Some(cost)
      && var row := Reserved(input, w, credential);
         S.Charged(s, s', input.user, cost, w.taskId,
                   if w.doneWriteOk then
                     row.(status := L.Succeeded, completedAt := Some(w.clock), progress := 1.0, updatedAt := w.clock)
                   else row)
  }

  /** No existing row changes, and at most this one is new. */
  ghost predicate OthersKept(s: L.State, s': L.State, id: string) {
    && (forall k :: k in s.tasks ==> k in s'.tasks && s'.tasks[k] == s.tasks[k])
    && (forall k :: k in s'.tasks ==> k in s.tasks || k == id)
  }

  lemma ReserveDecides(s: L.State, input: ChatInput, w: ChatWorld)
    requires w.price.Some? && input.user != ""
    ensures var cost := w.price.value;
            var out := L.ReserveAndCreateTask(s, input.user, cost, w.taskId, L.NewChatTask(input.user, cost, w.now));
      && (out.error.None? <==>
            && cost > 0 && w.taskId != "" && w.taskId !in s.tasks
            && Account(s, input.user).balance >= cost && HasRoom(s, input.user))
      && (out.error.None? ==> S.Charged(s, out.state, input.user, cost, w.taskId, Reserved(input, w, "")))
  {
    ReserveIff(s, input.user, w.price.value, w.taskId, L.NewChatTask(input.user, w.price.value, w.now));
  }

  lemma OpensAccount(s: L.State, s': L.State, input: ChatInput, w: ChatWorld)
    requires s' in {s, L.EnsureUser(s, input.user)}
    ensures Settled(s, s', input, w, Refusal(false), "")
  {
    assert input.user in s.users ==> s.users[input.user := Account(s, input.user)] == s.users;
  }

  /** The task's row under another credential. */
  function Naming(s: L.State, id: string, credential: string): L.State
    requires id in s.tasks
  {
    s.(tasks := s.tasks[id := s.tasks[id].(credential := credential)])
  }

  lemma NamingTwice(s: L.State, id: string, first: string, second: string)
    requires id in s.tasks
    ensures Naming(Naming(s, id, first), id, second) == Naming(s, id, second)
  {
    S.SameKey(s.tasks, id, s.tasks[id].(credential := first), s.tasks[id].(credential := second));
  }

  lemma NamingNothing(s: L.State, id: string)
    requires id in s.tasks && s.tasks[id].credential == ""
    ensures Naming(s, id, "") == s
  {
    assert s.tasks[id := s.tasks[id]] == s.tasks;
  }

  lemma ReservedNamed(s: L.State, reserved: L.State, input: ChatInput, w: ChatWorld, credential: string)
    requires w.price.Some? && S.Charged(s, reserved, input.user, w.price.value, w.taskId, Reserved(input, w, ""))
    ensures S.Charged(s, Naming(reserved, w.taskId, credential), input.user, w.price.value, w.taskId, Reserved(input, w, credential))
  {
    S.SameKey(s.tasks, w.taskId, Reserved(input, w, ""), Reserved(input, w, credential));
  }

  /** The end of an answered request. */
  lemma AnsweredWell(s: L.State, named: L.State, input: ChatInput, w: ChatWorld, credential: string)
    requires w.price.Some? && S.Charged(s, named, input.user, w.price.value, w.taskId, Reserved(input, w, credential))
    ensures var s' := if w.doneWriteOk then L.FinishChat(named, w.taskId, w.clock) else named;
            Settled(s, s', input, w, Answered(w.price.value), credential)
  {
    if w.doneWriteOk {
      S.SameKey(s.tasks, w.taskId, Reserved(input, w, credential), L.FinishChat(named, w.taskId, w.clock).tasks[w.taskId]);
    }
  }

  /** The end of a refused one. */
  lemma RefusedWell(s: L.State, named: L.State, input: ChatInput, w: ChatWorld, credential: string)
    requires w.price.Some? && S.Charged(s, named, input.user, w.price.value, w.taskId, Reserved(input, w, credential))
    requires L.Inv(named)
    ensures Settled(s, P.FailAndRefund(named, w.taskId, w.clock, w.refund), input, w, Refusal(true), credential)
  {
    var s' := P.FailAndRefund(named, w.taskId, w.clock, w.refund);
    T.FailingPaysBack(named, w.taskId, w.clock, w.refund);
    S.SameKey(s.tasks, w.taskId, Reserved(input, w, credential), s'.tasks[w.taskId]);
    if w.refund == P.RefundCommits {
      assert s'.users == s.users[input.user := s.users[input.user]] == s.users;
    }
  }

  lemma OneNewRow(s: L.State, s': L.State, input: ChatInput, w: ChatWorld, r: ChatResult, credential: string)
    requires Settled(s, s', input, w, r, credential)
    ensures OthersKept(s, s', w.taskId)
  {
  }
}

/** The chat path as the code has it. */
module Chat {
  import opened Common
  import opened Credits
  import opened ChatLaw
  import S = StartLaw
  import P = Polling
  import L = Ledger

  const MAX_ATTEMPTS := 3

  class ChatProxy {
    const db: Database

    constructor (db: Database)
      ensures this.db == db
    {
      this.db := db;
    }

    /**
     Whether a request is answered is decided by the world alone: exactly if it may be made and the last
     credential tried gets a 2xx, every one before it having been passed over. An answer leaves the task
     charged, and Succeeded exactly if the unchecked final write took; otherwise it stays Running for the
     sweep. A refusal after the reserve leaves it Failed and paid back as far as the database lets it;
     before the reserve nothing is written.
     */
    method Chat(input: ChatInput, w: ChatWorld) returns (r: ChatResult, ghost tried: seq<string>)
      requires db.Valid()
      requires forall excluded :: w.pick(excluded).Some? ==> w.pick(excluded).value !in excluded
      modifies db
      ensures db.Valid()
      ensures r == Refusal(false) <==> !MayChat(old(db.S()), input, w)
      ensures if r == Refusal(false) then tried == [] else Searched(w, input.credential, tried)
      ensures r.Answered? <==> MayChat(old(db.S()), input, w) && tried != [] && Succeeds(w.reply(tried[|tried| - 1]))
      ensures Settled(old(db.S()), db.S(), input, w, r, Recorded(tried, w))
      ensures OthersKept(old(db.S()), db.S(), w.taskId)
      ensures Tries(tried, input.credential)
    {
      ghost var before := db.S();
      OpensAccount(before, before, input, w);
      if input.user == "" || input.provider == "" || input.body == "" || w.price.None? || !w.adapterFound {
        return Refusal(false), [];
      }
      if input.credential != "" && !w.fixedFound {
        return Refusal(false), [];
      }
      var reserved := Reserve(input, w);
      if !reserved {
        return Refusal(false), [];
      }
      r, tried := FinishChat(input, w, before);
      OneNewRow(before, db.S(), input, w, r, Recorded(tried, w));
    }

    method Reserve(input: ChatInput, w: ChatWorld) returns (ok: bool)
      requires db.Valid() && w.price.Some? && input.user != ""
      modifies db
      ensures db.Valid()
      ensures ok <==> && !w.reserveFault && w.price.value > 0 && w.taskId != "" && w.taskId !in old(db.tasks)
                      && CreditLaw.Account(old(db.S()), input.user).balance >= w.price.value
                      && CreditLaw.HasRoom(old(db.S()), input.user)
      ensures ok ==> S.Charged(old(db.S()), db.S(), input.user, w.price.value, w.taskId, Reserved(input, w, ""))
      ensures !ok ==> Settled(old(db.S()), db.S(), input, w, Refusal(false), "") && OthersKept(old(db.S()), db.S(), w.taskId)
    {
      ghost var before := db.S();
      ReserveDecides(before, input, w);
      var error := db.ReserveAndCreateTask(input.user, w.price.value, w.taskId, true, w.now, w.reserveFault);
      if error.Some? {
        OpensAccount(before, db.S(), input, w);
      }
      return error.None?;
    }

    /** The part of `Chat` after the reserve. */
    method FinishChat(input: ChatInput, w: ChatWorld, ghost before: L.State) returns (r: ChatResult, ghost tried: seq<string>)
      requires db.Valid() && w.price.Some?
      requires S.Charged(before, db.S(), input.user, w.price.value, w.taskId, Reserved(input, w, ""))
      requires forall excluded :: w.pick(excluded).Some? ==> w.pick(excluded).value !in excluded
      modifies db
      ensures db.Valid() && Searched(w, input.credential, tried) && Tries(tried, input.credential)
      ensures r.Answered? <==> tried != [] && Succeeds(w.reply(tried[|tried| - 1]))
      ensures r != Refusal(false) && Settled(before, db.S(), input, w, r, Recorded(tried, w))
    {
      ghost var reserved := db.S();
      NamingNothing(reserved, w.taskId);
      var answered;
      answered, tried := TryCredentials(input.credential, w);
      ghost var named := db.S();
      ReservedNamed(before, reserved, input, w, Recorded(tried, w));
      if answered {
        AnsweredWell(before, named, input, w, Recorded(tried, w));
        Record(w);
        return Answered(w.price.value), tried;
      }
      L.RunKeepsInv(db.trace);
      RefusedWell(before, named, input, w, Recorded(tried, w));
      GiveBack(w);
      return Refusal(true), tried;
    }

    /** The retry loop: each credential is new, and only a retriable failure moves on to the next. */
    method TryCredentials(fixed: string, w: ChatWorld) returns (answered: bool, ghost tried: seq<string>)
      requires db.Valid() && Searching(db.S(), db.S(), [], w)
      requires forall excluded :: w.pick(excluded).Some? ==> w.pick(excluded).value !in excluded
      modifies db
      ensures db.Valid() && db.S() == Naming(old(db.S()), w.taskId, Recorded(tried, w))
      ensures Searched(w, fixed, tried) && Tries(tried, fixed)
      ensures answered <==> tried != [] && Succeeds(w.reply(tried[|tried| - 1]))
    {
      ghost var before := db.S();
      tried := [];
      var excluded := [];
      var maxAttempts := if fixed != "" then 1 else MAX_ATTEMPTS;
      var attempt := 1;
      while attempt <= maxAttempts
        invariant 1 <= attempt <= maxAttempts + 1
        invariant db.Valid() && Searching(before, db.S(), tried, w)
        invariant tried == excluded && |tried| == attempt - 1 && Tries(tried, fixed) && SoFar(w, fixed, tried)
        invariant tried != [] ==> !Succeeds(w.reply(tried[|tried| - 1]))
      {
        var picked := if fixed != "" then Some(fixed) else w.pick(excluded);
        if picked.None? {
          return false, tried;
        }
        var credential := picked.value;
        var ok, retriable := TryNext(credential, w, fixed, before, tried);
        TriesGrow(tried, credential, fixed);
        tried := tried + [credential];
        if ok {
          return true, tried;
        }
        excluded := excluded + [credential];
        if !retriable {
          return false, tried;
        }
        attempt := attempt + 1;
      }
      return false, tried;
    }

    /** One round of the search. */
    method TryNext(credential: string, w: ChatWorld, ghost fixed: string, ghost before: L.State, ghost tried: seq<string>)
      returns (answered: bool, retriable: bool)
      requires db.Valid() && Searching(before, db.S(), tried, w)
      requires SoFar(w, fixed, tried) && |tried| < Attempts(fixed) && Next(w, fixed, tried) == Some(credential)
      modifies db
      ensures db.Valid() && Searching(before, db.S(), tried + [credential], w)
      ensures answered <==> Succeeds(w.reply(credential))
      ensures if retriable then SoFar(w, fixed, tried + [credential]) else Searched(w, fixed, tried + [credential])
      ensures answered ==> !retriable
    {
      NameCredential(credential, w, before, tried);
      PathGrows(w, fixed, tried, credential);
      answered, retriable := TryOnce(credential, w);
    }

    /** `tryChatOnce`: answered, or whether another credential is worth trying. */
    method TryOnce(credential: string, w: ChatWorld) returns (answered: bool, retriable: bool)
      ensures answered <==> Succeeds(w.reply(credential))
      ensures retriable <==> PassedOver(w.reply(credential))
    {
      match w.reply(credential) {
        case NoKey => return false, false;
        case NoRequest => return false, false;
        case NoConnection => return false, true;
        case Http(status) =>
          if status >= 200 && status < 300 {
            return true, false;
          }
          return false, status == 401 || status == 403 || status == 429 || status == 502 || status == 503 || status == 504;
      }
    }

    /** Note the credential on the row; the write's error is dropped. */
    method NameCredential(credential: string, w: ChatWorld, ghost before: L.State, ghost tried: seq<string>)
      requires db.Valid() && Searching(before, db.S(), tried, w)
      modifies db
      ensures db.Valid() && Searching(before, db.S(), tried + [credential], w)
    {
      RecordedSnoc(tried, credential, w);
      NamingTwice(before, w.taskId, Recorded(tried, w), Recorded(tried + [credential], w));
      if w.credentialWriteOk(credential) {
        var row := db.tasks[w.taskId].(credential := credential, updatedAt := w.now);
        db.UpdateTask(w.taskId, row, L.CredentialStep(w.taskId, credential, w.now));
      }
    }

    /** The final write of an answered request, whose error is dropped. */
    method Record(w: ChatWorld)
      requires db.Valid() && w.taskId in db.tasks && Unpolled(db.tasks[w.taskId], w)
      modifies db
      ensures db.Valid() && db.S() == if w.doneWriteOk then L.FinishChat(old(db.S()), w.taskId, w.clock) else old(db.S())
    {
      if w.doneWriteOk {
        var row := db.tasks[w.taskId].(status := L.Succeeded, completedAt := Some(w.clock), progress := 1.0, updatedAt := w.clock);
        db.UpdateTask(w.taskId, row, L.ChatDoneStep(w.taskId, w.clock));
      }
    }

    method GiveBack(w: ChatWorld)
      requires db.Valid() && w.taskId in db.tasks && Unpolled(db.tasks[w.taskId], w)
      modifies db
      ensures db.Valid() && db.S() == P.FailAndRefund(old(db.S()), w.taskId, w.clock, w.refund)
    {
      L.RunKeepsInv(db.trace);
      L.RefundOfRunning(db.S(), w.taskId, w.clock);
      var error := db.FailTaskAndRefund(w.taskId, w.clock, w.refund != P.RefundCommits);
      if error.Some? && w.refund != P.NothingWritten {
        var row := db.tasks[w.taskId].(status := L.Failed, refundStatus := L.RefundFailed, nextPollAt := None,
                                       completedAt := Some(w.clock), updatedAt := w.clock);
        db.UpdateTask(w.taskId, row, L.RefundFailedStep(w.taskId, w.clock));
      }
    }
  }

  /** A chat request not concluded yet. */
  predicate Unpolled(t: L.Task, w: ChatWorld) {
    t.status == L.Running && t.nextPollAt.None? && t.updatedAt == w.now
  }

  /** No answer yet: the tables as reserved, but for the credential the row names. */
  ghost predicate Searching(before: L.State, now: L.State, tried: seq<string>, w: ChatWorld) {
    && w.taskId in before.tasks && Unpolled(before.tasks[w.taskId], w)
    && now == Naming(before, w.taskId, Recorded(tried, w))
  }
}
