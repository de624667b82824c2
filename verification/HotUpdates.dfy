/**
 Hot-update installation logs and the counters kept beside them (internal/handler/hotupdate.go).
 One log per (update, machine); the counters are adjusted by differences, never recounted.
 */
module HotUpdateLaw {
  import opened Common
  import Versions

  datatype Status = Pending | Downloading | Installing | Success | Failed | Rollback

  datatype Update = Update(app: string, successCount: int, failCount: int)

  datatype Log = Log(device: string, fromVersion: string, toVersion: string, status: Status, error: string,
                     startedAt: int, completedAt: Option<int>)

  /** A log's key: hot update and machine. */
  type Key = (string, string)

  datatype State = State(updates: map<string, Update>, logs: map<Key, Log>)

  const EMPTY := State(map[], map[])

  datatype Report = Report(id: string, app: string, device: string, machine: string, fromVersion: string,
                           toVersion: string, status: string, error: string)

  datatype Answer = Accepted | InvalidStatus | UnknownUpdate | DatabaseFault

  /** Statuses are accepted in any case and with blanks around them. */
  function NormalizeStatus(text: string, lower: string -> string): Option<Status> {
    var name := lower(Versions.Trim(text));
    if name == "pending" then Some(Pending)
    else if name == "downloading" then Some(Downloading)
    else if name == "installing" then Some(Installing)
    else if name == "success" then Some(Success)
    else if name == "failed" then Some(Failed)
    else if name == "rollback" then Some(Rollback)
    else None
  }

  predicate Terminal(status: Status) {
    status == Success || status == Failed || status == Rollback
  }

  predicate MayMove(previous: Option<Status>, next: Status) {
    previous.None? || previous.value == next || previous.value == Failed || !Terminal(previous.value)
  }

  function Flag(holds: bool): int {
    if holds then 1 else 0
  }

  function CounterDelta(previous: Option<Status>, next: Status, counted: Status): int {
    Flag(next == counted) - Flag(previous == Some(counted))
  }

  /** The SQL expression: a decrement stops at zero. */
  function Bump(counter: int, delta: int): int {
    if delta >= 0 then counter + delta else if counter >= -delta then counter + delta else 0
  }

  function ApplyDelta(u: Update, previous: Option<Status>, next: Status): Update {
    u.(successCount := Bump(u.successCount, CounterDelta(previous, next, Success)),
       failCount := Bump(u.failCount, CounterDelta(previous, next, Failed)))
  }

  function NewLog(r: Report, status: Status, now: int): Log {
    Log(r.device, r.fromVersion, r.toVersion, status, r.error, now, if Terminal(status) then Some(now) else None)
  }

  function UpdateLog(l: Log, r: Report, status: Status, now: int): Log {
    l.(status := status,
       device := r.device,
       fromVersion := if r.fromVersion != "" then r.fromVersion else l.fromVersion,
       toVersion := if r.toVersion != "" then r.toVersion else l.toVersion,
       error := if r.error != "" then r.error else if status == Success then "" else l.error,
       completedAt := if Terminal(status) then Some(now) else None)
  }

  function StatusOf(s: State, k: Key): Option<Status> {
    if k in s.logs then Some(s.logs[k].status) else None
  }

  /** The transaction of a report whose update exists and whose status is known. */
  function ApplyReport(s: State, r: Report, status: Status, now: int): State
    requires r.id in s.updates
  {
    var k := (r.id, r.machine);
    var previous := StatusOf(s, k);
    if !MayMove(previous, status) then s
    else
      State(s.updates[r.id := ApplyDelta(s.updates[r.id], previous, status)],
            s.logs[k := if previous.None? then NewLog(r, status, now) else UpdateLog(s.logs[k], r, status, now)])
  }

  function ReportStatus(s: State, r: Report, now: int, lower: string -> string): (State, Answer) {
    var status := NormalizeStatus(r.status, lower);
    if status.None? then (s, InvalidStatus)
    else if r.id !in s.updates || s.updates[r.id].app != r.app then (s, UnknownUpdate)
    else (ApplyReport(s, r, status.value, now), Accepted)
  }

  /** First statement of a delete, committed on its own. */
  function DeleteLogs(s: State, id: string): State {
    s.(logs := map k | k in s.logs && k.0 != id :: s.logs[k])
  }

  function DeleteUpdate(s: State, id: string): State {
    DeleteLogs(s, id).(updates := map u | u in s.updates && u != id :: s.updates[u])
  }

  datatype Step =
    | CreateStep(id: string, app: string)
    | ReportStep(r: Report, now: int)
    | DeleteStep(id: string)
    | HalfDeleteStep(id: string) // the logs went, deleting the update failed

  predicate Enabled(s: State, step: Step) {
    // ids are fresh UUIDs
    step.CreateStep? ==> step.id !in s.updates
  }

  function Apply(s: State, step: Step, lower: string -> string): State {
    match step
    case CreateStep(id, app) => s.(updates := s.updates[id := Update(app, 0, 0)])
    case ReportStep(r, now) => ReportStatus(s, r, now, lower).0
    case DeleteStep(id) => DeleteUpdate(s, id)
    case HalfDeleteStep(id) => DeleteLogs(s, id)
  }

  function Run(s: State, steps: seq<Step>, lower: string -> string): State {
    if steps == [] then s else Apply(Run(s, steps[..|steps| - 1], lower), steps[|steps| - 1], lower)
  }

  predicate RunEnabled(s: State, steps: seq<Step>, lower: string -> string) {
    steps == [] ||
    (RunEnabled(s, steps[..|steps| - 1], lower) && Enabled(Run(s, steps[..|steps| - 1], lower), steps[|steps| - 1]))
  }

  lemma RunSnoc(s: State, steps: seq<Step>, step: Step, lower: string -> string)
    ensures Run(s, steps + [step], lower) == Apply(Run(s, steps, lower), step, lower)
    ensures RunEnabled(s, steps + [step], lower) <==> RunEnabled(s, steps, lower) && Enabled(Run(s, steps, lower), step)
  {
    assert (steps + [step])[..|steps|] == steps;
  }

  // ---------- counters ----------

  function Machines(logs: map<Key, Log>, id: string, status: Status): set<Key> {
    set k | k in logs && k.0 == id && logs[k].status == status
  }

  function Counter(u: Update, status: Status): int
    requires status == Success || status == Failed
  {
    if status == Success then u.successCount else u.failCount
  }

  /** By how much a counter exceeds a count over the logs. */
  function Gap(s: State, id: string, status: Status): int
    requires id in s.updates && (status == Success || status == Failed)
  {
    Counter(s.updates[id], status) - |Machines(s.logs, id, status)|
  }

  predicate CountersExact(s: State, id: string)
    requires id in s.updates
  {
    Gap(s, id, Success) == 0 && Gap(s, id, Failed) == 0
  }

  predicate LogFits(l: Log) {
    l.completedAt.Some? <==> Terminal(l.status)
  }

  /** Counters never fall short of the logs, and `completed_at` marks the terminal ones. */
  predicate Inv(s: State) {
    (forall id :: id in s.updates ==> Gap(s, id, Success) >= 0 && Gap(s, id, Failed) >= 0)
    && (forall k :: k in s.logs ==> k.0 in s.updates && LogFits(s.logs[k]))
  }

  /** Writing one log moves each count by exactly the difference the handler computes. */
  lemma CountMoves(logs: map<Key, Log>, k: Key, l: Log, counted: Status)
    ensures |Machines(logs[k := l], k.0, counted)|
         == |Machines(logs, k.0, counted)|
            + CounterDelta(if k in logs then Some(logs[k].status) else None, l.status, counted)
  {
    var before, after := Machines(logs, k.0, counted), Machines(logs[k := l], k.0, counted);
    assert after - {k} == before - {k};
    Without(after, k);
    Without(before, k);
    assert k in after <==> l.status == counted;
    assert k in before <==> k in logs && logs[k].status == counted;
  }

  lemma Without(keys: set<Key>, k: Key)
    ensures |keys| == |keys - {k}| + Flag(k in keys)
  {
    if k in keys {
      assert keys == (keys - {k}) + {k};
    } else {
      assert keys == keys - {k};
    }
  }

  lemma OthersUntouched(logs: map<Key, Log>, k: Key, l: Log, id: string, counted: Status)
    requires id != k.0
    ensures Machines(logs[k := l], id, counted) == Machines(logs, id, counted)
  {
  }

  /** The floor at zero is dead code: a counter never has to be decremented past what it holds. */
  lemma FloorNeverFires(s: State, id: string, machine: string, status: Status)
    requires Inv(s) && id in s.updates
    ensures var previous := StatusOf(s, (id, machine));
            var u := s.updates[id];
            && Bump(u.successCount, CounterDelta(previous, status, Success)) == u.successCount + CounterDelta(previous, status, Success)
            && Bump(u.failCount, CounterDelta(previous, status, Failed)) == u.failCount + CounterDelta(previous, status, Failed)
  {
    var k := (id, machine);
    if k in s.logs {
      assert s.logs[k].status == Success ==> k in Machines(s.logs, id, Success);
      assert s.logs[k].status == Failed ==> k in Machines(s.logs, id, Failed);
      assert Gap(s, id, Success) >= 0 && Gap(s, id, Failed) >= 0;
    }
  }

  /** A report moves counter and count alike, so no gap changes. */
  lemma ReportKeepsGap(s: State, r: Report, status: Status, now: int, id: string, counted: Status)
    requires Inv(s) && r.id in s.updates && id in s.updates && (counted == Success || counted == Failed)
    ensures Gap(ApplyReport(s, r, status, now), id, counted) == Gap(s, id, counted)
  {
    var k, t := (r.id, r.machine), ApplyReport(s, r, status, now);
    if MayMove(StatusOf(s, k), status) {
      if id == r.id {
        FloorNeverFires(s, r.id, r.machine, status);
        CountMoves(s.logs, k, t.logs[k], counted);
      } else {
        OthersUntouched(s.logs, k, t.logs[k], id, counted);
      }
    }
  }

  lemma ReportKeepsInv(s: State, r: Report, status: Status, now: int)
    requires Inv(s) && r.id in s.updates
    ensures Inv(ApplyReport(s, r, status, now))
  {
    var t := ApplyReport(s, r, status, now);
    forall id | id in t.updates ensures Gap(t, id, Success) >= 0 && Gap(t, id, Failed) >= 0 {
      ReportKeepsGap(s, r, status, now, id, Success);
      ReportKeepsGap(s, r, status, now, id, Failed);
      assert Gap(s, id, Success) >= 0 && Gap(s, id, Failed) >= 0;
    }
    ReportKeepsLogs(s, r, status, now);
  }

  lemma ReportKeepsLogs(s: State, r: Report, status: Status, now: int)
    requires Inv(s) && r.id in s.updates
    ensures var t := ApplyReport(s, r, status, now); forall k :: k in t.logs ==> k.0 in t.updates && LogFits(t.logs[k])
  {
  }

  /** Deleting logs raises their update's gaps by the logs counted, and no other. */
  lemma DeleteLogsGap(s: State, id: string, u: string, counted: Status)
    requires u in s.updates && (counted == Success || counted == Failed)
    ensures Gap(DeleteLogs(s, id), u, counted) == Gap(s, u, counted) + if u == id then |Machines(s.logs, id, counted)| else 0
  {
    var t := DeleteLogs(s, id);
    if u == id {
      assert Machines(t.logs, u, counted) == {};
    } else {
      assert Machines(t.logs, u, counted) == Machines(s.logs, u, counted);
    }
  }

  lemma DeleteLogsKeepsInv(s: State, id: string)
    requires Inv(s)
    ensures Inv(DeleteLogs(s, id))
  {
    forall u | u in s.updates ensures Gap(DeleteLogs(s, id), u, Success) >= 0 && Gap(DeleteLogs(s, id), u, Failed) >= 0 {
      DeleteLogsGap(s, id, u, Success);
      DeleteLogsGap(s, id, u, Failed);
    }
  }

  lemma DeleteGap(s: State, id: string, u: string, counted: Status)
    requires u in s.updates && u != id && (counted == Success || counted == Failed)
    ensures Gap(DeleteUpdate(s, id), u, counted) == Gap(s, u, counted)
  {
    DeleteLogsGap(s, id, u, counted);
    assert DeleteUpdate(s, id).logs == DeleteLogs(s, id).logs;
  }

  lemma DeleteKeepsInv(s: State, id: string)
    requires Inv(s)
    ensures Inv(DeleteUpdate(s, id))
  {
    var t := DeleteUpdate(s, id);
    forall u | u in t.updates ensures Gap(t, u, Success) >= 0 && Gap(t, u, Failed) >= 0 {
      DeleteGap(s, id, u, Success);
      DeleteGap(s, id, u, Failed);
    }
  }

  lemma CreateGap(s: State, id: string, app: string, u: string, counted: Status)
    requires Inv(s) && id !in s.updates && (u == id || u in s.updates) && (counted == Success || counted == Failed)
    ensures Gap(s.(updates := s.updates[id := Update(app, 0, 0)]), u, counted) == if u == id then 0 else Gap(s, u, counted)
  {
    if u == id {
      assert Machines(s.logs, id, counted) == {};
    }
  }

  lemma CreateKeepsInv(s: State, id: string, app: string)
    requires Inv(s) && id !in s.updates
    ensures Inv(s.(updates := s.updates[id := Update(app, 0, 0)]))
  {
    var t := s.(updates := s.updates[id := Update(app, 0, 0)]);
    forall u | u in t.updates ensures Gap(t, u, Success) >= 0 && Gap(t, u, Failed) >= 0 {
      CreateGap(s, id, app, u, Success);
      CreateGap(s, id, app, u, Failed);
    }
  }

  lemma StepKeepsInv(s: State, step: Step, lower: string -> string)
    requires Inv(s) && Enabled(s, step)
    ensures Inv(Apply(s, step, lower))
  {
    match step
    case CreateStep(id, app) => CreateKeepsInv(s, id, app);
    case ReportStep(r, now) =>
      if ReportStatus(s, r, now, lower).1 == Accepted {
        ReportKeepsInv(s, r, NormalizeStatus(r.status, lower).value, now);
      }
    case DeleteStep(id) => DeleteKeepsInv(s, id);
    case HalfDeleteStep(id) => DeleteLogsKeepsInv(s, id);
  }

  /**
   In every reachable state, whatever deletes failed half-way: no counter is below a count over the
   logs, so the floor is never needed, and `completed_at` marks exactly the terminal logs.
   */
  lemma {:induction false} CountersNeverShort(steps: seq<Step>, lower: string -> string)
    requires RunEnabled(EMPTY, steps, lower)
    ensures Inv(Run(EMPTY, steps, lower))
  {
    if steps != [] {
      CountersNeverShort(steps[..|steps| - 1], lower);
      StepKeepsInv(Run(EMPTY, steps[..|steps| - 1], lower), steps[|steps| - 1], lower);
    }
  }

  /** How many logs in a counted status half-failed deletes took from an update since its creation. */
  function LostLogs(steps: seq<Step>, id: string, counted: Status, lower: string -> string): nat {
    if steps == [] then 0
    else
      var front, last := steps[..|steps| - 1], steps[|steps| - 1];
      if last == DeleteStep(id) || (last.CreateStep? && last.id == id) then 0
      else
        LostLogs(front, id, counted, lower)
        + if last == HalfDeleteStep(id) then |Machines(Run(EMPTY, front, lower).logs, id, counted)| else 0
  }

  lemma StepGap(s: State, step: Step, id: string, counted: Status, lower: string -> string)
    requires Inv(s) && Enabled(s, step) && id in Apply(s, step, lower).updates && (counted == Success || counted == Failed)
    ensures (step.CreateStep? && step.id == id) || id in s.updates
    ensures Gap(Apply(s, step, lower), id, counted)
         == if step.CreateStep? && step.id == id then 0
            else Gap(s, id, counted) + if step == HalfDeleteStep(id) then |Machines(s.logs, id, counted)| else 0
  {
    match step
    case CreateStep(u, app) => CreateGap(s, u, app, id, counted);
    case ReportStep(r, now) =>
      if ReportStatus(s, r, now, lower).1 == Accepted {
        ReportKeepsGap(s, r, NormalizeStatus(r.status, lower).value, now, id, counted);
      }
    case DeleteStep(u) => DeleteGap(s, u, id, counted);
    case HalfDeleteStep(u) => DeleteLogsGap(s, u, id, counted);
  }

  /** What a counter shows, in every reachable state: the logs there are, and the logs that were lost. */
  lemma {:induction false} CounterIsLogsPlusLost(steps: seq<Step>, id: string, counted: Status, lower: string -> string)
    requires RunEnabled(EMPTY, steps, lower) && id in Run(EMPTY, steps, lower).updates && (counted == Success || counted == Failed)
    ensures Gap(Run(EMPTY, steps, lower), id, counted) == LostLogs(steps, id, counted, lower)
  {
    if steps != [] {
      var front, last := steps[..|steps| - 1], steps[|steps| - 1];
      CountersNeverShort(front, lower);
      StepGap(Run(EMPTY, front, lower), last, id, counted, lower);
      if !(last.CreateStep? && last.id == id) {
        CounterIsLogsPlusLost(front, id, counted, lower);
      }
    }
  }

  /** Some delete of the update failed half-way while it had a log in a counted status. */
  predicate LosesCountedLog(steps: seq<Step>, id: string, lower: string -> string) {
    if steps == [] then false
    else
      var front, last := steps[..|steps| - 1], steps[|steps| - 1];
      if last == DeleteStep(id) || (last.CreateStep? && last.id == id) then false
      else
        LosesCountedLog(front, id, lower)
        || (last == HalfDeleteStep(id)
            && exists k :: k in Run(EMPTY, front, lower).logs && k.0 == id && Run(EMPTY, front, lower).logs[k].status in {Success, Failed})
  }

  lemma {:induction false} LosesMeansLost(steps: seq<Step>, id: string, lower: string -> string)
    ensures LosesCountedLog(steps, id, lower) <==> LostLogs(steps, id, Success, lower) + LostLogs(steps, id, Failed, lower) > 0
  {
    if steps != [] {
      var front := steps[..|steps| - 1];
      LosesMeansLost(front, id, lower);
      SomeCounted(Run(EMPTY, front, lower).logs, id);
    }
  }

  lemma SomeCounted(logs: map<Key, Log>, id: string)
    ensures (exists k :: k in logs && k.0 == id && logs[k].status in {Success, Failed})
       <==> |Machines(logs, id, Success)| + |Machines(logs, id, Failed)| > 0
  {
    if k :| k in logs && k.0 == id && logs[k].status in {Success, Failed} {
      assert k in Machines(logs, id, logs[k].status);
    }
    if k :| k in Machines(logs, id, Success) {
      assert k in logs && k.0 == id && logs[k].status in {Success, Failed};
    }
    if k :| k in Machines(logs, id, Failed) {
      assert k in logs && k.0 == id && logs[k].status in {Success, Failed};
    }
  }

  /**
   The counters of an update equal a count over its logs if and only if no delete of it failed
   half-way while it had a successful or failed log.
   */
  lemma CountersExactIff(steps: seq<Step>, id: string, lower: string -> string)
    requires RunEnabled(EMPTY, steps, lower) && id in Run(EMPTY, steps, lower).updates
    ensures CountersExact(Run(EMPTY, steps, lower), id) <==> !LosesCountedLog(steps, id, lower)
  {
    CounterIsLogsPlusLost(steps, id, Success, lower);
    CounterIsLogsPlusLost(steps, id, Failed, lower);
    LosesMeansLost(steps, id, lower);
  }

  lemma FirstSuccess(r: Report, now: int)
    ensures var t := ApplyReport(State(map[r.id := Update(r.app, 0, 0)], map[]), r, Success, now);
            t == State(map[r.id := Update(r.app, 1, 0)], map[(r.id, r.machine) := NewLog(r, Success, now)])
  {
  }

  /** The shortest run to a wrong counter: create, report a success, and a delete that fails half-way. */
  lemma HalfDeleteLeavesCounter(r: Report, lower: string -> string)
    requires r.status == "success" && lower("success") == "success"
    ensures var steps := [CreateStep(r.id, r.app), ReportStep(r, 1), HalfDeleteStep(r.id)];
            && RunEnabled(EMPTY, steps, lower)
            && Run(EMPTY, steps, lower) == State(map[r.id := Update(r.app, 1, 0)], map[])
  {
    SuccessIsSuccess(lower);
    HalfDeleteRun(r, lower);
  }

  lemma HalfDeleteRun(r: Report, lower: string -> string)
    requires NormalizeStatus(r.status, lower) == Some(Success)
    ensures var steps := [CreateStep(r.id, r.app), ReportStep(r, 1), HalfDeleteStep(r.id)];
            && RunEnabled(EMPTY, steps, lower)
            && Run(EMPTY, steps, lower) == State(map[r.id := Update(r.app, 1, 0)], map[])
  {
    var a, b, c := CreateStep(r.id, r.app), ReportStep(r, 1), HalfDeleteStep(r.id);
    assert [a, b, c] == [a, b] + [c];
    RunSnoc(EMPTY, [a, b], c, lower);
    OneSuccess(r, lower);
    LogsGone(r);
  }

  lemma OneSuccess(r: Report, lower: string -> string)
    requires NormalizeStatus(r.status, lower) == Some(Success)
    ensures var steps := [CreateStep(r.id, r.app), ReportStep(r, 1)];
            && RunEnabled(EMPTY, steps, lower)
            && Run(EMPTY, steps, lower) == State(map[r.id := Update(r.app, 1, 0)], map[(r.id, r.machine) := NewLog(r, Success, 1)])
  {
    var a, b := CreateStep(r.id, r.app), ReportStep(r, 1);
    assert [a, b] == [a] + [b] && [a] == [] + [a];
    RunSnoc(EMPTY, [], a, lower);
    RunSnoc(EMPTY, [a], b, lower);
    assert Run(EMPTY, [a], lower) == State(map[r.id := Update(r.app, 0, 0)], map[]);
    FirstSuccess(r, 1);
  }

  lemma LogsGone(r: Report)
    ensures var s := State(map[r.id := Update(r.app, 1, 0)], map[(r.id, r.machine) := NewLog(r, Success, 1)]);
            DeleteLogs(s, r.id) == State(s.updates, map[])
  {
  }

  lemma SuccessIsSuccess(lower: string -> string)
    requires lower("success") == "success"
    ensures NormalizeStatus("success", lower) == Some(Success)
  {
    Versions.TrimPlain("success");
  }

  // ---------- what a log ends up saying ----------

  /** The valid reports one machine made about one update since its creation or its last half-failed delete. */
  function Reports(steps: seq<Step>, k: Key, lower: string -> string): seq<Status> {
    if steps == [] then []
    else
      var front, last := steps[..|steps| - 1], steps[|steps| - 1];
      match last
      case CreateStep(_, _) => Reports(front, k, lower)
      case DeleteStep(id) => if id == k.0 then [] else Reports(front, k, lower)
      case HalfDeleteStep(id) => if id == k.0 then [] else Reports(front, k, lower)
      case ReportStep(r, now) =>
        if (r.id, r.machine) == k && ReportStatus(Run(EMPTY, front, lower), r, now, lower).1 == Accepted then
          Reports(front, k, lower) + [NormalizeStatus(r.status, lower).value]
        else Reports(front, k, lower)
  }

  predicate Final(status: Status) {
    status == Success || status == Rollback
  }

  /** The first final report decides; without one, the latest report does. */
  ghost predicate Decides(reports: seq<Status>, verdict: Option<Status>) {
    && (verdict.None? <==> reports == [])
    && (verdict.Some? && Final(verdict.value) ==>
          exists i :: 0 <= i < |reports| && reports[i] == verdict.value && forall j :: 0 <= j < i ==> !Final(reports[j]))
    && (verdict.Some? && !Final(verdict.value) ==>
          reports != [] && reports[|reports| - 1] == verdict.value && forall j :: 0 <= j < |reports| ==> !Final(reports[j]))
  }

  lemma DecidesNext(reports: seq<Status>, verdict: Option<Status>, next: Status)
    requires Decides(reports, verdict)
    ensures Decides(reports + [next], if MayMove(verdict, next) then Some(next) else verdict)
  {
    var more := reports + [next];
    if verdict.Some? && Final(verdict.value) {
      var i :| 0 <= i < |reports| && reports[i] == verdict.value && forall j :: 0 <= j < i ==> !Final(reports[j]);
      assert more[i] == verdict.value && forall j :: 0 <= j < i ==> !Final(more[j]);
    } else {
      assert forall j :: 0 <= j < |reports| ==> !Final(more[j]);
      assert more[|reports|] == next;
    }
  }

  /**
   Over every run a machine's log says what its first success or rollback report said, or, without
   one, its latest report: success and rollback absorb, failed can be retried, late news is ignored.
   */
  lemma {:induction false} LogTellsFirstFinalReport(steps: seq<Step>, k: Key, lower: string -> string)
    requires RunEnabled(EMPTY, steps, lower)
    ensures Decides(Reports(steps, k, lower), StatusOf(Run(EMPTY, steps, lower), k))
  {
    if steps != [] {
      var front, last := steps[..|steps| - 1], steps[|steps| - 1];
      LogTellsFirstFinalReport(front, k, lower);
      var s := Run(EMPTY, front, lower);
      if last.ReportStep? && (last.r.id, last.r.machine) == k && ReportStatus(s, last.r, last.now, lower).1 == Accepted {
        DecidesNext(Reports(front, k, lower), StatusOf(s, k), NormalizeStatus(last.r.status, lower).value);
      }
    }
  }

  /**
   So the success counter is the number of machines whose first final report was a success, plus the
   successes lost to half-failed deletes.
   */
  lemma SuccessCountMeaning(steps: seq<Step>, id: string, lower: string -> string)
    requires RunEnabled(EMPTY, steps, lower) && id in Run(EMPTY, steps, lower).updates
    ensures var s := Run(EMPTY, steps, lower);
            s.updates[id].successCount == |Machines(s.logs, id, Success)| + LostLogs(steps, id, Success, lower)
            && forall machine :: (id, machine) in Machines(s.logs, id, Success) <==> FirstFinalIsSuccess(Reports(steps, (id, machine), lower))
  {
    var s := Run(EMPTY, steps, lower);
    CounterIsLogsPlusLost(steps, id, Success, lower);
    forall machine
      ensures (id, machine) in Machines(s.logs, id, Success) <==> FirstFinalIsSuccess(Reports(steps, (id, machine), lower))
    {
      var k := (id, machine);
      LogTellsFirstFinalReport(steps, k, lower);
      DecidedSuccess(Reports(steps, k, lower), StatusOf(s, k));
    }
  }

  ghost predicate FirstFinalIsSuccess(reports: seq<Status>) {
    exists i :: 0 <= i < |reports| && reports[i] == Success && forall j :: 0 <= j < i ==> !Final(reports[j])
  }

  lemma DecidedSuccess(reports: seq<Status>, verdict: Option<Status>)
    requires Decides(reports, verdict)
    ensures verdict == Some(Success) <==> FirstFinalIsSuccess(reports)
  {
    if i :| 0 <= i < |reports| && reports[i] == Success && forall j :: 0 <= j < i ==> !Final(reports[j]) {
      assert Final(reports[i]);
    }
  }

  /** Once a log is a success or a rollback, only a delete of the update, finished or not, changes its status. */
  lemma {:induction false} FinalStatusAbsorbs(s: State, steps: seq<Step>, k: Key, lower: string -> string)
    requires k in s.logs && Final(s.logs[k].status)
    requires forall i :: 0 <= i < |steps| ==> steps[i] != DeleteStep(k.0) && steps[i] != HalfDeleteStep(k.0)
    ensures StatusOf(Run(s, steps, lower), k) == Some(s.logs[k].status)
  {
    if steps != [] {
      FinalStatusAbsorbs(s, steps[..|steps| - 1], k, lower);
      assert steps[|steps| - 1] != DeleteStep(k.0) && steps[|steps| - 1] != HalfDeleteStep(k.0);
    }
  }
}

/**
 The handlers as methods on the tables. The `fault` of a report is a database error inside its
 transaction, which rolls it back; a delete has no transaction and may fail at either statement.
 */
module HotUpdates {
  import opened Common
  import L = HotUpdateLaw

  class Desk {
    const lower: string -> string
    var updates: map<string, L.Update>
    var logs: map<L.Key, L.Log>
    ghost var trace: seq<L.Step>

    constructor (lower: string -> string)
      ensures Valid() && S() == L.EMPTY && this.lower == lower
    {
      this.lower := lower;
      updates, logs, trace := map[], map[], [];
    }

    ghost function S(): L.State
      reads this
    {
      L.State(updates, logs)
    }

    ghost predicate Valid()
      reads this
    {
      L.RunEnabled(L.EMPTY, trace, lower) && S() == L.Run(L.EMPTY, trace, lower)
    }

    ghost method Record(step: L.Step, before: L.State)
      requires L.RunEnabled(L.EMPTY, trace, lower) && before == L.Run(L.EMPTY, trace, lower)
      requires L.Enabled(before, step) && S() == L.Apply(before, step, lower)
      modifies `trace
      ensures Valid() && trace == old(trace) + [step]
    {
      L.RunSnoc(L.EMPTY, trace, step, lower);
      trace := trace + [step];
    }

    method Create(id: string, app: string)
      requires Valid() && id !in updates
      modifies this
      ensures Valid() && trace == old(trace) + [L.CreateStep(id, app)]
      ensures updates == old(updates)[id := L.Update(app, 0, 0)] && logs == old(logs)
    {
      ghost var before := S();
      updates := updates[id := L.Update(app, 0, 0)];
      Record(L.CreateStep(id, app), before);
    }

    /** Adjust the counters of one update; a zero difference writes nothing. */
    method ApplyCounterDelta(id: string, previous: Option<L.Status>, next: L.Status)
      requires id in updates
      modifies `updates
      ensures updates == old(updates)[id := L.ApplyDelta(old(updates)[id], previous, next)]
    {
      var success, fail := 0, 0;
      if previous != Some(next) {
        match previous {
          case Some(Success) => success := success - 1;
          case Some(Failed) => fail := fail - 1;
          case _ =>
        }
        match next {
          case Success => success := success + 1;
          case Failed => fail := fail + 1;
          case _ =>
        }
      }
      if success == 0 && fail == 0 {
        assert updates == updates[id := L.ApplyDelta(updates[id], previous, next)];
        return;
      }
      var row := updates[id];
      if success != 0 {
        row := row.(successCount := L.Bump(row.successCount, success));
      }
      if fail != 0 {
        row := row.(failCount := L.Bump(row.failCount, fail));
      }
      updates := updates[id := row];
    }

    method ReportUpdateStatus(r: L.Report, now: int, fault: bool) returns (answer: L.Answer)
      requires Valid()
      modifies this
      ensures Valid()
      ensures !fault ==> (S(), answer) == L.ReportStatus(old(S()), r, now, lower)
      ensures fault ==> S() == old(S())
      ensures fault ==> var usual := L.ReportStatus(old(S()), r, now, lower).1;
                        answer == if usual == L.Accepted then L.DatabaseFault else usual
    {
      var status := L.NormalizeStatus(r.status, lower);
      if status.None? {
        return L.InvalidStatus;
      }
      if r.id !in updates || updates[r.id].app != r.app {
        return L.UnknownUpdate;
      }
      if fault {
        return L.DatabaseFault;
      }
      ghost var before := S();
      var next, k := status.value, (r.id, r.machine);
      var previous: Option<L.Status> := None;
      if k !in logs {
        logs := logs[k := L.NewLog(r, next, now)];
      } else {
        previous := Some(logs[k].status);
        if !L.MayMove(previous, next) {
          return L.Accepted;
        }
        logs := logs[k := L.UpdateLog(logs[k], r, next, now)];
      }
      ApplyCounterDelta(r.id, previous, next);
      Record(L.ReportStep(r, now), before);
      return L.Accepted;
    }

    method Delete(id: string, fault: DeleteFault) returns (answer: DeleteAnswer)
      requires Valid()
      modifies this
      ensures Valid()
      ensures answer == (if id !in old(updates) then NotFound else if fault == NoFault then Deleted else ServerError)
      ensures S() == if id !in old(updates) || fault == LogsFault then old(S())
                     else if fault == UpdateFault then L.DeleteLogs(old(S()), id)
                     else L.DeleteUpdate(old(S()), id)
    {
      if id !in updates {
        return NotFound;
      }
      if fault == LogsFault {
        return ServerError;
      }
      ghost var before := S();
      logs := map k | k in logs && k.0 != id :: logs[k];
      if fault == UpdateFault {
        Record(L.HalfDeleteStep(id), before);
        return ServerError;
      }
      updates := map u | u in updates && u != id :: updates[u];
      Record(L.DeleteStep(id), before);
      return Deleted;
    }
  }

  /** Which statement of a delete the database refuses. */
  datatype DeleteFault = NoFault | LogsFault | UpdateFault

  datatype DeleteAnswer = Deleted | NotFound | ServerError
}
