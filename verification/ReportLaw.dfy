/**
 What a status report does, told from the text a client sends (internal/handler/hotupdate.go).
 */
module ReportLaw {
  import opened Common
  import opened HotUpdateLaw
  import opened TextLaw
  import Versions

  /** The name a client has to send for a status. */
  function NameOf(status: Status): string {
    match status
    case Pending => "pending"
    case Downloading => "downloading"
    case Installing => "installing"
    case Success => "success"
    case Failed => "failed"
    case Rollback => "rollback"
  }

  /** The text is this name between blanks, in any case that folds to it. */
  ghost predicate Says(text: string, name: string, lower: string -> string) {
    exists left, core, right :: text == left + core + right && Blank(left) && Blank(right) && Tight(core) && lower(core) == name
  }

  lemma SaysMeans(text: string, name: string, lower: string -> string)
    ensures Says(text, name, lower) <==> lower(Versions.Trim(text)) == name
  {
    if Says(text, name, lower) {
      var left, core, right :| text == left + core + right && Blank(left) && Blank(right) && Tight(core) && lower(core) == name;
      TrimIs(left, core, right);
    }
    var left, right := TrimSplits(text);
  }

  /** A text is read as the status it names, and as none if it names none. */
  lemma ReadsName(text: string, status: Status, lower: string -> string)
    ensures NormalizeStatus(text, lower) == Some(status) <==> Says(text, NameOf(status), lower)
  {
    SaysMeans(text, NameOf(status), lower);
  }

  /** The update exists and belongs to the app that reports. */
  predicate Known(s: State, r: Report) {
    r.id in s.updates && s.updates[r.id].app == r.app
  }

  /** Which reports are accepted; the others change nothing. */
  lemma ReportIsAcceptedIff(s: State, r: Report, now: int, lower: string -> string)
    ensures var (s', answer) := ReportStatus(s, r, now, lower);
            var named := exists status :: Says(r.status, NameOf(status), lower);
      && answer == (if !named then InvalidStatus else if !Known(s, r) then UnknownUpdate else Accepted)
      && (answer != Accepted ==> s' == s)
  {
    forall status ensures NormalizeStatus(r.status, lower) == Some(status) <==> Says(r.status, NameOf(status), lower) {
      ReadsName(r.status, status, lower);
    }
    if NormalizeStatus(r.status, lower).Some? {
      assert Says(r.status, NameOf(NormalizeStatus(r.status, lower).value), lower);
    }
  }

  /**
   A machine's first report opens its log in the status it names, with the report's own words; it counts
   at once if it is a success or a failure, and it closes the log if it is one of those or a rollback.
   */
  lemma FirstReport(s: State, r: Report, status: Status, now: int, lower: string -> string)
    requires Known(s, r) && Says(r.status, NameOf(status), lower) && (r.id, r.machine) !in s.logs
    ensures var t, u, k := ReportStatus(s, r, now, lower).0, s.updates[r.id], (r.id, r.machine);
      && t.logs == s.logs[k := Log(r.device, r.fromVersion, r.toVersion, status, r.error, now,
                                   if status in {Success, Failed, Rollback} then Some(now) else None)]
      && t.updates == s.updates[r.id := Update(u.app, u.successCount + (if status == Success then 1 else 0),
                                               u.failCount + (if status == Failed then 1 else 0))]
  {
    ReadsName(r.status, status, lower);
  }

  /** A log that counts is counted. */
  predicate Counted(u: Update, status: Status) {
    (status == Success ==> u.successCount >= 1) && (status == Failed ==> u.failCount >= 1)
  }

  lemma LogsAreCounted(s: State, k: Key)
    requires Inv(s) && k in s.logs
    ensures k.0 in s.updates && Counted(s.updates[k.0], s.logs[k].status)
  {
    assert Gap(s, k.0, Success) >= 0 && Gap(s, k.0, Failed) >= 0;
    if s.logs[k].status == Success {
      assert k in Machines(s.logs, k.0, Success);
    } else if s.logs[k].status == Failed {
      assert k in Machines(s.logs, k.0, Failed);
    }
  }

  /**
   A later report moves the log to the status it names, unless the log says success or rollback already
   and the report something else; then it changes nothing. The counters follow the log: one less for the
   status left, one more for the one taken. Versions and error text stay where the report leaves them
   empty, but a success clears the error.
   */
  lemma LaterReport(s: State, r: Report, status: Status, now: int, lower: string -> string)
    requires Known(s, r) && Says(r.status, NameOf(status), lower)
    requires (r.id, r.machine) in s.logs && Counted(s.updates[r.id], s.logs[(r.id, r.machine)].status)
    ensures var t, u, k := ReportStatus(s, r, now, lower).0, s.updates[r.id], (r.id, r.machine);
            var row := s.logs[k];
      if row.status in {Success, Rollback} && status != row.status then t == s
      else
        && t.logs == s.logs[k := Log(r.device, if r.fromVersion != "" then r.fromVersion else row.fromVersion,
                                     if r.toVersion != "" then r.toVersion else row.toVersion, status,
                                     if r.error != "" then r.error else if status == Success then "" else row.error, row.startedAt,
                                     if status in {Success, Failed, Rollback} then Some(now) else None)]
        && t.updates == s.updates[r.id := Update(
                u.app,
                u.successCount + (if status == Success then 1 else 0) - (if row.status == Success then 1 else 0),
                u.failCount + (if status == Failed then 1 else 0) - (if row.status == Failed then 1 else 0))]
  {
    var k := (r.id, r.machine);
    ReadsName(r.status, status, lower);
    DeltaMoves(s.updates[r.id], s.logs[k].status, status);
    assert ReportStatus(s, r, now, lower).0 == ApplyReport(s, r, status, now);
  }

  lemma DeltaMoves(u: Update, previous: Status, next: Status)
    requires Counted(u, previous)
    ensures ApplyDelta(u, Some(previous), next)
         == Update(u.app, u.successCount + (if next == Success then 1 else 0) - (if previous == Success then 1 else 0),
                   u.failCount + (if next == Failed then 1 else 0) - (if previous == Failed then 1 else 0))
  {
  }

  /**
   In every reachable state, failing first and succeeding on the retry moves one from the failures to the
   successes.
   */
  lemma RetryMovesCount(steps: seq<Step>, first: Report, retry: Report, at: int, later: int, lower: string -> string)
    requires RunEnabled(EMPTY, steps, lower)
    requires Known(Run(EMPTY, steps, lower), first) && (first.id, first.machine) !in Run(EMPTY, steps, lower).logs
    requires Says(first.status, "failed", lower) && Says(retry.status, "success", lower)
    requires retry.id == first.id && retry.machine == first.machine && retry.app == first.app
    ensures var s, t, k := Run(EMPTY, steps, lower),
                           Run(EMPTY, steps + [ReportStep(first, at)] + [ReportStep(retry, later)], lower), (first.id, first.machine);
      && k in t.logs && t.logs[k].status == Success && first.id in t.updates
      && t.updates[first.id].successCount == s.updates[first.id].successCount + 1
      && t.updates[first.id].failCount == s.updates[first.id].failCount
  {
    var s, middle := Run(EMPTY, steps, lower), steps + [ReportStep(first, at)];
    RunSnoc(EMPTY, steps, ReportStep(first, at), lower);
    RunSnoc(EMPTY, middle, ReportStep(retry, later), lower);
    CountersNeverShort(middle, lower);
    FailedThenDone(s, first, retry, at, later, lower);
  }

  lemma FailedThenDone(s: State, first: Report, retry: Report, at: int, later: int, lower: string -> string)
    requires Known(s, first) && (first.id, first.machine) !in s.logs
    requires Says(first.status, NameOf(Failed), lower) && Says(retry.status, NameOf(Success), lower)
    requires retry.id == first.id && retry.machine == first.machine && retry.app == first.app
    requires Inv(ReportStatus(s, first, at, lower).0)
    ensures var t, k := ReportStatus(ReportStatus(s, first, at, lower).0, retry, later, lower).0, (first.id, first.machine);
      && k in t.logs && t.logs[k].status == Success && first.id in t.updates
      && t.updates[first.id].successCount == s.updates[first.id].successCount + 1
      && t.updates[first.id].failCount == s.updates[first.id].failCount
  {
    FirstReport(s, first, Failed, at, lower);
    var failed := ReportStatus(s, first, at, lower).0;
    LogsAreCounted(failed, (first.id, first.machine));
    LaterReport(failed, retry, Success, later, lower);
  }
}
