/**
 Device marks against black-list entries. `Blacklist` writes both; `Unblacklist` and `RemoveFromBlacklist`
 take them away again, in ways that can leave a mark without an entry (internal/handler/device.go).
 */
module BlacklistLaw {
  import opened Common
  import opened DeviceLaw

  /** The entries that cover a row. */
  function Covering(s: State, d: Device): set<(string, string)> {
    {(d.machine, AppOf(s, d)), (d.machine, "")}
  }

  predicate Marked(s: State, d: string) {
    d in s.devices && s.devices[d].blacklisted
  }

  /** A marked row of a standing grant that no entry covers. */
  predicate Orphaned(s: State, d: string) {
    Marked(s, d) && s.devices[d].owner in s.grants && s.blacklist * Covering(s, s.devices[d]) == {}
  }

  /** The step removes every entry that covers the marked row, and not its mark. */
  predicate Strands(s: State, step: Step, d: string) {
    && Marked(s, d) && s.devices[d].owner in s.grants
    && var entries := s.blacklist * Covering(s, s.devices[d]);
       match step
       case UnblacklistStep(e, unmarked) =>
         && e in s.devices && !s.devices[e].deleted && (e != d || !unmarked)
         && entries <= Covering(s, s.devices[e])
       case RemoveFromBlacklistStep(machine, app, globalOnly) =>
         && s.devices[d].deleted && (exists e :: e in s.devices && Liftable(s, s.devices[e], machine, app))
         && entries <= Doomed(s, machine, app, globalOnly)
       case _ => false
  }

  /** Nothing is marked, no entry goes, and no grant appears or changes its app. */
  ghost predicate KeepsCover(s: State, s': State, d: string) {
    && (Marked(s', d) ==>
          && Marked(s, d) && s'.devices[d].owner == s.devices[d].owner && s'.devices[d].machine == s.devices[d].machine
          && (s.devices[d].owner in s'.grants ==>
                s.devices[d].owner in s.grants && s'.grants[s.devices[d].owner].app == s.grants[s.devices[d].owner].app))
    && s.blacklist <= s'.blacklist
  }

  lemma CoverStays(s: State, s': State, d: string)
    requires !Orphaned(s, d) && KeepsCover(s, s', d)
    ensures !Orphaned(s', d)
  {
    if Marked(s', d) && s'.devices[d].owner in s'.grants {
      assert Covering(s', s'.devices[d]) == Covering(s, s.devices[d]);
      var e :| e in s.blacklist * Covering(s, s.devices[d]);
      assert e in s'.blacklist * Covering(s', s'.devices[d]);
    }
  }

  lemma AdmitKeepsCover(s: State, owner: Owner, machine: string, customer: string, app: string, mode: Mode, login: Login, d: string)
    requires owner in s.grants && login.device !in s.devices
    ensures var t := Admit(s, owner, machine, customer, app, mode, login); t.Some? ==> KeepsCover(s, t.value, d)
  {
  }

  lemma SlotStepKeepsCover(s: State, step: Step, d: string)
    requires Enabled(s, step) && (step.ActivateStep? || step.LoginStep?)
    ensures KeepsCover(s, Apply(s, step), d)
  {
    match step
    case ActivateStep(license, app, machine, now, graceDays, login) =>
      var o := Lic(license);
      if o in s.grants && s.grants[o].customer.Some? {
        var s1 := s.(grants := s.grants[o := Started(s.grants[o], now, graceDays)]);
        AdmitKeepsCover(s1, o, machine, s.grants[o].customer.value, app, LicenseMode, login, d);
      }
    case LoginStep(sub, customer, app, machine, now, login) =>
      if Sub(sub) in s.grants {
        AdmitKeepsCover(s, Sub(sub), machine, customer, app, SubscriptionMode, login, d);
      }
  }

  lemma UnbindKeepsCover(s: State, device: string, app: string, d: string)
    ensures KeepsCover(s, Unbind(s, device), d) && KeepsCover(s, SpendAndUnbind(s, device, app), d)
  {
  }

  lemma OtherStepKeepsCover(s: State, step: Step, d: string)
    requires Enabled(s, step) && !step.ActivateStep? && !step.LoginStep?
    requires !step.BlacklistStep? && !step.UnblacklistStep? && !step.RemoveFromBlacklistStep?
    ensures KeepsCover(s, Apply(s, step), d)
  {
    match step
    case DeactivateStep(device, app, _, _) => UnbindKeepsCover(s, device, app, d);
    case SelfUnbindStep(session, _, _, _) =>
      if session in s.sessions {
        UnbindKeepsCover(s, s.sessions[session].device, s.sessions[session].app, d);
      }
    case AdminUnbindStep(device) => UnbindKeepsCover(s, device, "", d);
    case CreateGrantStep(owner, _) =>
      if Marked(s, d) {
        NoRowYet(s, owner, d);
      }
    case ResetDevicesStep(_) => BulkKeepsCover(s, step, d);
    case DeleteCustomerStep(_) => BulkKeepsCover(s, step, d);
    case DeleteSubscriptionStep(_) => BulkKeepsCover(s, step, d);
    case _ =>
  }

  lemma BulkKeepsCover(s: State, step: Step, d: string)
    requires step.ResetDevicesStep? || step.DeleteCustomerStep? || step.DeleteSubscriptionStep?
    ensures KeepsCover(s, Apply(s, step), d)
  {
  }

  lemma NoRowYet(s: State, owner: Owner, d: string)
    requires LiveRows(s, owner) + DeadRows(s, owner) == {} && d in s.devices
    ensures s.devices[d].owner != owner
  {
    assert d !in LiveRows(s, owner) + DeadRows(s, owner);
  }

  lemma BlacklistCovers(s: State, device: string, d: string)
    requires !Orphaned(s, d)
    ensures !Orphaned(Blacklist(s, device), d)
  {
    var s' := Blacklist(s, device);
    if d == device && device in s.devices && !s.devices[device].deleted {
      assert (s.devices[d].machine, AppOf(s, s.devices[d])) in s'.blacklist * Covering(s', s'.devices[d]);
    } else {
      CoverStays(s, s', d);
    }
  }

  lemma UnblacklistStrands(s: State, device: string, unmarked: bool, d: string)
    requires !Orphaned(s, d)
    ensures Orphaned(Unblacklist(s, device, unmarked), d) <==> Strands(s, UnblacklistStep(device, unmarked), d)
  {
    var s' := Unblacklist(s, device, unmarked);
    if device in s.devices && !s.devices[device].deleted && Marked(s, d) {
      assert Covering(s', s.devices[d]) == Covering(s, s.devices[d]);
      var own := Covering(s, s.devices[device]);
      assert s.blacklist - s.blacklist * own == s.blacklist - own;
      assert s.blacklist * own == {} ==> s' == s && s.blacklist - own == s.blacklist;
      assert s'.blacklist == s.blacklist - own;
    }
  }

  lemma LiftStrands(s: State, machine: string, app: string, globalOnly: bool, d: string)
    requires !Orphaned(s, d)
    ensures Orphaned(RemoveFromBlacklist(s, machine, app, globalOnly), d)
       <==> Strands(s, RemoveFromBlacklistStep(machine, app, globalOnly), d)
  {
    var s', doomed := RemoveFromBlacklist(s, machine, app, globalOnly), Doomed(s, machine, app, globalOnly);
    if Marked(s, d) && s.devices[d].owner in s.grants {
      var row := s.devices[d];
      var entries := s.blacklist * Covering(s, row);
      var t := s.(blacklist := s.blacklist - doomed);
      assert t.blacklist * Covering(t, row) == entries - doomed;
      assert Blocked(t, row.machine, AppOf(t, row)) <==> !(entries <= doomed);
      if entries <= doomed {
        assert row.machine == machine && (app != "" ==> AppOf(s, row) == app) by {
          var e :| e in entries;
        }
      }
    }
  }

  /**
   Marks against entries, exactly: a step leaves a row marked with no entry to cover it, which it was not
   before, if and only if it is an `Unblacklist` of another row of the machine, or one whose second
   statement fails, or a `RemoveFromBlacklist` while the row is soft-deleted, and takes the row's last
   covering entry.
   */
  lemma MarkOrphanedIff(s: State, step: Step, d: string)
    requires Enabled(s, step) && !Orphaned(s, d)
    ensures Orphaned(Apply(s, step), d) <==> Strands(s, step, d)
  {
    match step {
      case BlacklistStep(device) => BlacklistCovers(s, device, d);
      case UnblacklistStep(device, unmarked) => UnblacklistStrands(s, device, unmarked, d);
      case RemoveFromBlacklistStep(machine, app, globalOnly) => LiftStrands(s, machine, app, globalOnly, d);
      case _ =>
        if step.ActivateStep? || step.LoginStep? {
          SlotStepKeepsCover(s, step, d);
        } else {
          OtherStepKeepsCover(s, step, d);
        }
        CoverStays(s, Apply(s, step), d);
    }
  }

  predicate NeverStrands(s: State, steps: seq<Step>, d: string) {
    steps == [] ||
    (NeverStrands(s, steps[..|steps| - 1], d) && !Strands(Run(s, steps[..|steps| - 1]), steps[|steps| - 1], d))
  }

  /** So in a run without such a step every marked row of a standing grant is covered by an entry. */
  lemma {:induction false} MarksMatchEntries(steps: seq<Step>, d: string)
    requires RunEnabled(EMPTY, steps) && NeverStrands(EMPTY, steps, d)
    ensures !Orphaned(Run(EMPTY, steps), d)
  {
    if steps != [] {
      MarksMatchEntries(steps[..|steps| - 1], d);
      MarkOrphanedIff(Run(EMPTY, steps[..|steps| - 1]), steps[|steps| - 1], d);
    }
  }

  /** No entry, for whatever app, names the machine. */
  predicate Unlisted(s: State, machine: string) {
    forall e :: e in s.blacklist ==> e.0 != machine
  }

  /** Nobody black-lists a device of the machine. */
  predicate Undisturbed(s: State, steps: seq<Step>, machine: string) {
    steps == [] ||
    (var front, last := steps[..|steps| - 1], steps[|steps| - 1];
     && Undisturbed(s, front, machine)
     && (last.BlacklistStep? && last.device in Run(s, front).devices ==> Run(s, front).devices[last.device].machine != machine))
  }

  /** The row is still marked, on the same machine, and as deleted as it was. */
  predicate StaysMarked(s: State, s': State, d: string)
    requires d in s.devices
  {
    Marked(s', d) && s'.devices[d].machine == s.devices[d].machine && (s.devices[d].deleted ==> s'.devices[d].deleted)
  }

  lemma AdmitKeepsMark(s: State, owner: Owner, machine: string, customer: string, app: string, mode: Mode, login: Login, d: string)
    requires owner in s.grants && login.device !in s.devices && Marked(s, d)
    ensures var t := Admit(s, owner, machine, customer, app, mode, login); t.Some? ==> StaysMarked(s, t.value, d)
  {
  }

  lemma SlotStepKeepsMark(s: State, step: Step, d: string)
    requires Enabled(s, step) && (step.ActivateStep? || step.LoginStep?) && Marked(s, d)
    ensures StaysMarked(s, Apply(s, step), d)
  {
    match step
    case ActivateStep(license, app, machine, now, graceDays, login) =>
      var o := Lic(license);
      if o in s.grants && s.grants[o].customer.Some? {
        var s1 := s.(grants := s.grants[o := Started(s.grants[o], now, graceDays)]);
        AdmitKeepsMark(s1, o, machine, s.grants[o].customer.value, app, LicenseMode, login, d);
      }
    case LoginStep(sub, customer, app, machine, now, login) =>
      if Sub(sub) in s.grants {
        AdmitKeepsMark(s, Sub(sub), machine, customer, app, SubscriptionMode, login, d);
      }
  }

  /** A mark goes only from a live row, and only together with some entry of its machine. */
  lemma StepKeepsMark(s: State, step: Step, d: string)
    requires Enabled(s, step) && Marked(s, d)
    requires s.devices[d].deleted || Unlisted(s, s.devices[d].machine)
    ensures StaysMarked(s, Apply(s, step), d)
  {
    match step {
      case ActivateStep(_, _, _, _, _, _) => SlotStepKeepsMark(s, step, d);
      case LoginStep(_, _, _, _, _, _) => SlotStepKeepsMark(s, step, d);
      case RemoveFromBlacklistStep(machine, app, globalOnly) => LiftKeepsMark(s, machine, app, globalOnly, d);
      case UnblacklistStep(device, unmarked) =>
      case BlacklistStep(device) =>
      case _ => OtherStepKeepsMark(s, step, d);
    }
  }

  lemma LiftKeepsMark(s: State, machine: string, app: string, globalOnly: bool, d: string)
    requires Marked(s, d) && (s.devices[d].deleted || Unlisted(s, s.devices[d].machine))
    ensures StaysMarked(s, RemoveFromBlacklist(s, machine, app, globalOnly), d)
  {
    var doomed := Doomed(s, machine, app, globalOnly);
    if doomed != {} {
      var e :| e in doomed;
      assert s.devices[d].deleted || s.devices[d].machine != machine;
    }
  }

  lemma OtherStepKeepsMark(s: State, step: Step, d: string)
    requires Marked(s, d) && !step.ActivateStep? && !step.LoginStep?
    requires !step.BlacklistStep? && !step.UnblacklistStep? && !step.RemoveFromBlacklistStep?
    ensures StaysMarked(s, Apply(s, step), d)
  {
  }

  lemma OnlyBlacklistLists(s: State, step: Step, machine: string)
    requires Enabled(s, step) && Unlisted(s, machine)
    requires step.BlacklistStep? && step.device in s.devices ==> s.devices[step.device].machine != machine
    ensures Unlisted(Apply(s, step), machine)
  {
    assert step.BlacklistStep? || Apply(s, step).blacklist <= s.blacklist;
  }

  /** A soft-deleted row never loses its mark: the machine cannot take a slot of that grant again. */
  lemma {:induction false} DeletedMarkIsForever(s: State, steps: seq<Step>, d: string)
    requires RunEnabled(s, steps) && Marked(s, d) && s.devices[d].deleted
    ensures StaysMarked(s, Run(s, steps), d)
  {
    if steps != [] {
      DeletedMarkIsForever(s, steps[..|steps| - 1], d);
      StepKeepsMark(Run(s, steps[..|steps| - 1]), steps[|steps| - 1], d);
    }
  }

  /** Nor does a live one, once no entry names its machine, until somebody black-lists the machine anew. */
  lemma {:induction false} UnlistedMarkIsForever(s: State, steps: seq<Step>, d: string)
    requires RunEnabled(s, steps) && Marked(s, d) && Unlisted(s, s.devices[d].machine)
    requires Undisturbed(s, steps, s.devices[d].machine)
    ensures StaysMarked(s, Run(s, steps), d) && Unlisted(Run(s, steps), s.devices[d].machine)
  {
    if steps != [] {
      UnlistedMarkIsForever(s, steps[..|steps| - 1], d);
      StepKeepsMark(Run(s, steps[..|steps| - 1]), steps[|steps| - 1], d);
      OnlyBlacklistLists(Run(s, steps[..|steps| - 1]), steps[|steps| - 1], s.devices[d].machine);
    }
  }

  /**
   A concrete run: log in, get black-listed, get un-black-listed with the second statement failing. The
   mark is left without an entry, and trying again changes nothing.
   */
  lemma HalfUnblacklistStrands(grant: Grant, login: Login) returns (steps: seq<Step>)
    requires grant == Grant("app", Some("c"), Active, 0, None, None, 1, 0, 0) && login.tokenOk
    ensures steps == [CreateGrantStep(Sub("s"), grant), LoginStep("s", "c", "app", "m", 0, login),
                      BlacklistStep(login.device), UnblacklistStep(login.device, false)]
    ensures RunEnabled(EMPTY, steps) && Lost(Run(EMPTY, steps), login.device)
  {
    var before := [CreateGrantStep(Sub("s"), grant), LoginStep("s", "c", "app", "m", 0, login)];
    LoggedIn(grant, login);
    steps := StrandsAfter(before, grant, login);
  }

  /** Marked, not covered, and not to be helped by another try. */
  predicate Lost(s: State, d: string) {
    Orphaned(s, d) && Unlisted(s, s.devices[d].machine) && forall unmarked :: Unblacklist(s, d, unmarked) == s
  }

  lemma StrandsAfter(before: seq<Step>, grant: Grant, login: Login) returns (steps: seq<Step>)
    requires RunEnabled(EMPTY, before) && grant.app == "app"
    requires Run(EMPTY, before).grants == map[Sub("s") := grant] && Run(EMPTY, before).blacklist == {}
    requires Run(EMPTY, before).devices == map[login.device := Device(Sub("s"), "m", "c", false, false)]
    ensures steps == before + [BlacklistStep(login.device), UnblacklistStep(login.device, false)]
    ensures RunEnabled(EMPTY, steps) && Lost(Run(EMPTY, steps), login.device)
  {
    steps := before + [BlacklistStep(login.device), UnblacklistStep(login.device, false)];
    HalfUnblacklisted(Run(EMPTY, before), grant, login);
    RunTwo(EMPTY, before, BlacklistStep(login.device), UnblacklistStep(login.device, false));
  }

  lemma RunTwo(s: State, steps: seq<Step>, a: Step, b: Step)
    ensures Run(s, steps + [a, b]) == Apply(Apply(Run(s, steps), a), b)
    ensures RunEnabled(s, steps + [a, b])
       <==> RunEnabled(s, steps) && Enabled(Run(s, steps), a) && Enabled(Apply(Run(s, steps), a), b)
  {
    assert steps + [a, b] == steps + [a] + [b];
    RunSnoc(s, steps, a);
    RunSnoc(s, steps + [a], b);
  }

  lemma HalfUnblacklisted(s: State, grant: Grant, login: Login)
    requires grant.app == "app" && s.grants == map[Sub("s") := grant] && s.blacklist == {}
    requires s.devices == map[login.device := Device(Sub("s"), "m", "c", false, false)]
    ensures var a, b := BlacklistStep(login.device), UnblacklistStep(login.device, false);
            Enabled(s, a) && Enabled(Apply(s, a), b) && Lost(Apply(Apply(s, a), b), login.device)
  {
    var b := Blacklist(s, login.device);
    assert b.blacklist == {("m", "app")};
    var t := Unblacklist(b, login.device, false);
    assert b.blacklist * {("m", "app"), ("m", "")} == {("m", "app")};
    assert t.blacklist == {};
  }

  // ---------- the three handlers ----------

  /**
   Black-listing a live device lists its machine for the grant's app, or for every app if the grant is
   gone, and revokes its sessions.
   */
  lemma BlacklistIs(s: State, device: string)
    ensures var t := Blacklist(s, device);
      if device !in s.devices || s.devices[device].deleted then t == s
      else
        var d := s.devices[device];
        && t.blacklist == s.blacklist + {(d.machine, if d.owner in s.grants then s.grants[d.owner].app else "")}
        && t.devices == s.devices[device := d.(blacklisted := true)] && t.grants == s.grants
        && t.sessions.Keys == s.sessions.Keys
        && forall k :: k in s.sessions ==>
             t.sessions[k] == if s.sessions[k].device == device then s.sessions[k].(revoked := true) else s.sessions[k]
  {
  }

  /** Un-black-listing a live device removes its app's entry and the one for every app; if there was one, the mark goes too. */
  lemma UnblacklistIs(s: State, device: string, unmarked: bool)
    ensures var t := Unblacklist(s, device, unmarked);
      if device !in s.devices || s.devices[device].deleted then t == s
      else
        var d := s.devices[device];
        var app := if d.owner in s.grants then s.grants[d.owner].app else "";
        && t.blacklist == s.blacklist - {(d.machine, app), (d.machine, "")} && t.grants == s.grants && t.sessions == s.sessions
        && t.devices == if unmarked && ((d.machine, app) in s.blacklist || (d.machine, "") in s.blacklist)
                        then s.devices[device := d.(blacklisted := false)] else s.devices
  {
    if device in s.devices {
      var d := s.devices[device];
      var own := {(d.machine, AppOf(s, d)), (d.machine, "")};
      assert s.blacklist - s.blacklist * own == s.blacklist - own;
      assert s.blacklist * own == {} <==> (d.machine, AppOf(s, d)) !in s.blacklist && (d.machine, "") !in s.blacklist;
      assert s.blacklist * own == {} ==> s.blacklist - own == s.blacklist;
    }
  }

  /** The entries a removal asks for: one app's, the one for every app, or all of the machine's. */
  predicate Asked(e: (string, string), machine: string, app: string, globalOnly: bool) {
    e.0 == machine && (if app != "" then e.1 == app else if globalOnly then e.1 == "" else true)
  }

  /** The devices a removal may look at: the machine's live ones, of the app if one is named. */
  predicate InReach(s: State, d: string, machine: string, app: string) {
    && d in s.devices && !s.devices[d].deleted && s.devices[d].machine == machine
    && (app == "" || (s.devices[d].owner in s.grants && s.grants[s.devices[d].owner].app == app))
  }

  /**
   A removal does something exactly if the machine has a device in reach and an entry asked for. Then the
   entries asked for go, and so do the marks of the devices in reach that no other entry covers.
   */
  lemma RemovalIs(s: State, machine: string, app: string, globalOnly: bool)
    ensures var t := RemoveFromBlacklist(s, machine, app, globalOnly);
      if (exists d :: InReach(s, d, machine, app)) && (exists e :: e in s.blacklist && Asked(e, machine, app, globalOnly)) then
        && (forall e :: e in t.blacklist <==> e in s.blacklist && !Asked(e, machine, app, globalOnly))
        && t.grants == s.grants && t.sessions == s.sessions && t.devices.Keys == s.devices.Keys
        && forall d :: d in s.devices ==>
             t.devices[d] == if InReach(s, d, machine, app) && t.blacklist * Covering(s, s.devices[d]) == {}
                             then s.devices[d].(blacklisted := false) else s.devices[d]
      else t == s
  {
    RemovalGuard(s, machine, app, globalOnly);
    var left := s.(blacklist := s.blacklist - Doomed(s, machine, app, globalOnly));
    forall d | d in s.devices
      ensures Lifted(left, s.devices[d], machine, app)
           == if InReach(s, d, machine, app) && left.blacklist * Covering(s, s.devices[d]) == {}
              then s.devices[d].(blacklisted := false) else s.devices[d]
    {
      LiftedIs(s, left, d, machine, app);
    }
  }

  lemma RemovalGuard(s: State, machine: string, app: string, globalOnly: bool)
    ensures forall e :: e in Doomed(s, machine, app, globalOnly) <==> e in s.blacklist && Asked(e, machine, app, globalOnly)
    ensures (exists d :: InReach(s, d, machine, app)) <==> exists d :: d in s.devices && Liftable(s, s.devices[d], machine, app)
  {
    assert forall d :: InReach(s, d, machine, app) <==> d in s.devices && Liftable(s, s.devices[d], machine, app);
  }

  lemma LiftedIs(s: State, left: State, d: string, machine: string, app: string)
    requires d in s.devices && left == s.(blacklist := left.blacklist)
    ensures Lifted(left, s.devices[d], machine, app)
         == if InReach(s, d, machine, app) && left.blacklist * Covering(s, s.devices[d]) == {}
            then s.devices[d].(blacklisted := false) else s.devices[d]
  {
    var row := s.devices[d];
    if Blocked(left, row.machine, AppOf(s, row)) {
      var e := if (row.machine, "") in left.blacklist then (row.machine, "") else (row.machine, AppOf(s, row));
      assert e in left.blacklist * Covering(s, row);
    }
  }
}
