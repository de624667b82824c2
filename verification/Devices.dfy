/**
 The handlers themselves, as methods on the tables they update. `trace` records the steps taken, so
 what `DeviceLaw` proves of every run holds of a `Valid()` object.
 */
module Devices {
  import opened Common
  import opened DeviceLaw
  import A = AccessLaw

  class Desk {
    var grants: map<Owner, Grant>
    var devices: map<string, Device>
    var sessions: map<string, Session>
    var blacklist: set<(string, string)>
    ghost var trace: seq<Step>

    constructor ()
      ensures Valid() && S() == EMPTY
    {
      grants, devices, sessions, blacklist, trace := map[], map[], map[], {}, [];
    }

    ghost function S(): State
      reads this
    {
      State(grants, devices, sessions, blacklist)
    }

    ghost predicate Valid()
      reads this
    {
      RunEnabled(EMPTY, trace) && S() == Run(EMPTY, trace)
    }

    ghost method Record(step: Step, before: State)
      requires RunEnabled(EMPTY, trace) && before == Run(EMPTY, trace)
      requires Enabled(before, step) && S() == Apply(before, step)
      modifies `trace
      ensures Valid() && trace == old(trace) + [step]
    {
      RunSnoc(EMPTY, trace, step);
      trace := trace + [step];
    }

    // ---------- shared pieces ----------

    method RevokeForDevices(doomed: set<string>)
      modifies `sessions
      ensures S() == RevokeFor(old(S()), doomed)
    {
      sessions := map k | k in sessions :: if sessions[k].device in doomed then sessions[k].(revoked := true) else sessions[k];
    }

    method SoftDelete(doomed: set<string>)
      modifies `devices
      ensures S() == DeleteDevices(old(S()), doomed)
    {
      devices := map d | d in devices :: if d in doomed then devices[d].(deleted := true) else devices[d];
    }

    method IncreaseUnbindUsed(owner: Owner, app: string) returns (ok: bool)
      modifies `grants
      ensures ok == SpendUnbind(old(S()), owner, app).Some?
      ensures S() == if ok then SpendUnbind(old(S()), owner, app).value else old(S())
    {
      if owner !in grants || grants[owner].app != app || grants[owner].unbindUsed >= grants[owner].unbindLimit {
        return false;
      }
      grants := grants[owner := grants[owner].(unbindUsed := grants[owner].unbindUsed + 1)];
      return true;
    }

    /** Count, look up, restore or insert: the part of the transaction shared by `Activate` and `ClientLogin`. */
    method BindDevice(owner: Owner, machine: string, customer: string, login: Login)
      returns (bound: Option<string>, ghost row: string)
      requires owner in grants
      requires login.device !in devices && login.session !in sessions
      modifies `devices
      ensures Draws(old(S()), owner, machine, login.(row := row))
      ensures match Bind(old(S()), owner, machine, customer, login.(row := row))
              case None => bound.None? && S() == old(S())
              case Some(r) => bound == Some(r.1) && S() == r.0
    {
      var rows := set d | d in devices && devices[d].owner == owner && devices[d].machine == machine;
      var live := set d | d in devices && devices[d].owner == owner && !devices[d].deleted;
      assert rows == RowsFor(S(), owner, machine) && live == LiveRows(S(), owner);
      row := AnyRow(S(), owner, machine);
      if rows * live == {} && |live| >= grants[owner].maxDevices {
        return None, row;
      }
      if rows == {} {
        devices := devices[login.device := Device(owner, machine, customer, false, false)];
        return Some(login.device), row;
      }
      var d: string;
      if rows * live != {} {
        d :| d in rows * live;
      } else {
        d :| d in rows;
      }
      if devices[d].blacklisted {
        return None, d;
      }
      devices := devices[d := devices[d].(customer := customer, deleted := false)];
      return Some(d), d;
    }

    method IssueSession(device: string, app: string, customer: string, mode: Mode, login: Login)
      requires device in devices
      modifies `sessions
      ensures S() == Issue(old(S()), device, app, customer, mode, login)
    {
      if login.revokeOk {
        RevokeForDevices({device});
      }
      if login.tokenOk {
        sessions := sessions[login.session := Session(device, devices[device].machine, app, customer, mode,
                                                      login.token, login.expiresAt, false)];
      }
    }

    /** Bind the machine, then issue its session; the two calls `Activate` and `ClientLogin` share. */
    method AdmitDevice(owner: Owner, machine: string, customer: string, app: string, mode: Mode, login: Login)
      returns (ok: bool, ghost row: string)
      requires owner in grants
      requires login.device !in devices && login.session !in sessions
      modifies `devices, `sessions
      ensures Draws(old(S()), owner, machine, login.(row := row))
      ensures match Admit(old(S()), owner, machine, customer, app, mode, login.(row := row))
              case None => !ok && S() == old(S())
              case Some(t) => ok && S() == t
      ensures Inv(old(S())) ==> (ok <==> A.HasSlot(old(S()), owner, machine))
      ensures ok && login.tokenOk ==> login.session in sessions && !sessions[login.session].revoked
    {
      ghost var before := S();
      var bound;
      bound, row := BindDevice(owner, machine, customer, login);
      if Inv(before) {
        A.BindIff(before, owner, machine, customer, login.(row := row));
      }
      if bound.None? {
        return false, row;
      }
      IssueSession(bound.value, app, customer, mode, login);
      return true, row;
    }

    method RevokeSession(session: string)
      requires session in sessions
      modifies `sessions
      ensures S() == RevokeOne(old(S()), session)
    {
      sessions := sessions[session := sessions[session].(revoked := true)];
    }

    /** A revoking update whose error is dropped. */
    method TryRevokeSession(session: string, login: Login)
      requires session in sessions
      modifies `sessions
      ensures S() == if login.revokeOk then RevokeOne(old(S()), session) else old(S())
    {
      if login.revokeOk {
        RevokeSession(session);
      }
    }

    /** `tx.Delete(device)` then revoke its sessions. */
    method UnbindDevice(device: string)
      modifies `devices, `sessions
      ensures S() == Unbind(old(S()), device)
    {
      SoftDelete({device});
      RevokeForDevices({device});
    }

    // ---------- client handlers ----------

    /** The licence as `Activate` saves it when it may be used now, or nothing. */
    method UsableLicense(owner: Owner, app: string, machine: string, now: int, graceDays: int) returns (g: Option<Grant>)
      ensures g.Some? ==> owner in grants && g.value == Started(grants[owner], now, graceDays)
      ensures g.Some? <==>
                && !Blocked(S(), machine, app) && owner in grants && grants[owner].app == app
                && A.Activatable(grants[owner], now, graceDays)
    {
      if (machine, app) in blacklist || (machine, "") in blacklist {
        return None;
      }
      if owner !in grants || grants[owner].app != app {
        return None;
      }
      var license := grants[owner];
      A.StartedIsRunning(license, now, graceDays);
      if license.customer.None? || license.customer.value == "" {
        return None;
      }
      if license.status == Revoked || license.status == Suspended {
        return None;
      }
      if license.status == Pending {
        license := license.(status := Active);
        if license.durationDays == -1 {
          license := license.(expireAt := None);
        } else {
          var end := now + license.durationDays * DAY;
          license := license.(expireAt := Some(end), graceExpireAt := Some(end + graceDays * DAY));
        }
      }
      if license.expireAt.Some? && now > license.expireAt.value {
        if license.graceExpireAt.None? || now > license.graceExpireAt.value {
          return None;
        }
      }
      return Some(license);
    }

    /** Save the licence and admit the machine in one transaction. */
    method StartLicense(owner: Owner, g: Grant, app: string, machine: string, login: Login) returns (ok: bool, ghost row: string)
      requires owner in grants && g.maxDevices == grants[owner].maxDevices && g.customer.Some? && Inv(S())
      requires login.device !in devices && login.session !in sessions
      modifies `grants, `devices, `sessions
      ensures Draws(old(S()), owner, machine, login.(row := row))
      ensures ok <==> A.HasSlot(old(S()), owner, machine)
      ensures S() == match Admit(old(S()).(grants := old(grants)[owner := g]), owner, machine, g.customer.value, app, LicenseMode,
                                 login.(row := row))
                     case None => old(S())
                     case Some(t) => t
      ensures ok && login.tokenOk ==> login.session in sessions && !sessions[login.session].revoked
    {
      ghost var before := S();
      var undo := grants;
      grants := grants[owner := g];
      GrantsKeepInv(before, grants);
      A.SlotKept(before, owner, g, machine);
      assert RowsFor(S(), owner, machine) == RowsFor(before, owner, machine) && LiveRows(S(), owner) == LiveRows(before, owner);
      ok, row := AdmitDevice(owner, machine, g.customer.value, app, LicenseMode, login);
      if !ok {
        grants := undo;
      }
    }

    method Activate(license: string, app: string, machine: string, now: int, graceDays: int, login: Login)
      returns (ok: bool, ghost row: string)
      requires Valid() && login.device !in devices && login.session !in sessions
      modifies this
      ensures Valid() && trace == old(trace) + [ActivateStep(license, app, machine, now, graceDays, login.(row := row))]
      ensures S() == DeviceLaw.Activate(old(S()), license, app, machine, now, graceDays, login.(row := row))
      ensures ok <==> A.MayActivate(old(S()), license, app, machine, now, graceDays)
      ensures ok && login.tokenOk ==> login.session in sessions && !sessions[login.session].revoked
    {
      ghost var before := S();
      SessionsStayAnchored(trace);
      var owner := Lic(license);
      row := AnyRow(before, owner, machine);
      ok := false;
      var g := UsableLicense(owner, app, machine, now, graceDays);
      if g.Some? {
        ok, row := StartLicense(owner, g.value, app, machine, login);
      }
      Record(ActivateStep(license, app, machine, now, graceDays, login.(row := row)), before);
    }

    method ClientLogin(sub: string, customer: string, app: string, machine: string, now: int, login: Login)
      returns (ok: bool, ghost row: string)
      requires Valid() && login.device !in devices && login.session !in sessions
      modifies this
      ensures Valid() && trace == old(trace) + [LoginStep(sub, customer, app, machine, now, login.(row := row))]
      ensures S() == DeviceLaw.ClientLogin(old(S()), sub, customer, app, machine, now, login.(row := row))
      ensures ok <==> A.MayLogIn(old(S()), sub, customer, app, machine, now)
      ensures ok && login.tokenOk ==> login.session in sessions && !sessions[login.session].revoked
    {
      ghost var before := S();
      SessionsStayAnchored(trace);
      var owner := Sub(sub);
      row := AnyRow(before, owner, machine);
      ok := false;
      if (machine, app) !in blacklist && (machine, "") !in blacklist && owner in grants {
        var g := grants[owner];
        if g.app == app && g.customer == Some(customer) && g.status == Active {
          if g.expireAt.Some? && now > g.expireAt.value {
            grants := grants[owner := g.(status := Expired)];
          } else {
            ok, row := AdmitDevice(owner, machine, customer, app, SubscriptionMode, login);
          }
        }
      }
      Record(LoginStep(sub, customer, app, machine, now, login.(row := row)), before);
    }

    /** Rotate the refresh token, or revoke the session on the first check that fails. */
    method ClientRefresh(session: string, now: int, appActive: bool, login: Login) returns (ok: bool)
      requires Valid()
      modifies this
      ensures Valid() && trace == old(trace) + [RefreshStep(session, now, appActive, login)]
      ensures S() == DeviceLaw.ClientRefresh(old(S()), session, now, appActive, login)
      ensures ok <==> A.MayRefresh(old(S()), session, now, appActive) && login.tokenOk
    {
      ghost var before := S();
      A.RefreshIff(before, session, now, appActive, login);
      ok := false;
      if session in sessions && !sessions[session].revoked {
        var c := sessions[session];
        if c.expiresAt <= now {
          TryRevokeSession(session, login);
        } else if appActive && c.device in devices && !devices[c.device].deleted {
          var d := devices[c.device];
          if d.machine != c.machine {
            TryRevokeSession(session, login);
          } else if d.blacklisted {
            TryRevokeSession(session, login);
          } else if (c.machine, c.app) in blacklist || (c.machine, "") in blacklist {
            TryRevokeSession(session, login);
          } else {
            var entitled := Entitled(c, d, now);
            if !entitled {
              TryRevokeSession(session, login);
            } else if login.tokenOk {
              sessions := sessions[session := c.(token := login.token, expiresAt := login.expiresAt)];
              ok := true;
            }
          }
        }
      }
      Record(RefreshStep(session, now, appActive, login), before);
    }

    /** The licence or subscription behind a session still covers it. */
    method Entitled(c: Session, d: Device, now: int) returns (ok: bool)
      ensures ok <==>
                && (d.owner.Lic? <==> c.mode.LicenseMode?) && d.owner in grants
                && grants[d.owner].app == c.app && GrantValid(d.owner, grants[d.owner], now)
                && (c.mode.SubscriptionMode? && c.customer != "" ==> grants[d.owner].customer == Some(c.customer))
    {
      match c.mode {
        case LicenseMode =>
          if d.owner.Sub? || d.owner !in grants {
            return false;
          }
          var g := grants[d.owner];
          return g.app == c.app && GrantValid(d.owner, g, now);
        case SubscriptionMode =>
          if d.owner.Lic? || d.owner !in grants {
            return false;
          }
          var g := grants[d.owner];
          if g.app != c.app || !GrantValid(d.owner, g, now) {
            return false;
          }
          return c.customer == "" || g.customer == Some(c.customer);
      }
    }

    method ClientLogout(session: string)
      requires Valid()
      modifies this
      ensures Valid() && trace == old(trace) + [LogoutStep(session)] && S() == RevokeOne(old(S()), session)
    {
      ghost var before := S();
      if session in sessions && !sessions[session].revoked {
        RevokeSession(session);
      } else if session in sessions {
        assert sessions[session := sessions[session].(revoked := true)] == sessions;
      }
      Record(LogoutStep(session), before);
    }

    /**
     `loadActiveLicenseDeviceForApp` over the rows the database lists: the first whose licence serves, unless
     a marked one comes before it.
     */
    method LoadActiveDevice(rows: seq<string>, app: string, machine: string, now: int) returns (found: Option<string>)
      requires A.Listing(S(), rows, app, machine)
      ensures found.Some? ==>
                && !A.Listed(S(), machine, app)
                && exists i :: 0 <= i < |rows| && found.value == rows[i] && A.FirstServing(S(), rows, i, now)
      ensures found.None? ==> A.Listed(S(), machine, app) || forall i :: 0 <= i < |rows| ==> !A.FirstServing(S(), rows, i, now)
    {
      if (machine, app) in blacklist || (machine, "") in blacklist {
        return None;
      }
      for i := 0 to |rows|
        invariant forall j :: 0 <= j < i ==>
                    && !devices[rows[j]].blacklisted
                    && !A.Serves(devices[rows[j]].owner, grants[devices[rows[j]].owner], now)
      {
        var d := devices[rows[i]];
        if d.blacklisted {
          return None;
        }
        if GrantValid(d.owner, grants[d.owner], now) {
          return Some(rows[i]);
        }
      }
      return None;
    }

    /** Unbind the row found by machine: it goes through exactly if there is one whose licence has an unbind left. */
    method Deactivate(rows: seq<string>, app: string, machine: string, now: int) returns (ok: bool, ghost found: Option<string>)
      requires Valid() && A.Listing(S(), rows, app, machine)
      modifies this
      ensures Valid()
      ensures found.Some? <==>
                !A.Listed(old(S()), machine, app) && exists i :: 0 <= i < |rows| && A.FirstServing(old(S()), rows, i, now)
      ensures found.Some? ==>
                && (exists i :: 0 <= i < |rows| && found.value == rows[i] && A.FirstServing(old(S()), rows, i, now))
                && trace == old(trace) + [DeactivateStep(found.value, app, machine, now)]
                && S() == DeviceLaw.Deactivate(old(S()), found.value, app, machine, now)
      ensures found.None? ==> S() == old(S()) && trace == old(trace)
      ensures ok <==> found.Some? && A.MayDeactivate(old(S()), found.value, app, machine, now)
    {
      var device := LoadActiveDevice(rows, app, machine, now);
      found := device;
      if device.None? {
        return false, found;
      }
      ghost var before := S();
      assert A.Candidate(before, device.value, app, machine);
      ok := IncreaseUnbindUsed(devices[device.value].owner, app);
      if ok {
        UnbindDevice(device.value);
      }
      Record(DeactivateStep(device.value, app, machine, now), before);
    }

    method UnbindCurrentDevice(session: string, now: int, allowed: bool, passwordOk: bool) returns (ok: bool)
      requires Valid()
      modifies this
      ensures Valid() && trace == old(trace) + [SelfUnbindStep(session, now, allowed, passwordOk)]
      ensures S() == DeviceLaw.UnbindCurrentDevice(old(S()), session, now, allowed, passwordOk)
      ensures ok <==> A.MayUnbindSelf(old(S()), session, now, allowed, passwordOk)
      ensures ok ==>
                && session in sessions && sessions[session].revoked
                && sessions[session].device in devices && devices[sessions[session].device].deleted
    {
      ghost var before := S();
      ok := false;
      if Authenticated(State(grants, devices, sessions, blacklist), session, now) && allowed {
        var c := sessions[session];
        var d := devices[c.device];
        var accepted := true;
        if c.mode.SubscriptionMode? {
          if c.customer == "" || !passwordOk || d.customer != c.customer {
            accepted := false;
          } else if d.owner.Lic? || d.owner !in grants || grants[d.owner].app != c.app {
            accepted := false;
          }
        } else if d.owner.Sub? || d.owner !in grants || grants[d.owner].app != c.app {
          accepted := false;
        }
        if accepted {
          ok := IncreaseUnbindUsed(d.owner, c.app);
          if ok {
            UnbindDevice(c.device);
          }
        }
      }
      Record(SelfUnbindStep(session, now, allowed, passwordOk), before);
    }

    // ---------- administrator handlers ----------

    method AdminUnbind(device: string) returns (ok: bool)
      requires Valid()
      modifies this
      ensures Valid() && trace == old(trace) + [AdminUnbindStep(device)] && S() == DeviceLaw.AdminUnbind(old(S()), device)
      ensures ok <==> device in old(devices) && !old(devices[device].deleted)
    {
      ghost var before := S();
      ok := device in devices && !devices[device].deleted;
      if ok {
        UnbindDevice(device);
      }
      Record(AdminUnbindStep(device), before);
    }

    method Blacklist(device: string)
      requires Valid()
      modifies this
      ensures Valid() && trace == old(trace) + [BlacklistStep(device)] && S() == DeviceLaw.Blacklist(old(S()), device)
    {
      ghost var before := S();
      if device in devices && !devices[device].deleted {
        var d, app := devices[device], "";
        if d.owner in grants {
          app := grants[d.owner].app;
        }
        blacklist := blacklist + {(d.machine, app)};
        devices := devices[device := d.(blacklisted := true)];
        RevokeForDevices({device});
      }
      Record(BlacklistStep(device), before);
    }

    /** Two statements of their own: `fault` strikes the second, after the entries are gone. */
    method Unblacklist(device: string, fault: bool)
      requires Valid()
      modifies this
      ensures Valid() && trace == old(trace) + [UnblacklistStep(device, !fault)]
      ensures S() == DeviceLaw.Unblacklist(old(S()), device, !fault)
    {
      ghost var before := S();
      if device in devices && !devices[device].deleted {
        var d, app := devices[device], "";
        if d.owner in grants {
          app := grants[d.owner].app;
        }
        var doomed := blacklist * {(d.machine, app), (d.machine, "")};
        if doomed != {} {
          blacklist := blacklist - doomed;
          if d.blacklisted && !fault {
            devices := devices[device := d.(blacklisted := false)];
          } else if !d.blacklisted {
            assert devices[device := d.(blacklisted := false)] == devices;
          }
        }
      }
      Record(UnblacklistStep(device, !fault), before);
    }

    /** Delete the matching entries, then lift the mark of each device no remaining entry covers. */
    method RemoveFromBlacklist(machine: string, app: string, globalOnly: bool)
      requires Valid()
      modifies this
      ensures Valid() && trace == old(trace) + [RemoveFromBlacklistStep(machine, app, globalOnly)]
      ensures S() == DeviceLaw.RemoveFromBlacklist(old(S()), machine, app, globalOnly)
    {
      ghost var before := S();
      var doomed := set e | e in blacklist && e.0 == machine && (if app != "" then e.1 == app else globalOnly ==> e.1 == "");
      assert doomed == Doomed(before, machine, app, globalOnly);
      var candidates := set d | d in devices && Liftable(State(grants, devices, sessions, blacklist), devices[d], machine, app);
      if candidates != {} && doomed != {} {
        assert exists d :: d in devices && Liftable(before, devices[d], machine, app) by {
          var d :| d in candidates;
        }
        blacklist := blacklist - doomed;
        LiftMarks(candidates, machine, app);
      } else if exists d :: d in devices && Liftable(before, devices[d], machine, app) {
        ghost var d :| d in devices && Liftable(before, devices[d], machine, app);
        assert d in candidates;
      }
      Record(RemoveFromBlacklistStep(machine, app, globalOnly), before);
    }

    method LiftMarks(candidates: set<string>, machine: string, app: string)
      requires candidates == set d | d in devices && Liftable(S(), devices[d], machine, app)
      modifies `devices
      ensures var t := old(S());
        S() == t.(devices := map d | d in t.devices :: Lifted(t, t.devices[d], machine, app))
    {
      ghost var t := S();
      var rest := candidates;
      assert devices == LiftedBut(t, rest, machine, app);
      while rest != {}
        invariant rest <= candidates && devices == LiftedBut(t, rest, machine, app)
        decreases |rest|
      {
        var d :| d in rest;
        LiftMark(d, machine, app, t);
        assert devices == LiftedBut(t, rest - {d}, machine, app);
        rest := rest - {d};
      }
    }

    /** Unmark one device unless another entry still covers it. */
    method LiftMark(d: string, machine: string, app: string, ghost t: State)
      requires d in devices && d in t.devices && devices[d] == t.devices[d]
      requires grants == t.grants && blacklist == t.blacklist && Liftable(t, t.devices[d], machine, app)
      modifies `devices
      ensures devices == old(devices)[d := Lifted(t, t.devices[d], machine, app)]
    {
      var row, rowApp := devices[d], "";
      if row.blacklisted {
        if row.owner in grants {
          rowApp := grants[row.owner].app;
        }
        if (machine, rowApp) !in blacklist && (machine, "") !in blacklist {
          devices := devices[d := row.(blacklisted := false)];
        }
      }
      assert devices == old(devices)[d := Lifted(t, t.devices[d], machine, app)];
    }

    method ResetDevices(license: string)
      requires Valid()
      modifies this
      ensures Valid() && trace == old(trace) + [ResetDevicesStep(license)] && S() == DeviceLaw.ResetDevices(old(S()), license)
    {
      ghost var before := S();
      if Lic(license) in grants {
        var doomed := set d | d in devices && devices[d].owner == Lic(license) && !devices[d].deleted;
        assert doomed == LiveRows(before, Lic(license));
        RevokeForDevices(doomed);
        SoftDelete(doomed);
      }
      Record(ResetDevicesStep(license), before);
    }

    method ResetUnbindCount(owner: Owner)
      requires Valid()
      modifies this
      ensures Valid() && trace == old(trace) + [ResetUnbindStep(owner)] && S() == DeviceLaw.ResetUnbindCount(old(S()), owner)
    {
      ghost var before := S();
      if owner in grants {
        grants := grants[owner := grants[owner].(unbindUsed := 0)];
      }
      Record(ResetUnbindStep(owner), before);
    }

    method RevokeForCustomer(customer: string)
      modifies `sessions
      ensures S() == RevokeCustomer(old(S()), customer)
    {
      sessions := map k | k in sessions :: if sessions[k].customer == customer then sessions[k].(revoked := true) else sessions[k];
    }

    /** Drop the customer's subscriptions, then clear the customer from the licences. */
    method DetachGrants(customer: string)
      modifies `grants
      ensures S() == old(S()).(grants := DeviceLaw.DetachCustomer(old(grants), customer))
    {
      var kept := map o | o in grants && !(o.Sub? && grants[o].customer == Some(customer)) :: grants[o];
      grants := map o | o in kept :: if kept[o].customer == Some(customer) then kept[o].(customer := None) else kept[o];
    }

    /** Revoke and delete the customer's devices, delete the subscriptions, detach the licences. */
    method DeleteCustomer(customer: string)
      requires Valid()
      modifies this
      ensures Valid() && trace == old(trace) + [DeleteCustomerStep(customer)]
      ensures S() == DeviceLaw.DeleteCustomer(old(S()), customer)
    {
      ghost var before := S();
      var doomed := set d | d in devices && devices[d].customer == customer && !devices[d].deleted;
      assert doomed == CustomerDevices(before, customer);
      RevokeForCustomer(customer);
      RevokeForDevices(doomed);
      SoftDelete(doomed);
      DetachGrants(customer);
      Record(DeleteCustomerStep(customer), before);
    }

    method DeleteSubscription(sub: string)
      requires Valid()
      modifies this
      ensures Valid() && trace == old(trace) + [DeleteSubscriptionStep(sub)]
      ensures S() == DeviceLaw.DeleteSubscription(old(S()), sub)
    {
      ghost var before := S();
      if Sub(sub) in grants {
        var doomed := set d | d in devices && devices[d].owner == Sub(sub) && !devices[d].deleted;
        assert doomed == LiveRows(before, Sub(sub));
        RevokeForDevices(doomed);
        SoftDelete(doomed);
        grants := grants - {Sub(sub)};
      }
      Record(DeleteSubscriptionStep(sub), before);
    }
  }

  /** All rows with their marks lifted where they may be, but for these. */
  ghost function LiftedBut(t: State, rest: set<string>, machine: string, app: string): map<string, Device> {
    map d | d in t.devices :: if d in rest then t.devices[d] else Lifted(t, t.devices[d], machine, app)
  }
}
