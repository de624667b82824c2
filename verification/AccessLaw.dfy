/**
 Who gets in and what that writes, in terms of the rows' own fields (internal/handler/client.go,
 internal/handler/client_session.go, internal/model/license.go, internal/model/subscription.go).
 */
module AccessLaw {
  import opened Common
  import opened DeviceLaw

  // ---------- conditions ----------

  /** Active, and not expired; a licence, not a subscription, may use up its grace time. */
  predicate Serves(owner: Owner, g: Grant, now: int) {
    && g.status == Active
    && (|| g.expireAt.None? || now <= g.expireAt.value
        || (owner.Lic? && g.graceExpireAt.Some? && now < g.graceExpireAt.value))
  }

  predicate Listed(s: State, machine: string, app: string) {
    (machine, app) in s.blacklist || (machine, "") in s.blacklist
  }

  /** The session is known, neither revoked nor expired, and its app active. */
  predicate Current(s: State, session: string, now: int, appActive: bool) {
    session in s.sessions && !s.sessions[session].revoked && now < s.sessions[session].expiresAt && appActive
  }

  /** The session's device is live, still the same machine and neither marked nor listed. */
  predicate SameDevice(s: State, c: Session) {
    && c.device in s.devices && !s.devices[c.device].deleted && !s.devices[c.device].blacklisted
    && s.devices[c.device].machine == c.machine && !Listed(s, c.machine, c.app)
  }

  /** The device's grant is of the session's kind, app and, where it names one, customer, and serves. */
  predicate Covered(s: State, c: Session, now: int)
    requires c.device in s.devices
  {
    var owner := s.devices[c.device].owner;
    && owner in s.grants && s.grants[owner].app == c.app && Serves(owner, s.grants[owner], now)
    && match c.mode
       case LicenseMode => owner.Lic?
       case SubscriptionMode => owner.Sub? && (c.customer != "" ==> s.grants[owner].customer == Some(c.customer))
  }

  predicate MayRefresh(s: State, session: string, now: int, appActive: bool) {
    && Current(s, session, now, appActive)
    && SameDevice(s, s.sessions[session]) && Covered(s, s.sessions[session], now)
  }

  /** A slot of the grant: no row of the machine is marked, and one is live already or the grant has room. */
  predicate HasSlot(s: State, owner: Owner, machine: string) {
    && owner in s.grants
    && (forall d :: d in s.devices && s.devices[d].owner == owner && s.devices[d].machine == machine ==> !s.devices[d].blacklisted)
    && (|| (exists d :: d in s.devices && s.devices[d].owner == owner && s.devices[d].machine == machine && !s.devices[d].deleted)
        || |set d | d in s.devices && s.devices[d].owner == owner && !s.devices[d].deleted| < s.grants[owner].maxDevices)
  }

  /**
   A licence that can be activated: assigned to a customer, neither revoked nor suspended, and either not
   started yet, or not expired, or within its grace time to the second.
   */
  predicate Activatable(g: Grant, now: int, graceDays: int) {
    && g.customer.Some? && g.customer.value != "" && g.status != Revoked && g.status != Suspended
    && if g.status == Pending then g.durationDays == -1 || g.durationDays >= 0 || g.durationDays + graceDays >= 0
       else || g.expireAt.None? || now <= g.expireAt.value
            || (g.graceExpireAt.Some? && now <= g.graceExpireAt.value)
  }

  predicate MayActivate(s: State, license: string, app: string, machine: string, now: int, graceDays: int) {
    && !Listed(s, machine, app)
    && Lic(license) in s.grants && s.grants[Lic(license)].app == app && Activatable(s.grants[Lic(license)], now, graceDays)
    && HasSlot(s, Lic(license), machine)
  }

  /** The subscription may be logged in to, up to its expiry. */
  predicate OpenFor(s: State, sub: string, customer: string, app: string, machine: string) {
    && !Listed(s, machine, app)
    && Sub(sub) in s.grants
    && var g := s.grants[Sub(sub)];
       g.app == app && g.customer == Some(customer) && g.status == Active
  }

  predicate MayLogIn(s: State, sub: string, customer: string, app: string, machine: string, now: int) {
    && OpenFor(s, sub, customer, app, machine)
    && (s.grants[Sub(sub)].expireAt.Some? ==> now <= s.grants[Sub(sub)].expireAt.value)
    && HasSlot(s, Sub(sub), machine)
  }

  // ---------- refresh ----------

  /** One session changes, in these fields. */
  predicate OnlySession(s: State, s': State, session: string, c: Session) {
    s' == s.(sessions := s.sessions[session := c])
  }

  /** A refresh rotates the token exactly if the session may be refreshed. */
  lemma RefreshIff(s: State, session: string, now: int, appActive: bool, login: Login)
    ensures RefreshVerdict(s, session, now, appActive) == Rotate <==> MayRefresh(s, session, now, appActive)
    ensures MayRefresh(s, session, now, appActive) ==>
              if login.tokenOk then
                OnlySession(s, ClientRefresh(s, session, now, appActive, login), session,
                            s.sessions[session].(token := login.token, expiresAt := login.expiresAt))
              else ClientRefresh(s, session, now, appActive, login) == s
  {
  }

  /** It revokes the session, if the write takes, exactly if it is expired, or current on a live device but not to be refreshed. */
  lemma RefreshRevokesIff(s: State, session: string, now: int, appActive: bool, login: Login)
    requires !MayRefresh(s, session, now, appActive)
    ensures var s' := ClientRefresh(s, session, now, appActive, login);
      if && login.revokeOk && session in s.sessions && !s.sessions[session].revoked
         && (|| now >= s.sessions[session].expiresAt
             || (appActive && s.sessions[session].device in s.devices && !s.devices[s.sessions[session].device].deleted))
      then OnlySession(s, s', session, s.sessions[session].(revoked := true))
      else s' == s
  {
    RefreshIff(s, session, now, appActive, login);
  }

  // ---------- activation and login ----------

  /** The sessions after one was issued on the device: its others revoked, if that write takes, and the new one kept. */
  function Issued(s: State, device: string, machine: string, app: string, customer: string, mode: Mode, login: Login)
    : map<string, Session>
  {
    var rest := map k | k in s.sessions ::
      if s.sessions[k].device == device && login.revokeOk then s.sessions[k].(revoked := true) else s.sessions[k];
    if login.tokenOk then rest[login.session := Session(device, machine, app, customer, mode, login.token, login.expiresAt, false)]
    else rest
  }

  /** The row the machine then has: its old one if it has any, else the one drawn. */
  function RowOf(s: State, owner: Owner, machine: string, login: Login): string {
    if exists d :: d in s.devices && s.devices[d].owner == owner && s.devices[d].machine == machine then login.row else login.device
  }

  /** The tables after the machine was let in on this grant. */
  function LetIn(s: State, owner: Owner, g: Grant, machine: string, customer: string, app: string, mode: Mode, login: Login): State {
    var d := RowOf(s, owner, machine, login);
    State(s.grants[owner := g], s.devices[d := Device(owner, machine, customer, false, false)],
          Issued(s, d, machine, app, customer, mode, login), s.blacklist)
  }

  lemma BindIff(s: State, owner: Owner, machine: string, customer: string, login: Login)
    requires Inv(s) && owner in s.grants && Draws(s, owner, machine, login)
    ensures var r, d := Bind(s, owner, machine, customer, login), RowOf(s, owner, machine, login);
      && (r.Some? <==> HasSlot(s, owner, machine))
      && (r.Some? ==> r.value == (s.(devices := s.devices[d := Device(owner, machine, customer, false, false)]), d))
  {
    var rows, live := RowsFor(s, owner, machine), LiveRows(s, owner);
    SlotDecision(s, owner, machine, customer, login);
    assert live == set d | d in s.devices && s.devices[d].owner == owner && !s.devices[d].deleted;
    assert rows != {} <==> exists d :: d in s.devices && s.devices[d].owner == owner && s.devices[d].machine == machine by {
      if d :| d in s.devices && s.devices[d].owner == owner && s.devices[d].machine == machine { assert d in rows; }
    }
    assert rows * live != {} <==>
        exists d :: d in s.devices && s.devices[d].owner == owner && s.devices[d].machine == machine && !s.devices[d].deleted by {
      if d :| d in s.devices && s.devices[d].owner == owner && s.devices[d].machine == machine && !s.devices[d].deleted {
        assert d in rows * live;
      }
    }
  }

  lemma AdmitIff(s: State, owner: Owner, machine: string, customer: string, app: string, mode: Mode, login: Login)
    requires Inv(s) && owner in s.grants && Draws(s, owner, machine, login)
    ensures var r := Admit(s, owner, machine, customer, app, mode, login);
      && (r.Some? <==> HasSlot(s, owner, machine))
      && (r.Some? ==> r.value == LetIn(s, owner, s.grants[owner], machine, customer, app, mode, login))
  {
    BindIff(s, owner, machine, customer, login);
    assert s.grants[owner := s.grants[owner]] == s.grants;
  }

  /** Slots depend on a grant's device limit alone. */
  lemma SlotKept(s: State, owner: Owner, g: Grant, machine: string)
    requires owner in s.grants && g.maxDevices == s.grants[owner].maxDevices
    ensures HasSlot(s.(grants := s.grants[owner := g]), owner, machine) <==> HasSlot(s, owner, machine)
  {
  }

  /** The licence once activated: a pending one starts its term now. */
  function Running(g: Grant, now: int, graceDays: int): Grant {
    if g.status != Pending then g
    else if g.durationDays == -1 then g.(status := Active, expireAt := None)
    else g.(status := Active, expireAt := Some(now + g.durationDays * 86400),
            graceExpireAt := Some(now + (g.durationDays + graceDays) * 86400))
  }

  /** Activation lets the machine in exactly if it may, and otherwise changes nothing. */
  lemma ActivateIff(s: State, license: string, app: string, machine: string, now: int, graceDays: int, login: Login)
    requires Inv(s) && Draws(s, Lic(license), machine, login)
    ensures Activate(s, license, app, machine, now, graceDays, login)
         == if MayActivate(s, license, app, machine, now, graceDays) then
              var g := s.grants[Lic(license)];
              LetIn(s, Lic(license), Running(g, now, graceDays), machine, g.customer.value, app, LicenseMode, login)
            else s
  {
    var owner := Lic(license);
    if owner in s.grants && s.grants[owner].customer.Some? {
      var g := s.grants[owner];
      StartedIsRunning(g, now, graceDays);
      var t := s.(grants := s.grants[owner := Running(g, now, graceDays)]);
      GrantsKeepInv(s, t.grants);
      assert RowsFor(t, owner, machine) == RowsFor(s, owner, machine) && LiveRows(t, owner) == LiveRows(s, owner);
      SlotKept(s, owner, Running(g, now, graceDays), machine);
      AdmitIff(t, owner, machine, g.customer.value, app, LicenseMode, login);
    }
  }

  lemma StartedIsRunning(g: Grant, now: int, graceDays: int)
    ensures Started(g, now, graceDays) == Running(g, now, graceDays)
    ensures g.customer.Some? && g.customer.value != "" && g.status != Revoked && g.status != Suspended ==>
              (!PastGrace(Started(g, now, graceDays), now) <==> Activatable(g, now, graceDays))
  {
  }

  /**
   A login lets the machine in exactly if it may; on a subscription that has run out it marks that, and
   otherwise it changes nothing.
   */
  lemma LoginIff(s: State, sub: string, customer: string, app: string, machine: string, now: int, login: Login)
    requires Inv(s) && Draws(s, Sub(sub), machine, login)
    ensures ClientLogin(s, sub, customer, app, machine, now, login)
         == if MayLogIn(s, sub, customer, app, machine, now) then
              LetIn(s, Sub(sub), s.grants[Sub(sub)], machine, customer, app, SubscriptionMode, login)
            else if OpenFor(s, sub, customer, app, machine) && s.grants[Sub(sub)].expireAt.Some?
                    && now > s.grants[Sub(sub)].expireAt.value then
              s.(grants := s.grants[Sub(sub) := s.grants[Sub(sub)].(status := Expired)])
            else s
  {
    if Sub(sub) in s.grants {
      AdmitIff(s, Sub(sub), machine, customer, app, SubscriptionMode, login);
    }
  }

  // ---------- unbinding ----------

  /** The tables after the device was unbound: its row soft-deleted, its sessions revoked, nothing else. */
  function Unbound(s: State, device: string): State
    requires device in s.devices
  {
    s.(devices := s.devices[device := s.devices[device].(deleted := true)],
       sessions := map k | k in s.sessions ::
         if s.sessions[k].device == device then s.sessions[k].(revoked := true) else s.sessions[k])
  }

  /** The same, with one unbind spent. */
  function Spent(s: State, device: string): State
    requires device in s.devices && s.devices[device].owner in s.grants
  {
    var owner := s.devices[device].owner;
    Unbound(s.(grants := s.grants[owner := s.grants[owner].(unbindUsed := s.grants[owner].unbindUsed + 1)]), device)
  }

  /** The grant behind the device is of this app and has an unbind left. */
  predicate MaySpend(s: State, device: string, app: string) {
    && device in s.devices && s.devices[device].owner in s.grants
    && var g := s.grants[s.devices[device].owner];
       g.app == app && g.unbindUsed < g.unbindLimit
  }

  lemma SpendIff(s: State, device: string, app: string)
    ensures SpendAndUnbind(s, device, app) == if MaySpend(s, device, app) then Spent(s, device) else s
  {
    if device in s.devices {
      UnboundIs(s, device);
      if MaySpend(s, device, app) {
        var owner := s.devices[device].owner;
        UnboundIs(s.(grants := s.grants[owner := s.grants[owner].(unbindUsed := s.grants[owner].unbindUsed + 1)]), device);
      }
    }
  }

  lemma UnboundIs(s: State, device: string)
    requires device in s.devices
    ensures Unbind(s, device) == Unbound(s, device)
  {
    assert Unbind(s, device).devices == Unbound(s, device).devices;
    assert Unbind(s, device).sessions == Unbound(s, device).sessions;
  }

  /** A live device of the machine, on a licence of the app that serves, and neither marked nor listed. */
  predicate MayDeactivate(s: State, device: string, app: string, machine: string, now: int) {
    && !Listed(s, machine, app)
    && device in s.devices && !s.devices[device].deleted && !s.devices[device].blacklisted
    && s.devices[device].machine == machine && s.devices[device].owner.Lic? && s.devices[device].owner in s.grants
    && var g := s.grants[s.devices[device].owner];
       g.app == app && Serves(s.devices[device].owner, g, now) && g.unbindUsed < g.unbindLimit
  }

  lemma DeactivateIff(s: State, device: string, app: string, machine: string, now: int)
    ensures Deactivate(s, device, app, machine, now)
         == if MayDeactivate(s, device, app, machine, now) then Spent(s, device) else s
  {
    SpendIff(s, device, app);
  }

  /**
   The session's own unbind: the session is unrevoked and unexpired, its device live and unmarked, the
   machine not listed, the request allowed, the grant of the session's kind and app with an unbind left,
   and in subscription mode the device the customer's, who knows the password.
   */
  predicate MayUnbindSelf(s: State, session: string, now: int, allowed: bool, passwordOk: bool) {
    && allowed && session in s.sessions && !s.sessions[session].revoked && now < s.sessions[session].expiresAt
    && var c := s.sessions[session];
       && c.device in s.devices && !s.devices[c.device].deleted && !s.devices[c.device].blacklisted
       && !Listed(s, c.machine, c.app)
       && var d := s.devices[c.device];
          && d.owner in s.grants && s.grants[d.owner].app == c.app
          && s.grants[d.owner].unbindUsed < s.grants[d.owner].unbindLimit
          && match c.mode
             case LicenseMode => d.owner.Lic?
             case SubscriptionMode => d.owner.Sub? && c.customer != "" && d.customer == c.customer && passwordOk
  }

  lemma SelfUnbindIff(s: State, session: string, now: int, allowed: bool, passwordOk: bool)
    ensures UnbindCurrentDevice(s, session, now, allowed, passwordOk)
         == if MayUnbindSelf(s, session, now, allowed, passwordOk) then Spent(s, s.sessions[session].device) else s
  {
    if session in s.sessions {
      SpendIff(s, s.sessions[session].device, s.sessions[session].app);
    }
  }

  // ---------- which row an unbind by machine finds ----------

  /** The rows of a machine under licences of an app that are not deleted. */
  predicate Candidate(s: State, d: string, app: string, machine: string) {
    && d in s.devices && !s.devices[d].deleted && s.devices[d].machine == machine
    && s.devices[d].owner.Lic? && s.devices[d].owner in s.grants && s.grants[s.devices[d].owner].app == app
  }

  /** The database lists them all, in some order. */
  ghost predicate Listing(s: State, rows: seq<string>, app: string, machine: string) {
    && (forall i :: 0 <= i < |rows| ==> Candidate(s, rows[i], app, machine))
    && (forall d :: d in s.devices && Candidate(s, d, app, machine) ==> d in rows)
  }

  /** A listed row whose licence serves, with no marked one and none that serves before it. */
  predicate FirstServing(s: State, rows: seq<string>, i: nat, now: int)
    requires i < |rows| && forall j :: 0 <= j < |rows| ==> rows[j] in s.devices && s.devices[rows[j]].owner in s.grants
  {
    && !s.devices[rows[i]].blacklisted && Serves(s.devices[rows[i]].owner, s.grants[s.devices[rows[i]].owner], now)
    && forall j :: 0 <= j < i ==>
         !s.devices[rows[j]].blacklisted && !Serves(s.devices[rows[j]].owner, s.grants[s.devices[rows[j]].owner], now)
  }

  // ---------- administrators ----------

  /** The tables after these devices went: soft-deleted, their sessions revoked. */
  function Without(s: State, gone: set<string>): State {
    s.(devices := map d | d in s.devices :: if d in gone then s.devices[d].(deleted := true) else s.devices[d],
       sessions := map k | k in s.sessions ::
         if s.sessions[k].device in gone then s.sessions[k].(revoked := true) else s.sessions[k])
  }

  lemma AdminUnbindIs(s: State, device: string)
    ensures AdminUnbind(s, device) == if device in s.devices && !s.devices[device].deleted then Unbound(s, device) else s
  {
    if device in s.devices {
      UnboundIs(s, device);
    }
  }

  /** All live devices of the licence go; its unbinds are not touched. */
  lemma ResetDevicesIs(s: State, license: string)
    ensures ResetDevices(s, license)
         == if Lic(license) in s.grants then
              Without(s, set d | d in s.devices && s.devices[d].owner == Lic(license) && !s.devices[d].deleted)
            else s
  {
    assert LiveRows(s, Lic(license)) == set d | d in s.devices && s.devices[d].owner == Lic(license) && !s.devices[d].deleted;
  }

  lemma ResetUnbindIs(s: State, owner: Owner)
    ensures ResetUnbindCount(s, owner)
         == if owner in s.grants then s.(grants := s.grants[owner := s.grants[owner].(unbindUsed := 0)]) else s
  {
  }

  /** The subscription goes, with all its live devices. */
  lemma DeleteSubscriptionIs(s: State, sub: string)
    ensures DeleteSubscription(s, sub)
         == if Sub(sub) in s.grants then
              var t := Without(s, set d | d in s.devices && s.devices[d].owner == Sub(sub) && !s.devices[d].deleted);
              t.(grants := s.grants - {Sub(sub)})
            else s
  {
    assert LiveRows(s, Sub(sub)) == set d | d in s.devices && s.devices[d].owner == Sub(sub) && !s.devices[d].deleted;
  }

  /** Only a licence that never started can be deleted. */
  lemma DeleteLicenseIs(s: State, license: string)
    ensures DeleteLicense(s, license)
         == if Lic(license) in s.grants && s.grants[Lic(license)].status == Pending then s.(grants := s.grants - {Lic(license)}) else s
  {
  }

  /**
   The customer's live devices and all the customer's sessions go; subscriptions are deleted, licences stay
   without a customer.
   */
  lemma DeleteCustomerIs(s: State, customer: string)
    ensures var t := DeleteCustomer(s, customer);
            var gone := set d | d in s.devices && s.devices[d].customer == customer && !s.devices[d].deleted;
      && t.devices == Without(s, gone).devices && t.blacklist == s.blacklist
      && t.sessions.Keys == s.sessions.Keys
      && (forall k :: k in s.sessions ==>
            t.sessions[k] == if s.sessions[k].customer == customer || s.sessions[k].device in gone
                             then s.sessions[k].(revoked := true) else s.sessions[k])
      && (forall o :: o in t.grants <==> o in s.grants && !(o.Sub? && s.grants[o].customer == Some(customer)))
      && (forall o :: o in t.grants ==>
            t.grants[o] == if s.grants[o].customer == Some(customer) then s.grants[o].(customer := None) else s.grants[o])
  {
    assert CustomerDevices(s, customer) == set d | d in s.devices && s.devices[d].customer == customer && !s.devices[d].deleted;
  }
}
