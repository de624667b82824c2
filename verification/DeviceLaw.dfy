/**
 Device slots, unbind budgets and client sessions, as one state machine over every handler that
 touches them (internal/handler/client.go, client_session.go, client_session_revoke.go,
 client_unbind_limit.go, device.go, license.go, customer.go, subscription.go). All rows belong to
 one tenant; a handler is one step.
 */
module DeviceLaw {
  import opened Common

  // ---------- rows ----------

  /** What a device row is bound to: exactly one licence or one subscription. */
  datatype Owner = Lic(id: string) | Sub(id: string)

  datatype GrantStatus = Pending | Active | Expired | Suspended | Revoked | Cancelled

  /** A licence or a subscription. */
  datatype Grant = Grant(
    app: string,
    customer: Option<string>,
    status: GrantStatus,
    durationDays: int,
    expireAt: Option<int>,
    graceExpireAt: Option<int>,
    maxDevices: int,
    unbindLimit: int,
    unbindUsed: int)

  /** `deleted` is the soft-delete mark; rows are never removed. */
  datatype Device = Device(owner: Owner, machine: string, customer: string, blacklisted: bool, deleted: bool)

  datatype Mode = LicenseMode | SubscriptionMode

  datatype Session = Session(
    device: string, machine: string, app: string, customer: string, mode: Mode, token: string, expiresAt: int, revoked: bool)

  /** Black-listed (machine, app) pairs; the empty app stands for every app. */
  datatype State = State(
    grants: map<Owner, Grant>,
    devices: map<string, Device>,
    sessions: map<string, Session>,
    blacklist: set<(string, string)>)

  const EMPTY := State(map[], map[], map[], {})
  const DAY := 86400

  // ---------- queries ----------

  predicate Blocked(s: State, machine: string, app: string) {
    (machine, app) in s.blacklist || (machine, "") in s.blacklist
  }

  predicate GrantValid(owner: Owner, g: Grant, now: int) {
    && g.status == Active
    && (g.expireAt.Some? && now > g.expireAt.value ==>
          owner.Lic? && g.graceExpireAt.Some? && now < g.graceExpireAt.value)
  }

  function LiveRows(s: State, owner: Owner): set<string> {
    set d | d in s.devices && s.devices[d].owner == owner && !s.devices[d].deleted
  }

  function DeadRows(s: State, owner: Owner): set<string> {
    set d | d in s.devices && s.devices[d].owner == owner && s.devices[d].deleted
  }

  function RowsFor(s: State, owner: Owner, machine: string): set<string> {
    set d | d in s.devices && s.devices[d].owner == owner && s.devices[d].machine == machine
  }

  function AppOf(s: State, d: Device): string {
    if d.owner in s.grants then s.grants[d.owner].app else ""
  }

  // ---------- building blocks ----------

  /** `revokeActiveClientSessionsForDevices`. */
  function RevokeFor(s: State, devices: set<string>): State {
    s.(sessions := map k | k in s.sessions :: if s.sessions[k].device in devices then s.sessions[k].(revoked := true)
                                              else s.sessions[k])
  }

  function RevokeCustomer(s: State, customer: string): State {
    s.(sessions := map k | k in s.sessions :: if s.sessions[k].customer == customer then s.sessions[k].(revoked := true)
                                              else s.sessions[k])
  }

  function RevokeOne(s: State, session: string): State {
    if session in s.sessions then s.(sessions := s.sessions[session := s.sessions[session].(revoked := true)]) else s
  }

  /** Soft delete. */
  function DeleteDevices(s: State, devices: set<string>): State {
    s.(devices := map d | d in s.devices :: if d in devices then s.devices[d].(deleted := true) else s.devices[d])
  }

  /** `issueClientSession`: one new session, after revoking whatever the device had; a failing revoke is ignored. */
  function Issue(s: State, device: string, app: string, customer: string, mode: Mode, login: Login): State {
    var r := if login.revokeOk then RevokeFor(s, {device}) else s;
    if login.tokenOk && device in s.devices then
      r.(sessions := r.sessions[login.session := Session(device, s.devices[device].machine, app, customer, mode,
                                                         login.token, login.expiresAt, false)])
    else r
  }

  /**
   What a login draws: fresh ids and tokens, whether the new session is kept (saved, and its access token
   signed), whether the unchecked revoking update takes, and the row the database answers when it is asked
   for the machine's existing row.
   */
  datatype Login = Login(device: string, session: string, token: string, expiresAt: int, tokenOk: bool, revokeOk: bool, row: string)

  /** `increaseLicenseUnbindUsed` / `increaseSubscriptionUnbindUsed`: a guarded increment. */
  function SpendUnbind(s: State, owner: Owner, app: string): Option<State> {
    if owner in s.grants && s.grants[owner].app == app && s.grants[owner].unbindUsed < s.grants[owner].unbindLimit then
      Some(s.(grants := s.grants[owner := s.grants[owner].(unbindUsed := s.grants[owner].unbindUsed + 1)]))
    else None
  }

  function Unbind(s: State, device: string): State {
    RevokeFor(DeleteDevices(s, {device}), {device})
  }

  /** Delete the device against the owner's budget; nothing happens when the budget is spent. */
  function SpendAndUnbind(s: State, device: string, app: string): State {
    if device !in s.devices then s
    else
      match SpendUnbind(s, s.devices[device].owner, app)
      case Some(paid) => Unbind(paid, device)
      case None => s
  }

  // ---------- client handlers ----------

  /** Claim a slot for the machine: reuse its live row, restore its deleted row, or insert one. */
  function Bind(s: State, owner: Owner, machine: string, customer: string, login: Login): Option<(State, string)>
    requires owner in s.grants
  {
    var rows, d := RowsFor(s, owner, machine), login.row;
    if rows * LiveRows(s, owner) == {} && |LiveRows(s, owner)| >= s.grants[owner].maxDevices then None
    else if rows == {} then
      Some((s.(devices := s.devices[login.device := Device(owner, machine, customer, false, false)]), login.device))
    else if d !in rows || s.devices[d].blacklisted then None
    else Some((s.(devices := s.devices[d := s.devices[d].(customer := customer, deleted := false)]), d))
  }

  /** Bind the machine, then issue its session. */
  function Admit(s: State, owner: Owner, machine: string, customer: string, app: string, mode: Mode, login: Login): Option<State>
    requires owner in s.grants
  {
    match Bind(s, owner, machine, customer, login)
    case None => None
    case Some(bound) => Some(Issue(bound.0, bound.1, app, customer, mode, login))
  }

  /** The licence row as `Activate` leaves it: a pending licence starts running now. */
  function Started(g: Grant, now: int, graceDays: int): Grant {
    if g.status != Pending then g
    else if g.durationDays == -1 then g.(status := Active, expireAt := None)
    else
      var end := now + g.durationDays * DAY;
      g.(status := Active, expireAt := Some(end), graceExpireAt := Some(end + graceDays * DAY))
  }

  predicate PastGrace(g: Grant, now: int) {
    g.expireAt.Some? && now > g.expireAt.value && (g.graceExpireAt.None? || now > g.graceExpireAt.value)
  }

  /** `Activate`. Any error rolls the transaction back; a failed token leaves the binding but no session. */
  function Activate(s: State, license: string, app: string, machine: string, now: int, graceDays: int, login: Login): State {
    var owner := Lic(license);
    if Blocked(s, machine, app) || owner !in s.grants || s.grants[owner].app != app then s
    else
      var g := s.grants[owner];
      if g.customer.None? || g.customer.value == "" || g.status == Revoked || g.status == Suspended then s
      else
        var g' := Started(g, now, graceDays);
        if PastGrace(g', now) then s
        else
          match Admit(s.(grants := s.grants[owner := g']), owner, machine, g.customer.value, app, LicenseMode, login)
          case None => s
          case Some(t) => t
  }

  /** `ClientLogin`, once the password is accepted and `sub` is the customer's active subscription. */
  function ClientLogin(s: State, sub: string, customer: string, app: string, machine: string, now: int, login: Login): State {
    var owner := Sub(sub);
    if Blocked(s, machine, app) || owner !in s.grants then s
    else
      var g := s.grants[owner];
      if g.app != app || g.customer != Some(customer) || g.status != Active then s
      else if !GrantValid(owner, g, now) then s.(grants := s.grants[owner := g.(status := Expired)])
      else
        match Admit(s, owner, machine, customer, app, SubscriptionMode, login)
        case None => s
        case Some(t) => t
  }

  /** What `ClientRefresh` decides, in the order it checks. */
  datatype Verdict = Unknown | DeviceGone | Revoke | Rotate

  function RefreshVerdict(s: State, session: string, now: int, appActive: bool): Verdict {
    if session !in s.sessions || s.sessions[session].revoked then Unknown
    else
      var c := s.sessions[session];
      if c.expiresAt <= now then Revoke
      else if !appActive then Unknown
      else if c.device !in s.devices || s.devices[c.device].deleted then DeviceGone
      else
        var d := s.devices[c.device];
        if d.machine != c.machine || d.blacklisted || Blocked(s, c.machine, c.app) then Revoke
        else if d.owner.Lic? != c.mode.LicenseMode? || d.owner !in s.grants then Revoke
        else
          var g := s.grants[d.owner];
          if g.app != c.app || !GrantValid(d.owner, g, now) then Revoke
          else if c.mode.SubscriptionMode? && c.customer != "" && g.customer != Some(c.customer) then Revoke
          else Rotate
  }

  function ClientRefresh(s: State, session: string, now: int, appActive: bool, login: Login): State {
    match RefreshVerdict(s, session, now, appActive)
    case Revoke => if login.revokeOk then RevokeOne(s, session) else s
    case Rotate =>
      if login.tokenOk then
        s.(sessions := s.sessions[session := s.sessions[session].(token := login.token, expiresAt := login.expiresAt)])
      else s
    case _ => s
  }

  /** A licence-bound device that `loadActiveLicenseDeviceForApp` may answer with. */
  predicate ActiveLicenseDevice(s: State, device: string, app: string, machine: string, now: int) {
    && !Blocked(s, machine, app)
    && device in s.devices && !s.devices[device].deleted && !s.devices[device].blacklisted
    && s.devices[device].machine == machine && s.devices[device].owner.Lic?
    && s.devices[device].owner in s.grants && s.grants[s.devices[device].owner].app == app
    && GrantValid(s.devices[device].owner, s.grants[s.devices[device].owner], now)
  }

  function Deactivate(s: State, device: string, app: string, machine: string, now: int): State {
    if ActiveLicenseDevice(s, device, app, machine, now) then SpendAndUnbind(s, device, app) else s
  }

  /** `AuthenticateClientRequest`. */
  predicate Authenticated(s: State, session: string, now: int) {
    && session in s.sessions && !s.sessions[session].revoked && s.sessions[session].expiresAt > now
    && var c := s.sessions[session];
       && c.device in s.devices && !s.devices[c.device].deleted && !s.devices[c.device].blacklisted
       && !Blocked(s, c.machine, c.app)
  }

  function UnbindCurrentDevice(s: State, session: string, now: int, allowed: bool, passwordOk: bool): State {
    if !Authenticated(s, session, now) || !allowed then s
    else
      var c := s.sessions[session];
      var d := s.devices[c.device];
      if c.mode.SubscriptionMode? && (c.customer == "" || !passwordOk || d.customer != c.customer) then s
      else if d.owner.Lic? != c.mode.LicenseMode? || AppOf(s, d) != c.app then s
      else SpendAndUnbind(s, c.device, c.app)
  }

  // ---------- administrator handlers ----------

  function AdminUnbind(s: State, device: string): State {
    if device in s.devices && !s.devices[device].deleted then Unbind(s, device) else s
  }

  function Blacklist(s: State, device: string): State {
    if device !in s.devices || s.devices[device].deleted then s
    else
      var d := s.devices[device];
      RevokeFor(
        s.(blacklist := s.blacklist + {(d.machine, AppOf(s, d))},
           devices := s.devices[device := d.(blacklisted := true)]),
        {device})
  }

  /**
   `Unblacklist`: the covering entries go, then the device's mark, in two statements; `unmarked` says
   whether the second one takes.
   */
  function Unblacklist(s: State, device: string, unmarked: bool): State {
    if device !in s.devices || s.devices[device].deleted then s
    else
      var d := s.devices[device];
      var doomed := s.blacklist * {(d.machine, AppOf(s, d)), (d.machine, "")};
      if doomed == {} then s
      else
        s.(blacklist := s.blacklist - doomed,
           devices := if unmarked then s.devices[device := d.(blacklisted := false)] else s.devices)
  }

  /** Entries that `RemoveFromBlacklist` deletes: one app's, the global one, or all of the machine's. */
  function Doomed(s: State, machine: string, app: string, globalOnly: bool): set<(string, string)> {
    set e | e in s.blacklist && e.0 == machine && (if app != "" then e.1 == app else globalOnly ==> e.1 == "")
  }

  /** Devices whose mark may be lifted once the entries are gone. */
  predicate Liftable(s: State, d: Device, machine: string, app: string) {
    && !d.deleted && d.machine == machine
    && (app != "" ==> d.owner in s.grants && s.grants[d.owner].app == app)
  }

  function RemoveFromBlacklist(s: State, machine: string, app: string, globalOnly: bool): State {
    var doomed := Doomed(s, machine, app, globalOnly);
    if doomed == {} || !(exists d :: d in s.devices && Liftable(s, s.devices[d], machine, app)) then s
    else
      var t := s.(blacklist := s.blacklist - doomed);
      t.(devices := map d | d in t.devices :: Lifted(t, t.devices[d], machine, app))
  }

  function Lifted(t: State, d: Device, machine: string, app: string): Device {
    if Liftable(t, d, machine, app) && d.blacklisted && !Blocked(t, machine, AppOf(t, d)) then d.(blacklisted := false) else d
  }

  function ResetDevices(s: State, license: string): State {
    if Lic(license) !in s.grants then s
    else DeleteDevices(RevokeFor(s, LiveRows(s, Lic(license))), LiveRows(s, Lic(license)))
  }

  function ResetUnbindCount(s: State, owner: Owner): State {
    if owner in s.grants then s.(grants := s.grants[owner := s.grants[owner].(unbindUsed := 0)]) else s
  }

  function CustomerDevices(s: State, customer: string): set<string> {
    set d | d in s.devices && s.devices[d].customer == customer && !s.devices[d].deleted
  }

  function DeleteCustomer(s: State, customer: string): State {
    var doomed := CustomerDevices(s, customer);
    var t := DeleteDevices(RevokeFor(RevokeCustomer(s, customer), doomed), doomed);
    t.(grants := DetachCustomer(t.grants, customer))
  }

  /** The customer's subscriptions go; the licences stay, without a customer. */
  function DetachCustomer(grants: map<Owner, Grant>, customer: string): map<Owner, Grant> {
    map o | o in grants && !(o.Sub? && grants[o].customer == Some(customer)) ::
      if grants[o].customer == Some(customer) then grants[o].(customer := None) else grants[o]
  }

  function DeleteSubscription(s: State, sub: string): State {
    var owner := Sub(sub);
    if owner !in s.grants then s
    else
      var t := DeleteDevices(RevokeFor(s, LiveRows(s, owner)), LiveRows(s, owner));
      t.(grants := t.grants - {owner})
  }

  function DeleteLicense(s: State, license: string): State {
    if Lic(license) in s.grants && s.grants[Lic(license)].status == Pending then s.(grants := s.grants - {Lic(license)}) else s
  }

  // ---------- runs ----------

  datatype Step =
    | ActivateStep(license: string, app: string, machine: string, now: int, graceDays: int, login: Login)
    | LoginStep(sub: string, customer: string, app: string, machine: string, now: int, login: Login)
    | RefreshStep(session: string, now: int, appActive: bool, login: Login)
    | LogoutStep(session: string)
    | DeactivateStep(device: string, app: string, machine: string, now: int)
    | SelfUnbindStep(session: string, now: int, allowed: bool, passwordOk: bool)
    | AdminUnbindStep(device: string)
    | BlacklistStep(device: string)
    | UnblacklistStep(device: string, unmarked: bool)
    | RemoveFromBlacklistStep(machine: string, app: string, globalOnly: bool)
    | ResetDevicesStep(license: string)
    | ResetUnbindStep(owner: Owner)
    | DeleteCustomerStep(customer: string)
    | DeleteSubscriptionStep(sub: string)
    | DeleteLicenseStep(license: string)
    | CreateGrantStep(owner: Owner, grant: Grant)
    | EditGrantStep(owner: Owner, grant: Grant)

  function Apply(s: State, step: Step): State {
    match step
    case ActivateStep(license, app, machine, now, graceDays, login) =>
      Activate(s, license, app, machine, now, graceDays, login)
    case LoginStep(sub, customer, app, machine, now, login) => ClientLogin(s, sub, customer, app, machine, now, login)
    case RefreshStep(session, now, appActive, login) => ClientRefresh(s, session, now, appActive, login)
    case LogoutStep(session) => RevokeOne(s, session)
    case DeactivateStep(device, app, machine, now) => Deactivate(s, device, app, machine, now)
    case SelfUnbindStep(session, now, allowed, passwordOk) => UnbindCurrentDevice(s, session, now, allowed, passwordOk)
    case AdminUnbindStep(device) => AdminUnbind(s, device)
    case BlacklistStep(device) => Blacklist(s, device)
    case UnblacklistStep(device, unmarked) => Unblacklist(s, device, unmarked)
    case RemoveFromBlacklistStep(machine, app, globalOnly) => RemoveFromBlacklist(s, machine, app, globalOnly)
    case ResetDevicesStep(license) => ResetDevices(s, license)
    case ResetUnbindStep(owner) => ResetUnbindCount(s, owner)
    case DeleteCustomerStep(customer) => DeleteCustomer(s, customer)
    case DeleteSubscriptionStep(sub) => DeleteSubscription(s, sub)
    case DeleteLicenseStep(license) => DeleteLicense(s, license)
    case CreateGrantStep(owner, grant) => s.(grants := s.grants[owner := grant])
    case EditGrantStep(owner, grant) => if owner in s.grants then s.(grants := s.grants[owner := grant]) else s
  }

  /** Drawn ids are new, and the database answers a row query with a row of the answer, live rows first. */
  predicate Draws(s: State, owner: Owner, machine: string, login: Login) {
    && login.device !in s.devices && login.session !in s.sessions
    && var rows := RowsFor(s, owner, machine);
       rows != {} ==> login.row in (if rows * LiveRows(s, owner) != {} then rows * LiveRows(s, owner) else rows)
  }

  /** Some answer to the row query, for a call that fails before asking it. */
  ghost function AnyRow(s: State, owner: Owner, machine: string): (d: string)
    ensures RowsFor(s, owner, machine) != {} ==>
              var rows := RowsFor(s, owner, machine);
              d in (if rows * LiveRows(s, owner) != {} then rows * LiveRows(s, owner) else rows)
  {
    var rows := RowsFor(s, owner, machine);
    if rows == {} then ""
    else if rows * LiveRows(s, owner) != {} then var d :| d in rows * LiveRows(s, owner); d
    else var d :| d in rows; d
  }

  /** A new grant starts unused and without rows; editing one moves neither its counter nor its app. */
  predicate Enabled(s: State, step: Step) {
    match step
    case ActivateStep(license, _, machine, _, _, login) => Draws(s, Lic(license), machine, login)
    case LoginStep(sub, _, _, machine, _, login) => Draws(s, Sub(sub), machine, login)
    case CreateGrantStep(owner, grant) =>
      owner !in s.grants && LiveRows(s, owner) + DeadRows(s, owner) == {} && grant.unbindUsed == 0 && grant.unbindLimit >= 0
    case EditGrantStep(owner, grant) =>
      owner in s.grants ==> grant.unbindUsed == s.grants[owner].unbindUsed && grant.app == s.grants[owner].app
    case _ => true
  }

  function Run(s: State, steps: seq<Step>): State {
    if steps == [] then s else Apply(Run(s, steps[..|steps| - 1]), steps[|steps| - 1])
  }

  predicate RunEnabled(s: State, steps: seq<Step>) {
    steps == [] ||
    (RunEnabled(s, steps[..|steps| - 1]) && Enabled(Run(s, steps[..|steps| - 1]), steps[|steps| - 1]))
  }

  lemma RunSnoc(s: State, steps: seq<Step>, step: Step)
    ensures Run(s, steps + [step]) == Apply(Run(s, steps), step)
    ensures RunEnabled(s, steps + [step]) <==> RunEnabled(s, steps) && Enabled(Run(s, steps), step)
  {
    assert (steps + [step])[..|steps|] == steps;
  }

  // ---------- the session invariant ----------

  /** An unrevoked session names a live device of its machine that is not black-listed. */
  predicate Anchored(s: State, session: string) {
    session in s.sessions && !s.sessions[session].revoked ==>
      var d := s.sessions[session].device;
      d in s.devices && !s.devices[d].deleted && !s.devices[d].blacklisted && s.devices[d].machine == s.sessions[session].machine
  }

  /** Two different sessions of one device are never both unrevoked. */
  predicate Exclusive(s: State, a: string, b: string) {
    a in s.sessions && b in s.sessions && a != b && s.sessions[a].device == s.sessions[b].device ==>
      s.sessions[a].revoked || s.sessions[b].revoked
  }

  /** The unique index on (owner, machine), which also covers deleted rows. */
  predicate OneRow(s: State, a: string, b: string) {
    a in s.devices && b in s.devices && a != b && s.devices[a].owner == s.devices[b].owner ==>
      s.devices[a].machine != s.devices[b].machine
  }

  ghost predicate Inv(s: State) {
    && (forall k :: Anchored(s, k))
    && (forall a, b :: OneRow(s, a, b))
  }

  /** Every device has at most one unrevoked session. */
  ghost predicate Single(s: State) {
    forall a, b :: Exclusive(s, a, b)
  }

  /** Sessions are only ever revoked, never moved, added or dropped. */
  ghost predicate OnlyRevokes(s: State, s': State) {
    && s'.sessions.Keys == s.sessions.Keys
    && forall k :: k in s.sessions ==>
         && s'.sessions[k].device == s.sessions[k].device && s'.sessions[k].machine == s.sessions[k].machine
         && (s.sessions[k].revoked ==> s'.sessions[k].revoked)
  }

  /** Device rows keep their owner and machine; a row that gets deleted or black-listed loses its sessions. */
  predicate RowCalm(s: State, s': State, d: string)
    requires d in s.devices && d in s'.devices
  {
    && s'.devices[d].owner == s.devices[d].owner && s'.devices[d].machine == s.devices[d].machine
    && ((s'.devices[d].deleted && !s.devices[d].deleted) || (s'.devices[d].blacklisted && !s.devices[d].blacklisted) ==>
          Sessionless(s', d))
  }

  predicate Sessionless(s: State, d: string) {
    forall k :: k in s.sessions && s.sessions[k].device == d ==> s.sessions[k].revoked
  }

  ghost predicate Calms(s: State, s': State) {
    && OnlyRevokes(s, s')
    && s'.devices.Keys == s.devices.Keys
    && forall d :: d in s.devices ==> RowCalm(s, s', d)
  }

  lemma CalmKeepsInv(s: State, s': State)
    requires Inv(s) && Calms(s, s')
    ensures Inv(s')
  {
    forall k ensures Anchored(s', k) { assert Anchored(s, k); }
    forall a, b ensures OneRow(s', a, b) { assert OneRow(s, a, b); }
  }

  lemma CalmKeepsSingle(s: State, s': State)
    requires Single(s) && OnlyRevokes(s, s')
    ensures Single(s')
  {
    forall a, b ensures Exclusive(s', a, b) { assert Exclusive(s, a, b); }
  }

  lemma BindKeepsInv(s: State, owner: Owner, machine: string, customer: string, login: Login)
    requires Inv(s) && owner in s.grants && login.device !in s.devices
    ensures var r := Bind(s, owner, machine, customer, login);
      r.Some? ==>
        && Inv(r.value.0) && r.value.1 in r.value.0.devices
        && var d := r.value.0.devices[r.value.1];
           d.owner == owner && d.machine == machine && !d.deleted && !d.blacklisted
  {
    var r := Bind(s, owner, machine, customer, login);
    if r.Some? {
      var s' := r.value.0;
      forall k ensures Anchored(s', k) { assert Anchored(s, k); }
      forall a, b ensures OneRow(s', a, b) {
        assert OneRow(s, a, b);
        assert a in s.devices && s.devices[a].owner == owner && s.devices[a].machine == machine ==>
            a in RowsFor(s, owner, machine);
        assert b in s.devices && s.devices[b].owner == owner && s.devices[b].machine == machine ==>
            b in RowsFor(s, owner, machine);
      }
    }
  }

  lemma IssueKeepsInv(s: State, device: string, app: string, customer: string, mode: Mode, login: Login)
    requires Inv(s) && login.session !in s.sessions
    requires device in s.devices && !s.devices[device].deleted && !s.devices[device].blacklisted
    ensures Inv(Issue(s, device, app, customer, mode, login))
  {
    var s' := Issue(s, device, app, customer, mode, login);
    forall k ensures Anchored(s', k) { assert Anchored(s, k); }
    forall a, b ensures OneRow(s', a, b) { assert OneRow(s, a, b); }
  }

  /** The new session is the device's only one exactly if the revoke took, or there was nothing to revoke. */
  lemma IssueKeepsSingleIff(s: State, device: string, app: string, customer: string, mode: Mode, login: Login)
    requires Single(s) && login.session !in s.sessions && device in s.devices
    ensures Single(Issue(s, device, app, customer, mode, login)) <==> login.revokeOk || !login.tokenOk || Sessionless(s, device)
  {
    var s' := Issue(s, device, app, customer, mode, login);
    if login.revokeOk || !login.tokenOk || Sessionless(s, device) {
      forall a, b ensures Exclusive(s', a, b) { assert Exclusive(s, a, b); }
    } else {
      var k :| k in s.sessions && s.sessions[k].device == device && !s.sessions[k].revoked;
      assert !Exclusive(s', k, login.session);
    }
  }

  lemma GrantsKeepInv(s: State, grants: map<Owner, Grant>)
    requires Inv(s)
    ensures Inv(s.(grants := grants))
  {
    CalmKeepsInv(s, s.(grants := grants));
  }

  lemma ActivateKeepsInv(s: State, license: string, app: string, machine: string, now: int, graceDays: int, login: Login)
    requires Inv(s) && Draws(s, Lic(license), machine, login)
    ensures Inv(Activate(s, license, app, machine, now, graceDays, login))
  {
    var owner := Lic(license);
    if owner in s.grants && s.grants[owner].customer.Some? {
      var s1 := s.(grants := s.grants[owner := Started(s.grants[owner], now, graceDays)]);
      GrantsKeepInv(s, s1.grants);
      var customer := s.grants[owner].customer.value;
      BindKeepsInv(s1, owner, machine, customer, login);
      var bound := Bind(s1, owner, machine, customer, login);
      if bound.Some? {
        IssueKeepsInv(bound.value.0, bound.value.1, app, customer, LicenseMode, login);
      }
    }
  }

  lemma LoginKeepsInv(s: State, sub: string, customer: string, app: string, machine: string, now: int, login: Login)
    requires Inv(s) && Draws(s, Sub(sub), machine, login)
    ensures Inv(ClientLogin(s, sub, customer, app, machine, now, login))
  {
    var owner := Sub(sub);
    if owner in s.grants {
      GrantsKeepInv(s, s.grants[owner := s.grants[owner].(status := Expired)]);
      BindKeepsInv(s, owner, machine, customer, login);
      var bound := Bind(s, owner, machine, customer, login);
      if bound.Some? {
        IssueKeepsInv(bound.value.0, bound.value.1, app, customer, SubscriptionMode, login);
      }
    }
  }

  lemma UnbindIsCalm(s: State, device: string, app: string)
    ensures Calms(s, Unbind(s, device)) && Calms(s, SpendAndUnbind(s, device, app))
  {
  }

  lemma RefreshIsCalm(s: State, session: string, now: int, appActive: bool, login: Login)
    ensures Calms(s, ClientRefresh(s, session, now, appActive, login))
  {
    var s' := ClientRefresh(s, session, now, appActive, login);
    assert s'.devices == s.devices;
    assert OnlyRevokes(s, s');
  }

  lemma BlacklistIsCalm(s: State, device: string)
    ensures Calms(s, Blacklist(s, device))
  {
    var s' := Blacklist(s, device);
    assert OnlyRevokes(s, s');
  }

  lemma UnblacklistIsCalm(s: State, device: string, unmarked: bool)
    ensures Calms(s, Unblacklist(s, device, unmarked))
  {
  }

  lemma LiftIsCalm(s: State, machine: string, app: string, globalOnly: bool)
    ensures Calms(s, RemoveFromBlacklist(s, machine, app, globalOnly))
  {
  }

  /** Revoking and deleting the same set of devices, in either order. */
  lemma BulkDeleteIsCalm(s: State, devices: set<string>)
    ensures Calms(s, DeleteDevices(RevokeFor(s, devices), devices))
  {
  }

  lemma DeleteCustomerIsCalm(s: State, customer: string)
    ensures Calms(s, DeleteCustomer(s, customer))
  {
    var doomed, t := CustomerDevices(s, customer), RevokeCustomer(s, customer);
    assert OnlyRevokes(s, t) && t.devices == s.devices;
    BulkDeleteIsCalm(t, doomed);
  }

  lemma StepKeepsInv(s: State, step: Step)
    requires Inv(s) && Enabled(s, step)
    ensures Inv(Apply(s, step))
  {
    match step {
      case ActivateStep(license, app, machine, now, graceDays, login) =>
        ActivateKeepsInv(s, license, app, machine, now, graceDays, login);
      case LoginStep(sub, customer, app, machine, now, login) => LoginKeepsInv(s, sub, customer, app, machine, now, login);
      case _ =>
        OtherStepIsCalm(s, step);
        CalmKeepsInv(s, Apply(s, step));
    }
  }

  lemma OtherStepIsCalm(s: State, step: Step)
    requires !step.ActivateStep? && !step.LoginStep?
    ensures Calms(s, Apply(s, step))
  {
    match step {
      case RefreshStep(session, now, appActive, login) => RefreshIsCalm(s, session, now, appActive, login);
      case DeactivateStep(_, _, _, _) => ClientUnbindIsCalm(s, step);
      case SelfUnbindStep(_, _, _, _) => ClientUnbindIsCalm(s, step);
      case AdminUnbindStep(_) => AdminStepIsCalm(s, step);
      case BlacklistStep(device) => BlacklistIsCalm(s, device);
      case UnblacklistStep(device, unmarked) => UnblacklistIsCalm(s, device, unmarked);
      case RemoveFromBlacklistStep(machine, app, globalOnly) => LiftIsCalm(s, machine, app, globalOnly);
      case ResetDevicesStep(_) => AdminStepIsCalm(s, step);
      case DeleteCustomerStep(customer) => DeleteCustomerIsCalm(s, customer);
      case DeleteSubscriptionStep(_) => AdminStepIsCalm(s, step);
      case _ => GrantStepIsCalm(s, step);
    }
  }

  lemma ClientUnbindIsCalm(s: State, step: Step)
    requires step.DeactivateStep? || step.SelfUnbindStep?
    ensures Calms(s, Apply(s, step))
  {
    match step
    case DeactivateStep(device, app, _, _) => UnbindIsCalm(s, device, app);
    case SelfUnbindStep(session, _, _, _) =>
      if session in s.sessions {
        UnbindIsCalm(s, s.sessions[session].device, s.sessions[session].app);
      }
  }

  lemma AdminStepIsCalm(s: State, step: Step)
    requires step.AdminUnbindStep? || step.ResetDevicesStep? || step.DeleteSubscriptionStep?
    ensures Calms(s, Apply(s, step))
  {
    match step
    case AdminUnbindStep(device) => UnbindIsCalm(s, device, "");
    case ResetDevicesStep(license) => BulkDeleteIsCalm(s, LiveRows(s, Lic(license)));
    case DeleteSubscriptionStep(sub) => BulkDeleteIsCalm(s, LiveRows(s, Sub(sub)));
  }

  lemma GrantStepIsCalm(s: State, step: Step)
    requires step.LogoutStep? || step.ResetUnbindStep? || step.DeleteLicenseStep? || step.CreateGrantStep? || step.EditGrantStep?
    ensures Calms(s, Apply(s, step))
  {
    match step
    case LogoutStep(session) => LogoutIsCalm(s, session);
    case _ => SameRowsAreCalm(s, Apply(s, step));
  }

  lemma LogoutIsCalm(s: State, session: string)
    ensures Calms(s, RevokeOne(s, session))
  {
  }

  lemma SameRowsAreCalm(s: State, s': State)
    requires s'.devices == s.devices && s'.sessions == s.sessions
    ensures Calms(s, s')
  {
  }

  /** The steps that issue sessions. */
  predicate Issues(step: Step) {
    step.ActivateStep? || step.LoginStep?
  }

  lemma ActivateKeepsSingle(s: State, license: string, app: string, machine: string, now: int, graceDays: int, login: Login)
    requires Single(s) && Draws(s, Lic(license), machine, login) && login.revokeOk
    ensures Single(Activate(s, license, app, machine, now, graceDays, login))
  {
    var owner := Lic(license);
    if owner in s.grants && s.grants[owner].customer.Some? {
      var s1 := s.(grants := s.grants[owner := Started(s.grants[owner], now, graceDays)]);
      var customer := s.grants[owner].customer.value;
      var bound := Bind(s1, owner, machine, customer, login);
      if bound.Some? {
        CalmKeepsSingle(s, bound.value.0);
        IssueKeepsSingleIff(bound.value.0, bound.value.1, app, customer, LicenseMode, login);
      }
    }
  }

  lemma LoginKeepsSingle(s: State, sub: string, customer: string, app: string, machine: string, now: int, login: Login)
    requires Single(s) && Draws(s, Sub(sub), machine, login) && login.revokeOk
    ensures Single(ClientLogin(s, sub, customer, app, machine, now, login))
  {
    var owner := Sub(sub);
    if owner in s.grants {
      CalmKeepsSingle(s, s.(grants := s.grants[owner := s.grants[owner].(status := Expired)]));
      var bound := Bind(s, owner, machine, customer, login);
      if bound.Some? {
        CalmKeepsSingle(s, bound.value.0);
        IssueKeepsSingleIff(bound.value.0, bound.value.1, app, customer, SubscriptionMode, login);
      }
    }
  }

  lemma StepKeepsSingle(s: State, step: Step)
    requires Single(s) && Enabled(s, step) && (Issues(step) ==> step.login.revokeOk)
    ensures Single(Apply(s, step))
  {
    match step {
      case ActivateStep(license, app, machine, now, graceDays, login) =>
        ActivateKeepsSingle(s, license, app, machine, now, graceDays, login);
      case LoginStep(sub, customer, app, machine, now, login) => LoginKeepsSingle(s, sub, customer, app, machine, now, login);
      case _ =>
        OtherStepIsCalm(s, step);
        CalmKeepsSingle(s, Apply(s, step));
    }
  }

  // ---------- main results ----------

  /**
   In every reachable state an unrevoked session names a live, not black-listed device of its own machine,
   and an owner has one row per machine.
   */
  lemma {:induction false} SessionsStayAnchored(steps: seq<Step>)
    requires RunEnabled(EMPTY, steps)
    ensures Inv(Run(EMPTY, steps))
  {
    if steps != [] {
      SessionsStayAnchored(steps[..|steps| - 1]);
      StepKeepsInv(Run(EMPTY, steps[..|steps| - 1]), steps[|steps| - 1]);
    }
  }

  /** And a device has at most one unrevoked session, as long as no revoking update fails while one is issued. */
  lemma {:induction false} OneSessionPerDevice(steps: seq<Step>)
    requires RunEnabled(EMPTY, steps)
    requires forall i :: 0 <= i < |steps| && Issues(steps[i]) ==> steps[i].login.revokeOk
    ensures Single(Run(EMPTY, steps))
  {
    if steps != [] {
      OneSessionPerDevice(steps[..|steps| - 1]);
      StepKeepsSingle(Run(EMPTY, steps[..|steps| - 1]), steps[|steps| - 1]);
    }
  }

  /** One failing revoke is enough: two logins from one machine leave two sessions that both work. */
  lemma FailedRevokeLeavesTwo(grant: Grant, first: Login, second: Login, now: int)
    requires grant == Grant("app", Some("c"), Active, 0, None, None, 1, 0, 0)
    requires first.tokenOk && second.tokenOk && !second.revokeOk && first.session != second.session
    requires second.row == first.device && second.device != first.device
    requires first.expiresAt > now && second.expiresAt > now
    ensures var a, b := LoginStep("s", "c", "app", "m", 0, first), LoginStep("s", "c", "app", "m", 1, second);
            var steps := [CreateGrantStep(Sub("s"), grant), a, b];
            && RunEnabled(EMPTY, steps) && !Exclusive(Run(EMPTY, steps), first.session, second.session)
            && Authenticated(Run(EMPTY, steps), first.session, now) && Authenticated(Run(EMPTY, steps), second.session, now)
  {
    var create := CreateGrantStep(Sub("s"), grant);
    var a, b := LoginStep("s", "c", "app", "m", 0, first), LoginStep("s", "c", "app", "m", 1, second);
    assert [create, a, b] == [create, a] + [b];
    RunSnoc(EMPTY, [create, a], b);
    LoggedIn(grant, first);
    SecondLogin(Run(EMPTY, [create, a]), grant, first, second, now);
  }

  /** One grant and one login. */
  lemma LoggedIn(grant: Grant, login: Login)
    requires grant == Grant("app", Some("c"), Active, 0, None, None, 1, 0, 0) && login.tokenOk
    ensures var steps := [CreateGrantStep(Sub("s"), grant), LoginStep("s", "c", "app", "m", 0, login)];
      && RunEnabled(EMPTY, steps)
      && Run(EMPTY, steps)
         == State(map[Sub("s") := grant], map[login.device := Device(Sub("s"), "m", "c", false, false)],
                  map[login.session := Session(login.device, "m", "app", "c", SubscriptionMode, login.token, login.expiresAt, false)], {})
  {
    var create, enter := CreateGrantStep(Sub("s"), grant), LoginStep("s", "c", "app", "m", 0, login);
    assert [create, enter] == [create] + [enter] && [create] == [] + [create];
    RunSnoc(EMPTY, [], create);
    RunSnoc(EMPTY, [create], enter);
    var granted := State(map[Sub("s") := grant], map[], map[], {});
    assert LiveRows(EMPTY, Sub("s")) + DeadRows(EMPTY, Sub("s")) == {};
    assert Run(EMPTY, [create]) == granted;
    FirstLogin(granted, grant, login);
  }

  lemma FirstLogin(s: State, grant: Grant, login: Login)
    requires grant == Grant("app", Some("c"), Active, 0, None, None, 1, 0, 0) && login.tokenOk
    requires s == State(map[Sub("s") := grant], map[], map[], {})
    ensures Draws(s, Sub("s"), "m", login)
    ensures ClientLogin(s, "s", "c", "app", "m", 0, login)
         == State(s.grants, map[login.device := Device(Sub("s"), "m", "c", false, false)],
                  map[login.session := Session(login.device, "m", "app", "c", SubscriptionMode, login.token, login.expiresAt, false)], {})
  {
    assert RowsFor(s, Sub("s"), "m") == {} && LiveRows(s, Sub("s")) == {};
  }

  lemma SecondLogin(s: State, grant: Grant, first: Login, second: Login, now: int)
    requires grant == Grant("app", Some("c"), Active, 0, None, None, 1, 0, 0) && second.tokenOk && !second.revokeOk
    requires first.session != second.session && second.row == first.device && second.device != first.device
    requires s == State(map[Sub("s") := grant], map[first.device := Device(Sub("s"), "m", "c", false, false)],
                        map[first.session := Session(first.device, "m", "app", "c", SubscriptionMode, first.token, first.expiresAt, false)], {})
    ensures Draws(s, Sub("s"), "m", second)
    requires first.expiresAt > now && second.expiresAt > now
    ensures var t := ClientLogin(s, "s", "c", "app", "m", 1, second);
            && !Exclusive(t, first.session, second.session)
            && Authenticated(t, first.session, now) && Authenticated(t, second.session, now)
  {
    assert RowsFor(s, Sub("s"), "m") == {first.device} && LiveRows(s, Sub("s")) == {first.device};
  }

  /**
   So a refresh never meets a missing device, a changed machine or a black-listed row: those guards of
   `ClientRefresh` are unreachable, and what is left is expiry, the black list and the entitlement.
   */
  lemma RefreshGuardsUnreachable(steps: seq<Step>, session: string, now: int, appActive: bool)
    requires RunEnabled(EMPTY, steps)
    ensures var s := Run(EMPTY, steps);
      && RefreshVerdict(s, session, now, appActive) != DeviceGone
      && (session in s.sessions && !s.sessions[session].revoked ==>
            var c := s.sessions[session];
            c.device in s.devices && s.devices[c.device].machine == c.machine && !s.devices[c.device].blacklisted)
  {
    SessionsStayAnchored(steps);
    assert Anchored(Run(EMPTY, steps), session);
  }

  /**
   Who gets a slot, in any reachable state: a machine whose row is not black-listed, and which already
   holds a live row or finds the licence below its limit. It then holds exactly one row, live.
   */
  lemma SlotDecision(s: State, owner: Owner, machine: string, customer: string, login: Login)
    requires Inv(s) && owner in s.grants && Draws(s, owner, machine, login)
    ensures var r := Bind(s, owner, machine, customer, login);
      && (r.Some? <==>
            && (forall d :: d in RowsFor(s, owner, machine) ==> !s.devices[d].blacklisted)
            && (RowsFor(s, owner, machine) * LiveRows(s, owner) != {} || |LiveRows(s, owner)| < s.grants[owner].maxDevices))
      && (r.Some? ==>
            && RowsFor(r.value.0, owner, machine) == {r.value.1}
            && r.value.1 in LiveRows(r.value.0, owner) && r.value.0.devices[r.value.1].customer == customer)
  {
    var rows, r := RowsFor(s, owner, machine), Bind(s, owner, machine, customer, login);
    if rows != {} {
      forall d | d in rows ensures d == login.row { assert OneRow(s, d, login.row); }
    }
    if r.Some? {
      var s' := r.value.0;
      forall d | d in RowsFor(s', owner, machine) ensures d == r.value.1 {
        if d in s.devices { assert d in rows; }
      }
      assert r.value.1 in RowsFor(s', owner, machine);
    }
  }

  /** Revocation is final: no later step, login or refresh brings a revoked session back. */
  lemma {:induction false} RevokedForever(s: State, steps: seq<Step>, session: string)
    requires RunEnabled(s, steps) && session in s.sessions && s.sessions[session].revoked
    ensures session in Run(s, steps).sessions && Run(s, steps).sessions[session].revoked
  {
    if steps != [] {
      RevokedForever(s, steps[..|steps| - 1], session);
      RevokedStays(Run(s, steps[..|steps| - 1]), steps[|steps| - 1], session);
    }
  }

  lemma RevokedStays(s: State, step: Step, session: string)
    requires Enabled(s, step) && session in s.sessions && s.sessions[session].revoked
    ensures session in Apply(s, step).sessions && Apply(s, step).sessions[session].revoked
  {
    if !step.ActivateStep? && !step.LoginStep? {
      OtherStepIsCalm(s, step);
    }
  }

  // ---------- the device budget ----------

  function AllRows(s: State, owner: Owner): set<string> {
    LiveRows(s, owner) + DeadRows(s, owner)
  }

  function Machines(s: State, owner: Owner): set<string> {
    set d | d in AllRows(s, owner) :: MachineOf(s, d)
  }

  function MachineOf(s: State, d: string): string {
    if d in s.devices then s.devices[d].machine else ""
  }

  /** What an administrator's step adds to the owner's budget: rows removed for free, and spent unbinds forgiven. */
  function Slack(s: State, step: Step, owner: Owner): int {
    match step
    case AdminUnbindStep(d) => |LiveRows(s, owner) * {d}|
    case ResetDevicesStep(license) => if Lic(license) == owner && owner in s.grants then |LiveRows(s, owner)| else 0
    case DeleteCustomerStep(customer) => |LiveRows(s, owner) * CustomerDevices(s, customer)|
    case DeleteSubscriptionStep(sub) => if Sub(sub) == owner && owner in s.grants then |LiveRows(s, owner)| else 0
    case ResetUnbindStep(o) => if o == owner && owner in s.grants then s.grants[owner].unbindUsed else 0
    case _ => 0
  }

  function TotalSlack(s: State, steps: seq<Step>, owner: Owner): int {
    if steps == [] then 0
    else
      var front := steps[..|steps| - 1];
      TotalSlack(s, front, owner) + Slack(Run(s, front), steps[|steps| - 1], owner)
  }

  /** The step leaves the owner's limits at `max` devices and `limit` unbinds. */
  predicate KeepsLimits(step: Step, owner: Owner, max: int, limit: int) {
    match step
    case CreateGrantStep(o, g) => o == owner ==> g.maxDevices == max && g.unbindLimit == limit
    case EditGrantStep(o, g) => o == owner ==> g.maxDevices == max && g.unbindLimit == limit
    case _ => true
  }

  /** Live rows fit the device limit; deleted rows are paid for by spent unbinds and by slack. */
  predicate Budget(s: State, owner: Owner, max: int, limit: int, slack: int) {
    && |LiveRows(s, owner)| <= max
    && |DeadRows(s, owner)| <= (if owner in s.grants then s.grants[owner].unbindUsed else limit) + slack
    && (owner in s.grants ==>
          s.grants[owner].maxDevices == max && s.grants[owner].unbindLimit == limit && 0 <= s.grants[owner].unbindUsed <= limit)
  }

  lemma BindBudget(s: State, o: Owner, machine: string, customer: string, login: Login, owner: Owner,
                   max: int, limit: int, slack: int)
    requires Budget(s, owner, max, limit, slack) && o in s.grants && Draws(s, o, machine, login)
    ensures var r := Bind(s, o, machine, customer, login);
      r.Some? ==> Budget(r.value.0, owner, max, limit, slack)
  {
    var r := Bind(s, o, machine, customer, login);
    if r.Some? {
      var d := r.value.1;
      PutLiveRow(s, d, r.value.0.devices[d], owner);
      if o == owner && d !in LiveRows(s, owner) {
        assert d in s.devices ==> d in RowsFor(s, o, machine);
        assert RowsFor(s, o, machine) * LiveRows(s, owner) == {};
      }
    }
  }

  /** Writing a live row of owner `row.owner` under `d`, where `d` was new or already that owner's. */
  lemma PutLiveRow(s: State, d: string, row: Device, owner: Owner)
    requires !row.deleted && (d in s.devices ==> s.devices[d].owner == row.owner)
    ensures var s' := s.(devices := s.devices[d := row]);
      && |LiveRows(s', owner)| <= |LiveRows(s, owner)| + (if row.owner != owner || d in LiveRows(s, owner) then 0 else 1)
      && |DeadRows(s', owner)| <= |DeadRows(s, owner)|
  {
    var s' := s.(devices := s.devices[d := row]);
    PutLiveAdds(s, s', d, row, owner);
    SubsetSize(DeadRows(s', owner), DeadRows(s, owner));
  }

  lemma PutLiveAdds(s: State, s': State, d: string, row: Device, owner: Owner)
    requires !row.deleted && (d in s.devices ==> s.devices[d].owner == row.owner) && s'.devices == s.devices[d := row]
    ensures LiveRows(s', owner) == LiveRows(s, owner) + if row.owner == owner then {d} else {}
    ensures DeadRows(s', owner) <= DeadRows(s, owner)
  {
  }

  lemma IssueBudget(s: State, device: string, app: string, customer: string, mode: Mode, login: Login, owner: Owner,
                    max: int, limit: int, slack: int)
    requires Budget(s, owner, max, limit, slack)
    ensures Budget(Issue(s, device, app, customer, mode, login), owner, max, limit, slack)
  {
    SameDevicesSameRows(s, Issue(s, device, app, customer, mode, login), owner);
  }

  lemma SameDevicesSameRows(s: State, s': State, owner: Owner)
    requires s'.devices.Keys == s.devices.Keys
    requires forall d :: d in s.devices ==> s'.devices[d].owner == s.devices[d].owner && s'.devices[d].deleted == s.devices[d].deleted
    ensures LiveRows(s', owner) == LiveRows(s, owner) && DeadRows(s', owner) == DeadRows(s, owner)
  {
  }

  /** Deleting a set of devices moves the owner's live ones among them to the dead. */
  lemma DeletionMoves(s: State, s': State, gone: set<string>, owner: Owner)
    requires s'.devices == DeleteDevices(s, gone).devices
    ensures LiveRows(s', owner) == LiveRows(s, owner) - gone
    ensures |LiveRows(s', owner)| <= |LiveRows(s, owner)|
    ensures |DeadRows(s', owner)| == |DeadRows(s, owner)| + |LiveRows(s, owner) * gone|
  {
    DeletionMovesRows(s, s', gone, owner);
    SubsetSize(LiveRows(s', owner), LiveRows(s, owner));
  }

  lemma DeletionMovesRows(s: State, s': State, gone: set<string>, owner: Owner)
    requires s'.devices == DeleteDevices(s, gone).devices
    ensures LiveRows(s', owner) == LiveRows(s, owner) - gone
    ensures DeadRows(s', owner) == DeadRows(s, owner) + LiveRows(s, owner) * gone
    ensures DeadRows(s, owner) !! LiveRows(s, owner) * gone
  {
  }

  lemma SpendBudget(s: State, device: string, app: string, owner: Owner, max: int, limit: int, slack: int)
    requires Budget(s, owner, max, limit, slack)
    ensures Budget(SpendAndUnbind(s, device, app), owner, max, limit, slack)
  {
    var s' := SpendAndUnbind(s, device, app);
    if device in s.devices && SpendUnbind(s, s.devices[device].owner, app).Some? {
      DeletionMoves(s, s', {device}, owner);
      if s.devices[device].owner == owner {
        SubsetSize(LiveRows(s, owner) * {device}, {device});
      } else {
        assert LiveRows(s, owner) * {device} == {};
      }
    }
  }

  lemma AdmitBudget(s: State, o: Owner, machine: string, customer: string, app: string, mode: Mode, login: Login,
                    owner: Owner, max: int, limit: int, slack: int)
    requires Budget(s, owner, max, limit, slack) && o in s.grants && Draws(s, o, machine, login)
    ensures var t := Admit(s, o, machine, customer, app, mode, login); t.Some? ==> Budget(t.value, owner, max, limit, slack)
  {
    var bound := Bind(s, o, machine, customer, login);
    BindBudget(s, o, machine, customer, login, owner, max, limit, slack);
    if bound.Some? {
      IssueBudget(bound.value.0, bound.value.1, app, customer, mode, login, owner, max, limit, slack);
    }
  }

  lemma ActivateBudget(s: State, license: string, app: string, machine: string, now: int, graceDays: int, login: Login,
                       owner: Owner, max: int, limit: int, slack: int)
    requires Budget(s, owner, max, limit, slack) && Draws(s, Lic(license), machine, login)
    ensures Budget(Activate(s, license, app, machine, now, graceDays, login), owner, max, limit, slack)
  {
    var o := Lic(license);
    if o in s.grants && s.grants[o].customer.Some? {
      var s1 := s.(grants := s.grants[o := Started(s.grants[o], now, graceDays)]);
      SameDevicesSameRows(s, s1, owner);
      assert RowsFor(s1, o, machine) == RowsFor(s, o, machine) && LiveRows(s1, o) == LiveRows(s, o);
      AdmitBudget(s1, o, machine, s.grants[o].customer.value, app, LicenseMode, login, owner, max, limit, slack);
    }
  }

  lemma ClientLoginBudget(s: State, sub: string, customer: string, app: string, machine: string, now: int, login: Login,
                          owner: Owner, max: int, limit: int, slack: int)
    requires Budget(s, owner, max, limit, slack) && Draws(s, Sub(sub), machine, login)
    ensures Budget(ClientLogin(s, sub, customer, app, machine, now, login), owner, max, limit, slack)
  {
    var o := Sub(sub);
    if o in s.grants {
      SameDevicesSameRows(s, s.(grants := s.grants[o := s.grants[o].(status := Expired)]), owner);
      AdmitBudget(s, o, machine, customer, app, SubscriptionMode, login, owner, max, limit, slack);
    }
  }

  /** Deleting a set of the owner's rows for free costs as much slack as it moves live rows. */
  lemma FreeDeletionBudget(s: State, s': State, gone: set<string>, owner: Owner, max: int, limit: int, slack: int)
    requires Budget(s, owner, max, limit, slack)
    requires s'.devices == DeleteDevices(s, gone).devices
    requires owner in s'.grants ==>
               && owner in s.grants && s'.grants[owner].maxDevices == s.grants[owner].maxDevices
               && s'.grants[owner].unbindLimit == s.grants[owner].unbindLimit
               && s'.grants[owner].unbindUsed == s.grants[owner].unbindUsed
    ensures Budget(s', owner, max, limit, slack + |LiveRows(s, owner) * gone|)
  {
    DeletionMoves(s, s', gone, owner);
  }

  lemma AdminUnbindBudget(s: State, d: string, owner: Owner, max: int, limit: int, slack: int)
    requires Budget(s, owner, max, limit, slack)
    ensures Budget(AdminUnbind(s, d), owner, max, limit, slack + |LiveRows(s, owner) * {d}|)
  {
    if d in s.devices && !s.devices[d].deleted {
      FreeDeletionBudget(s, AdminUnbind(s, d), {d}, owner, max, limit, slack);
    }
  }

  lemma ResetDevicesBudget(s: State, license: string, owner: Owner, max: int, limit: int, slack: int)
    requires Budget(s, owner, max, limit, slack)
    ensures Budget(ResetDevices(s, license), owner, max, limit, slack + Slack(s, ResetDevicesStep(license), owner))
  {
    if Lic(license) in s.grants {
      var gone := LiveRows(s, Lic(license));
      FreeDeletionBudget(s, ResetDevices(s, license), gone, owner, max, limit, slack);
      assert LiveRows(s, owner) * gone == if Lic(license) == owner then LiveRows(s, owner) else {};
    }
  }

  lemma DeleteSubscriptionBudget(s: State, sub: string, owner: Owner, max: int, limit: int, slack: int)
    requires Budget(s, owner, max, limit, slack)
    ensures Budget(DeleteSubscription(s, sub), owner, max, limit, slack + Slack(s, DeleteSubscriptionStep(sub), owner))
  {
    if Sub(sub) in s.grants {
      var gone := LiveRows(s, Sub(sub));
      FreeDeletionBudget(s, DeleteSubscription(s, sub), gone, owner, max, limit, slack);
      assert LiveRows(s, owner) * gone == if Sub(sub) == owner then LiveRows(s, owner) else {};
    }
  }

  /** Steps that delete no row and spend no unbind. */
  lemma QuietBudget(s: State, step: Step, owner: Owner, max: int, limit: int, slack: int)
    requires Budget(s, owner, max, limit, slack) && Enabled(s, step) && KeepsLimits(step, owner, max, limit) && slack >= 0
    requires step.RefreshStep? || step.LogoutStep? || step.BlacklistStep? || step.UnblacklistStep?
          || step.RemoveFromBlacklistStep? || step.ResetUnbindStep? || step.DeleteLicenseStep?
          || step.CreateGrantStep? || step.EditGrantStep?
    ensures Slack(s, step, owner) >= 0 && Budget(Apply(s, step), owner, max, limit, slack + Slack(s, step, owner))
  {
    QuietRows(s, step, owner);
    if step.CreateGrantStep? && step.owner == owner {
      assert DeadRows(s, owner) <= LiveRows(s, owner) + DeadRows(s, owner);
    }
  }

  lemma QuietRows(s: State, step: Step, owner: Owner)
    requires step.RefreshStep? || step.LogoutStep? || step.BlacklistStep? || step.UnblacklistStep?
          || step.RemoveFromBlacklistStep? || step.ResetUnbindStep? || step.DeleteLicenseStep?
          || step.CreateGrantStep? || step.EditGrantStep?
    ensures LiveRows(Apply(s, step), owner) == LiveRows(s, owner) && DeadRows(Apply(s, step), owner) == DeadRows(s, owner)
  {
    if step.CreateGrantStep? || step.EditGrantStep? || step.ResetUnbindStep? || step.DeleteLicenseStep? || step.LogoutStep? {
      assert Apply(s, step).devices == s.devices;
    } else {
      MarksKeepRows(s, step);
    }
    SameDevicesSameRows(s, Apply(s, step), owner);
  }

  /** Refreshing and black-listing never delete a device or change its owner. */
  lemma MarksKeepRows(s: State, step: Step)
    requires step.RefreshStep? || step.BlacklistStep? || step.UnblacklistStep? || step.RemoveFromBlacklistStep?
    ensures Apply(s, step).devices.Keys == s.devices.Keys
    ensures forall d :: d in s.devices ==>
                          Apply(s, step).devices[d].owner == s.devices[d].owner
                          && Apply(s, step).devices[d].deleted == s.devices[d].deleted
  {
    match step
    case RefreshStep(_, _, _, _) =>
    case BlacklistStep(_) =>
    case UnblacklistStep(_, _) =>
    case RemoveFromBlacklistStep(_, _, _) =>
  }

  lemma StepBudget(s: State, step: Step, owner: Owner, max: int, limit: int, slack: int)
    requires Budget(s, owner, max, limit, slack) && Enabled(s, step) && KeepsLimits(step, owner, max, limit)
    requires slack >= 0
    ensures Slack(s, step, owner) >= 0 && Budget(Apply(s, step), owner, max, limit, slack + Slack(s, step, owner))
  {
    match step {
      case ActivateStep(license, app, machine, now, graceDays, login) =>
        ActivateBudget(s, license, app, machine, now, graceDays, login, owner, max, limit, slack);
      case LoginStep(sub, customer, app, machine, now, login) =>
        ClientLoginBudget(s, sub, customer, app, machine, now, login, owner, max, limit, slack);
      case DeactivateStep(device, app, _, _) => SpendBudget(s, device, app, owner, max, limit, slack);
      case SelfUnbindStep(session, _, _, _) =>
        if session in s.sessions {
          SpendBudget(s, s.sessions[session].device, s.sessions[session].app, owner, max, limit, slack);
        }
      case AdminUnbindStep(d) => AdminUnbindBudget(s, d, owner, max, limit, slack);
      case ResetDevicesStep(license) => ResetDevicesBudget(s, license, owner, max, limit, slack);
      case DeleteCustomerStep(c) =>
        FreeDeletionBudget(s, DeleteCustomer(s, c), CustomerDevices(s, c), owner, max, limit, slack);
      case DeleteSubscriptionStep(sub) => DeleteSubscriptionBudget(s, sub, owner, max, limit, slack);
      case _ => QuietBudget(s, step, owner, max, limit, slack);
    }
  }

  lemma {:induction false} RunBudget(steps: seq<Step>, owner: Owner, max: int, limit: int)
    requires RunEnabled(EMPTY, steps) && max >= 0 && limit >= 0
    requires forall i :: 0 <= i < |steps| ==> KeepsLimits(steps[i], owner, max, limit)
    ensures TotalSlack(EMPTY, steps, owner) >= 0
    ensures Budget(Run(EMPTY, steps), owner, max, limit, TotalSlack(EMPTY, steps, owner))
  {
    if steps == [] {
      assert LiveRows(EMPTY, owner) == {} && DeadRows(EMPTY, owner) == {};
    } else {
      var front := steps[..|steps| - 1];
      RunBudget(front, owner, max, limit);
      StepBudget(Run(EMPTY, front), steps[|steps| - 1], owner, max, limit, TotalSlack(EMPTY, front, owner));
    }
  }

  /**
   Over any run, the machines a licence or subscription was ever bound to number at most its device
   limit plus its unbind limit plus what administrators gave on top; with client steps alone, no more
   than MaxDevices + UnbindLimit.
   */
  lemma MachinesEverBound(steps: seq<Step>, owner: Owner, max: int, limit: int)
    requires RunEnabled(EMPTY, steps) && max >= 0 && limit >= 0
    requires forall i :: 0 <= i < |steps| ==> KeepsLimits(steps[i], owner, max, limit)
    ensures var s := Run(EMPTY, steps);
      && |LiveRows(s, owner)| <= max
      && |Machines(s, owner)| <= max + limit + TotalSlack(EMPTY, steps, owner)
      && ((forall i :: 0 <= i < |steps| ==> ClientStep(steps[i])) ==> |Machines(s, owner)| <= max + limit)
  {
    RunBudget(steps, owner, max, limit);
    MachinesAtMostRows(Run(EMPTY, steps), owner);
    if forall i :: 0 <= i < |steps| ==> ClientStep(steps[i]) {
      NoSlackWithoutAdmin(steps, owner);
    }
  }

  lemma MachinesAtMostRows(s: State, owner: Owner)
    ensures |Machines(s, owner)| <= |LiveRows(s, owner)| + |DeadRows(s, owner)|
  {
    var f, rows := d => MachineOf(s, d), AllRows(s, owner);
    ImageSize(rows, f);
    var image := Image(rows, f);
    forall m | m in Machines(s, owner) ensures m in image {
      var d :| d in rows && MachineOf(s, d) == m;
      assert f(d) == m;
    }
    SubsetSize(Machines(s, owner), image);
    SplitSize(AllRows(s, owner), LiveRows(s, owner));
    assert AllRows(s, owner) - LiveRows(s, owner) == DeadRows(s, owner);
  }

  /** Steps other than an administrator's deletions and counter resets. */
  predicate ClientStep(step: Step) {
    !(step.AdminUnbindStep? || step.ResetDevicesStep? || step.DeleteCustomerStep? || step.DeleteSubscriptionStep?
      || step.ResetUnbindStep?)
  }

  lemma {:induction false} NoSlackWithoutAdmin(steps: seq<Step>, owner: Owner)
    requires forall i :: 0 <= i < |steps| ==> ClientStep(steps[i])
    ensures TotalSlack(EMPTY, steps, owner) == 0
  {
    if steps != [] {
      NoSlackWithoutAdmin(steps[..|steps| - 1], owner);
    }
  }

  /** Rows are never dropped or moved, so `Machines` remembers every machine the owner was ever bound to. */
  lemma {:induction false} MachinesNeverForgotten(s: State, steps: seq<Step>, owner: Owner)
    requires RunEnabled(s, steps)
    ensures Machines(s, owner) <= Machines(Run(s, steps), owner)
  {
    if steps != [] {
      var mid, step := Run(s, steps[..|steps| - 1]), steps[|steps| - 1];
      MachinesNeverForgotten(s, steps[..|steps| - 1], owner);
      var last := Apply(mid, step);
      RowsKept(mid, step);
      forall m | m in Machines(mid, owner) ensures m in Machines(last, owner) {
        var d :| d in AllRows(mid, owner) && MachineOf(mid, d) == m;
        assert d in AllRows(last, owner);
      }
    }
  }

  /** No row is dropped or moved to another owner or machine. */
  ghost predicate Keeps(s: State, s': State) {
    forall d :: d in s.devices ==>
      d in s'.devices && s'.devices[d].owner == s.devices[d].owner && s'.devices[d].machine == s.devices[d].machine
  }

  lemma AdmitKeeps(s: State, owner: Owner, machine: string, customer: string, app: string, mode: Mode, login: Login)
    requires owner in s.grants && login.device !in s.devices
    ensures var t := Admit(s, owner, machine, customer, app, mode, login); t.Some? ==> Keeps(s, t.value)
  {
  }

  lemma ActivateKeeps(s: State, license: string, app: string, machine: string, now: int, graceDays: int, login: Login)
    requires login.device !in s.devices
    ensures Keeps(s, Activate(s, license, app, machine, now, graceDays, login))
  {
    var o := Lic(license);
    if o in s.grants && s.grants[o].customer.Some? {
      var s1 := s.(grants := s.grants[o := Started(s.grants[o], now, graceDays)]);
      AdmitKeeps(s1, o, machine, s.grants[o].customer.value, app, LicenseMode, login);
    }
  }

  lemma LoginKeeps(s: State, sub: string, customer: string, app: string, machine: string, now: int, login: Login)
    requires login.device !in s.devices
    ensures Keeps(s, ClientLogin(s, sub, customer, app, machine, now, login))
  {
    if Sub(sub) in s.grants {
      AdmitKeeps(s, Sub(sub), machine, customer, app, SubscriptionMode, login);
    }
  }

  lemma RowsKept(s: State, step: Step)
    requires Enabled(s, step)
    ensures Keeps(s, Apply(s, step))
  {
    match step {
      case ActivateStep(license, app, machine, now, graceDays, login) =>
        ActivateKeeps(s, license, app, machine, now, graceDays, login);
      case LoginStep(sub, customer, app, machine, now, login) => LoginKeeps(s, sub, customer, app, machine, now, login);
      case _ =>
        OtherStepIsCalm(s, step);
        assert forall d :: d in s.devices ==> RowCalm(s, Apply(s, step), d);
    }
  }
}
