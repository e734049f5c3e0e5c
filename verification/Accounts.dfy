/** Accounts: first-run setup as one transaction, login, and user administration with its cascade over profiles. */
module Accounts {
  import opened Wrappers
  import opened Rows
  import opened Tables
  import opened Session
  import opened Text
  import Routes
  import IPv4
  import StringOrder
  import Token

  /** The administrator-chosen part of an account. */
  datatype Policy = Policy(displayName: string, email: Option<string>, roles: set<string>, vpnAddress: Option<string>, allowedIps: string)

  datatype AccountOp =
    | CreateUser(subject: string, password: string, policy: Policy)
    | UpdateUser(id: Id, active: bool, newPassword: Option<string>, policy: Policy)
    | DeleteUser(id: Id)

  /** Requests that carry credentials instead of a token. */
  datatype Credentials = Credentials(tenant: string, subject: string, password: string)

  const ROLES := {"tenant_admin", "support", "auditor", "member"}

  // ---- queries

  function WithSubject(rows: Table<User>, subject: string): set<Id> {
    set id | id in rows && rows[id].data.subject == subject
  }

  function Active(rows: Table<User>, subject: string): set<Id> {
    set id | id in rows && rows[id].data.subject == subject && rows[id].data.active
  }

  predicate OtherAdministrator(rows: Table<User>, id: Id) {
    exists other :: other in rows && other != id && rows[other].data.active && "tenant_admin" in rows[other].data.roles
  }

  /** Blank optional text is no text; other text is stripped. */
  function Cleaned(text: Option<string>): Option<string> {
    if text.None? || text.value == "" then None else Some(Strip(text.value))
  }

  function NetworkOf(own: Db, env: Env): Option<Network> {
    var id := First(env.order, own.networks.Keys);
    if id.Some? then Some(own.networks[id.value].data) else None
  }

  datatype Granted = Granted(vpnAddress: Option<string>, allowedIps: string, roles: seq<string>)

  /** The address inside the network, the normalized routes and the known roles of an account. */
  function Grant(own: Db, policy: Policy, env: Env): Option<Granted> {
    var network := NetworkOf(own, env);
    var address :=
      if network.Some? && policy.vpnAddress.Some? && policy.vpnAddress.value != ""
      then Routes.AddressBelongs(network.value.addressCidr, policy.vpnAddress.value) else Ok("");
    var routes := if policy.allowedIps != "" then Routes.NormalizeAllowedIps(policy.allowedIps) else Ok("");
    if address.Err? || routes.Err? || !(policy.roles <= ROLES) then None
    else Some(Granted(if address.value == "" then None else Some(address.value), routes.value, StringOrder.Sorted(policy.roles)))
  }

  // ---- what is saved

  datatype Saved =
    | Nothing
    | SavedUser(id: Id, user: User, action: Action)
    | RemovedUser(id: Id, subject: string)

  datatype Decided = Decided(saved: Saved, response: Response)

  /** A profile that loses a target is a new revision, and is disabled once no target is left. */
  function WithoutTarget(profile: Profile, subject: string, now: Time): Profile {
    if !profile.enabled || subject !in profile.targetSubjects then profile
    else
      var targets := Without(profile.targetSubjects, subject);
      profile.(targetSubjects := targets, enabled := targets != [], revision := profile.revision + 1, updatedAt := now)
  }

  function Without(subjects: seq<string>, subject: string): (r: seq<string>)
    ensures forall t :: t in r <==> t in subjects && t != subject
    ensures StringOrder.StrictlySorted(subjects) ==> StringOrder.StrictlySorted(r)
  {
    if subjects == [] then []
    else
      var rest := Without(subjects[1..], subject);
      assert subjects == [subjects[0]] + subjects[1..];
      assert forall i :: 0 <= i < |rest| ==> rest[i] in rest;
      if subjects[0] == subject then rest else [subjects[0]] + rest
  }

  function Cascade(t: Table<Profile>, tenant: string, subject: string, now: Time): Table<Profile> {
    map id | id in t :: CascadeRow(t[id], tenant, subject, now)
  }

  function CascadeRow(row: Row<Profile>, tenant: string, subject: string, now: Time): (r: Row<Profile>)
    ensures r.tenant == row.tenant
  {
    if row.tenant == tenant then Row(tenant, WithoutTarget(row.data, subject, now)) else row
  }

  /** Only users, profiles and the log change. */
  ghost predicate Untouched(a: Db, b: Db) {
    && b.initialized == a.initialized && b.devices == a.devices && b.requests == a.requests && b.servers == a.servers
    && b.networks == a.networks && b.peers == a.peers && b.enrollments == a.enrollments
  }

  function Apply(db: Db, p: Principal, saved: Saved, now: Time): (next: Db)
    ensures Untouched(db, next)
  {
    match saved
    case Nothing => db
    case SavedUser(id, user, action) => Audit(db.(users := Put(db.users, p.tenant, id, user)), p, action, OnUser, id, now)
    case RemovedUser(id, subject) =>
      Audit(db.(users := db.users - {id}, profiles := Cascade(db.profiles, p.tenant, subject, now)), p, UserDeleted, OnUser, id, now)
  }

  function Committed(db: Db, p: Principal, d: Decided, now: Time): (out: Outcome)
    ensures Untouched(db, out.db)
    ensures out.effect == Unchanged
  {
    Reply(Apply(db, p, d.saved, now), d.response)
  }

  function Reject(status: Status): Decided {
    Decided(Nothing, Refused(status))
  }

  // ---- what each endpoint decides, from the rows its tenant owns

  function Create(config: Config, own: Db, p: Principal, op: AccountOp, env: Env): Decided
    requires op.CreateUser?
  {
    var granted := Grant(own, op.policy, env);
    if "tenant_admin" !in p.roles then Reject(Forbidden)
    else if granted.None? then Reject(Unprocessable)
    else if WithSubject(own.users, Strip(op.subject)) != {} then Reject(Conflict)
    else
      var user := User(Strip(op.subject), Strip(op.policy.displayName), Cleaned(op.policy.email), config.hashPassword(op.password),
                       granted.value.roles, granted.value.vpnAddress, granted.value.allowedIps, 1, true, env.now);
      Decided(SavedUser(env.newId, user, UserCreated), UserRead(env.newId, user))
  }

  function Update(config: Config, own: Db, p: Principal, op: AccountOp, env: Env): Decided
    requires op.UpdateUser?
  {
    var granted := Grant(own, op.policy, env);
    if "tenant_admin" !in p.roles then Reject(Forbidden)
    else if op.id !in own.users then Reject(NotFound)
    else if granted.None? then Reject(Unprocessable)
    else
      var user := own.users[op.id].data;
      var hash := if op.newPassword.Some? && op.newPassword.value != "" then config.hashPassword(op.newPassword.value)
                  else user.passwordHash;
      var next := User(user.subject, Strip(op.policy.displayName), Cleaned(op.policy.email), hash, granted.value.roles,
                       granted.value.vpnAddress, granted.value.allowedIps, user.policyVersion + 1, op.active, env.now);
      Decided(SavedUser(op.id, next, UserUpdated), UserRead(op.id, next))
  }

  function Delete(own: Db, p: Principal, id: Id): Decided {
    if "tenant_admin" !in p.roles then Reject(Forbidden)
    else if id !in own.users then Reject(NotFound)
    else
      var user := own.users[id].data;
      if user.subject == p.subject then Reject(Conflict)
      else if "tenant_admin" in user.roles && !OtherAdministrator(own.users, id) then Reject(Conflict)
      else Decided(RemovedUser(id, user.subject), NoContent)
  }

  function Decide(config: Config, own: Db, p: Principal, op: AccountOp, env: Env): (d: Decided)
    ensures d.saved.SavedUser? ==> d.saved.id == env.newId || d.saved.id in own.users
    ensures d.saved.SavedUser? && d.saved.id in own.users && op.UpdateUser? ==> d.saved.user.subject == own.users[d.saved.id].data.subject
    ensures d.saved.SavedUser? && op.CreateUser? ==> d.saved.id == env.newId && WithSubject(own.users, d.saved.user.subject) == {}
    ensures d.saved.RemovedUser? ==> d.saved.id in own.users && own.users[d.saved.id].data.subject == d.saved.subject
  {
    match op
    case CreateUser(_, _, _) => Create(config, own, p, op, env)
    case UpdateUser(_, _, _, _) => Update(config, own, p, op, env)
    case DeleteUser(id) => Delete(own, p, id)
  }

  function Exec(config: Config, db: Db, p: Principal, op: AccountOp, env: Env): Outcome {
    Committed(db, p, Decide(config, View(db, p.tenant), p, op, env), env.now)
  }

  // ---- login and setup

  function PrincipalOf(tenant: string, user: User): Principal {
    Token.Principal(user.subject, tenant, set role | role in user.roles)
  }

  function LoginDecision(config: Config, own: Db, c: Credentials, env: Env): (id: Option<Id>)
    ensures id.Some? ==> id.value in own.users
  {
    var id := First(env.order, Active(own.users, Strip(c.subject)));
    if id.None? || !config.verifyPassword(c.password, own.users[id.value].data.passwordHash) then None else id
  }

  function Login(config: Config, db: Db, c: Credentials, env: Env): (out: Outcome)
    ensures out.db == db.(audit := out.db.audit) && out.effect == Unchanged
  {
    var tenant := Strip(c.tenant);
    var id := LoginDecision(config, View(db, tenant), c, env);
    if id.None? then Refuse(db, Unauthorized)
    else
      var p := PrincipalOf(tenant, View(db, tenant).users[id.value].data);
      Reply(Audit(db, p, SessionLogin, OnUser, id.value, env.now), SignedIn(p))
  }

  function FirstAdministrator(config: Config, c: Credentials, displayName: string, now: Time): User {
    User(Strip(c.subject), Strip(displayName), None, config.hashPassword(c.password), ["tenant_admin"], None, "", 1, true, now)
  }

  /** Setup is one transaction here; its interleavings are the subject of the Setup module. */
  function SetUp(config: Config, db: Db, c: Credentials, displayName: string, env: Env): (out: Outcome)
    ensures out.db == db.(initialized := out.db.initialized, users := out.db.users, audit := out.db.audit)
    ensures out.effect == Unchanged
  {
    var tenant := Strip(c.tenant);
    if db.initialized || WithSubject(View(db, tenant).users, Strip(c.subject)) != {} then Refuse(db, Conflict)
    else
      var user := FirstAdministrator(config, c, displayName, env.now);
      var p := PrincipalOf(tenant, user);
      Reply(Apply(db, p, SavedUser(env.newId, user, InstallationAdminCreated), env.now).(initialized := true), SignedIn(p))
  }

  // ---- the endpoints as written, on a session

  method GrantPolicy(s: Session, tenant: string, policy: Policy, env: Env) returns (r: Option<Granted>)
    requires s.Clean()
    ensures r == Grant(View(s.stored, tenant), policy, env)
  {
    hide Own, Routes.NormalizeAllowedIps, Routes.AddressBelongs;
    var networks := Own(s.networks, tenant);
    var network := First(env.order, networks.Keys);
    var vpnAddress, allowedIps := None, "";
    if network.Some? && policy.vpnAddress.Some? && policy.vpnAddress.value != "" {
      var address := Routes.AddressBelongs(networks[network.value].data.addressCidr, policy.vpnAddress.value);
      if address.Err? {
        return None;
      }
      AcceptedAddressIsText(networks[network.value].data.addressCidr, policy.vpnAddress.value);
      vpnAddress := Some(address.value);
    }
    if policy.allowedIps != "" {
      var routes := Routes.NormalizeAllowedIps(policy.allowedIps);
      if routes.Err? {
        return None;
      }
      allowedIps := routes.value;
    }
    if policy.roles - ROLES != {} {
      return None;
    }
    r := Some(Granted(vpnAddress, allowedIps, StringOrder.Sorted(policy.roles)));
  }

  lemma AcceptedAddressIsText(networkCidr: string, address: string)
    requires Routes.AddressBelongs(networkCidr, address).Ok?
    ensures Routes.AddressBelongs(networkCidr, address).value != ""
  {
    IPv4.PrintedText(IPv4.Parse(address).value);
  }

  method CreateWorkspaceUser(config: Config, s: Session, p: Principal, op: AccountOp, env: Env) returns (r: Response)
    requires s.Clean() && op.CreateUser?
    modifies s
    ensures s.Clean()
    ensures Outcome(s.stored, r, Unchanged)
         == Committed(old(s.stored), p, Create(config, View(old(s.stored), p.tenant), p, op, env), env.now)
  {
    hide Own, Grant, WithSubject;
    if "tenant_admin" !in p.roles {
      return Refused(Forbidden);
    }
    var granted := GrantPolicy(s, p.tenant, op.policy, env);
    if granted.None? {
      return Refused(Unprocessable);
    }
    var user := User(Strip(op.subject), Strip(op.policy.displayName), Cleaned(op.policy.email), config.hashPassword(op.password),
                     granted.value.roles, granted.value.vpnAddress, granted.value.allowedIps, 1, true, env.now);
    var same := WithSubject(Own(s.users, p.tenant), user.subject);
    s.users := s.users[env.newId := Row(p.tenant, user)];
    if same != {} {
      s.Rollback();
      return Refused(Conflict);
    }
    s.Audit(p, UserCreated, OnUser, env.newId, env.now);
    s.Commit();
    r := UserRead(env.newId, user);
  }

  method UpdateWorkspaceUser(config: Config, s: Session, p: Principal, op: AccountOp, env: Env) returns (r: Response)
    requires s.Clean() && op.UpdateUser?
    modifies s
    ensures s.Clean()
    ensures Outcome(s.stored, r, Unchanged)
         == Committed(old(s.stored), p, Update(config, View(old(s.stored), p.tenant), p, op, env), env.now)
  {
    hide Own, Grant;
    if "tenant_admin" !in p.roles {
      return Refused(Forbidden);
    }
    var rows := Own(s.users, p.tenant);
    if op.id !in rows {
      return Refused(NotFound);
    }
    var user := rows[op.id].data;
    var granted := GrantPolicy(s, p.tenant, op.policy, env);
    if granted.None? {
      return Refused(Unprocessable);
    }
    user := user.(vpnAddress := granted.value.vpnAddress, allowedIps := granted.value.allowedIps);
    user := user.(displayName := Strip(op.policy.displayName), email := Cleaned(op.policy.email));
    user := user.(roles := granted.value.roles, active := op.active, updatedAt := env.now);
    user := user.(policyVersion := user.policyVersion + 1);
    if op.newPassword.Some? && op.newPassword.value != "" {
      user := user.(passwordHash := config.hashPassword(op.newPassword.value));
    }
    s.users := s.users[op.id := Row(p.tenant, user)];
    s.Audit(p, UserUpdated, OnUser, op.id, env.now);
    s.Commit();
    r := UserRead(op.id, user);
  }

  method DropTarget(row: Profile, subject: string, now: Time) returns (profile: Profile)
    requires row.enabled
    ensures profile == WithoutTarget(row, subject, now)
  {
    profile := row;
    if subject in profile.targetSubjects {
      var targets := Without(profile.targetSubjects, subject);
      profile := profile.(targetSubjects := targets);
      profile := profile.(enabled := targets != []);
      profile := profile.(revision := profile.revision + 1);
      profile := profile.(updatedAt := now);
    }
  }

  /** Every enabled profile of the tenant loses the subject, one row at a time. */
  method RemoveTarget(s: Session, tenant: string, subject: string, now: Time)
    modifies s`profiles
    ensures s.profiles == Cascade(old(s.profiles), tenant, subject, now)
  {
    ghost var before := s.profiles;
    var left := set id | id in s.profiles && s.profiles[id].tenant == tenant && s.profiles[id].data.enabled;
    forall id | id in before && id !in left ensures before[id] == CascadeRow(before[id], tenant, subject, now) {
    }
    hide WithoutTarget, Cascade;
    while left != {}
      invariant s.profiles.Keys == before.Keys
      invariant left <= before.Keys
      invariant forall id :: id in left ==>
          s.profiles[id] == before[id] && before[id].tenant == tenant && before[id].data.enabled
      invariant forall id :: id in before && id !in left ==>
          s.profiles[id] == CascadeRow(before[id], tenant, subject, now)
      decreases |left|
    {
      var id :| id in left;
      left := left - {id};
      var profile := DropTarget(s.profiles[id].data, subject, now);
      s.profiles := s.profiles[id := Row(tenant, profile)];
    }
    CascadedRows(before, s.profiles, tenant, subject, now);
  }

  lemma CascadedRows(before: Table<Profile>, after: Table<Profile>, tenant: string, subject: string, now: Time)
    requires after.Keys == before.Keys && forall id :: id in before ==> after[id] == CascadeRow(before[id], tenant, subject, now)
    ensures after == Cascade(before, tenant, subject, now)
  {
    hide CascadeRow;
  }

  method DeleteWorkspaceUser(s: Session, p: Principal, id: Id, env: Env) returns (r: Response)
    requires s.Clean()
    modifies s
    ensures s.Clean()
    ensures Outcome(s.stored, r, Unchanged)
         == Committed(old(s.stored), p, Delete(View(old(s.stored), p.tenant), p, id), env.now)
  {
    hide Own, Cascade, OtherAdministrator;
    if "tenant_admin" !in p.roles {
      return Refused(Forbidden);
    }
    var rows := Own(s.users, p.tenant);
    if id !in rows {
      return Refused(NotFound);
    }
    var user := rows[id].data;
    if user.subject == p.subject {
      return Refused(Conflict);
    }
    if "tenant_admin" in user.roles {
      if !OtherAdministrator(rows, id) {
        return Refused(Conflict);
      }
    }
    RemoveTarget(s, p.tenant, user.subject, env.now);
    s.Audit(p, UserDeleted, OnUser, id, env.now);
    s.users := s.users - {id};
    s.Commit();
    r := NoContent;
  }

  method CreateUserSession(config: Config, s: Session, c: Credentials, env: Env) returns (r: Response)
    requires s.Clean()
    modifies s
    ensures s.Clean() && Outcome(s.stored, r, Unchanged) == Login(config, old(s.stored), c, env)
  {
    hide Own;
    var tenant := Strip(c.tenant);
    var rows := Own(s.users, tenant);
    var id := First(env.order, Active(rows, Strip(c.subject)));
    if id.None? || !config.verifyPassword(c.password, rows[id.value].data.passwordHash) {
      s.Rollback();
      return Refused(Unauthorized);
    }
    var p := PrincipalOf(tenant, rows[id.value].data);
    s.Audit(p, SessionLogin, OnUser, id.value, env.now);
    s.Commit();
    r := SignedIn(p);
  }

  method CreateInitialAdministrator(config: Config, s: Session, c: Credentials, displayName: string, env: Env) returns (r: Response)
    requires s.Clean()
    modifies s
    ensures s.Clean() && Outcome(s.stored, r, Unchanged) == SetUp(config, old(s.stored), c, displayName, env)
  {
    hide Own, WithSubject;
    if s.initialized {
      s.Rollback();
      return Refused(Conflict);
    }
    s.initialized := true;
    var tenant := Strip(c.tenant);
    var user := FirstAdministrator(config, c, displayName, env.now);
    var same := WithSubject(Own(s.users, tenant), user.subject);
    s.users := s.users[env.newId := Row(tenant, user)];
    if same != {} {
      s.Rollback();
      return Refused(Conflict);
    }
    var p := PrincipalOf(tenant, user);
    s.Audit(p, InstallationAdminCreated, OnUser, env.newId, env.now);
    s.Commit();
    r := SignedIn(p);
  }

  lemma Frame(config: Config, db: Db, p: Principal, op: AccountOp, env: Env)
    ensures Untouched(db, Exec(config, db, p, op, env).db)
    ensures Exec(config, db, p, op, env).effect == Unchanged
  {
    hide Untouched, Committed, Decide, View;
  }

  // ---- tenants

  lemma CascadeStep(t: Table<Profile>, tenant: string, subject: string, now: Time)
    ensures TableStep(t, Cascade(t, tenant, subject, now), tenant)
  {
  }

  lemma ApplyStep(db: Db, p: Principal, saved: Saved, now: Time)
    requires !saved.Nothing? && saved.id in db.users ==> db.users[saved.id].tenant == p.tenant
    ensures TenantStep(db, Apply(db, p, saved, now), p.tenant)
  {
    UnchangedStep(db, p.tenant);
    match saved {
      case Nothing =>
      case SavedUser(id, user, action) =>
        PutStep(db.users, p.tenant, id, user);
        AppendStep(db.audit, Event(p.tenant, p.subject, action, OnUser, id, now));
        hide TableStep, AuditStep;
      case RemovedUser(id, subject) =>
        CascadeStep(db.profiles, p.tenant, subject, now);
        AppendStep(db.audit, Event(p.tenant, p.subject, UserDeleted, OnUser, id, now));
        assert TableStep(db.users, db.users - {id}, p.tenant);
        hide TableStep, AuditStep, Cascade;
    }
  }

  lemma CascadeSame(a: Table<Profile>, b: Table<Profile>, tenant: string, subject: string, now: Time)
    requires SameRows(a, b, tenant)
    ensures SameRows(Cascade(a, tenant, subject, now), Cascade(b, tenant, subject, now), tenant)
  {
    var x, y := Cascade(a, tenant, subject, now), Cascade(b, tenant, subject, now);
    forall id ensures Has(x, tenant, id) <==> Has(y, tenant, id) {
      SameRow(a, b, tenant, id);
    }
    forall id | Has(x, tenant, id) ensures x[id].data == y[id].data {
      SameRow(a, b, tenant, id);
    }
  }

  lemma RemoveSame(a: Table<User>, b: Table<User>, tenant: string, id: Id)
    requires SameRows(a, b, tenant)
    ensures SameRows(a - {id}, b - {id}, tenant)
  {
    var x, y := a - {id}, b - {id};
    forall k ensures Has(x, tenant, k) <==> Has(y, tenant, k) {
      SameRow(a, b, tenant, k);
    }
    forall k | Has(x, tenant, k) ensures x[k].data == y[k].data {
      SameRow(a, b, tenant, k);
    }
  }

  lemma ApplySame(a: Db, b: Db, p: Principal, saved: Saved, now: Time)
    requires SameView(a, b, p.tenant)
    ensures SameView(Apply(a, p, saved, now), Apply(b, p, saved, now), p.tenant)
  {
    hide SameRows;
    match saved {
      case Nothing =>
      case SavedUser(id, user, action) =>
        PutSame(a.users, b.users, p.tenant, id, user);
        AppendSame(a.audit, b.audit, Event(p.tenant, p.subject, action, OnUser, id, now));
      case RemovedUser(id, subject) =>
        hide Cascade;
        CascadeSame(a.profiles, b.profiles, p.tenant, subject, now);
        RemoveSame(a.users, b.users, p.tenant, id);
        AppendSame(a.audit, b.audit, Event(p.tenant, p.subject, UserDeleted, OnUser, id, now));
    }
  }

  lemma StaysInTenant(config: Config, db: Db, p: Principal, op: AccountOp, env: Env)
    requires ValidEnv(config, db, env)
    ensures TenantStep(db, Exec(config, db, p, op, env).db, p.tenant)
  {
    ApplyStep(db, p, Decide(config, View(db, p.tenant), p, op, env).saved, env.now);
  }

  /** User administration reads nothing but its tenant's rows. */
  lemma DependsOnView(config: Config, a: Db, b: Db, p: Principal, op: AccountOp, env: Env)
    requires SameView(a, b, p.tenant)
    ensures SameView(Exec(config, a, p, op, env).db, Exec(config, b, p, op, env).db, p.tenant)
    ensures Exec(config, a, p, op, env).response == Exec(config, b, p, op, env).response
  {
    SameViewIsView(a, b, p.tenant);
    hide SameView, Apply, Decide;
    ApplySame(a, b, p, Decide(config, View(a, p.tenant), p, op, env).saved, env.now);
  }

  lemma LoginStaysInTenant(config: Config, db: Db, c: Credentials, env: Env)
    ensures TenantStep(db, Login(config, db, c, env).db, Strip(c.tenant))
  {
    var tenant := Strip(c.tenant);
    UnchangedStep(db, tenant);
    var id := LoginDecision(config, View(db, tenant), c, env);
    if id.Some? {
      var p := PrincipalOf(tenant, View(db, tenant).users[id.value].data);
      AppendStep(db.audit, Event(p.tenant, p.subject, SessionLogin, OnUser, id.value, env.now));
      hide TableStep, AuditStep, LoginDecision;
    }
  }

  lemma LoginDependsOnView(config: Config, a: Db, b: Db, c: Credentials, env: Env)
    requires SameView(a, b, Strip(c.tenant))
    ensures SameView(Login(config, a, c, env).db, Login(config, b, c, env).db, Strip(c.tenant))
    ensures Login(config, a, c, env).response == Login(config, b, c, env).response
  {
    var tenant := Strip(c.tenant);
    SameViewIsView(a, b, tenant);
    var id := LoginDecision(config, View(a, tenant), c, env);
    hide LoginDecision, SameRows;
    if id.Some? {
      var p := PrincipalOf(tenant, View(a, tenant).users[id.value].data);
      AppendSame(a.audit, b.audit, Event(p.tenant, p.subject, SessionLogin, OnUser, id.value, env.now));
    }
  }

  lemma SetUpStaysInTenant(config: Config, db: Db, c: Credentials, displayName: string, env: Env)
    requires ValidEnv(config, db, env)
    ensures TenantStep(db, SetUp(config, db, c, displayName, env).db, Strip(c.tenant))
  {
    var tenant := Strip(c.tenant);
    var user := FirstAdministrator(config, c, displayName, env.now);
    UnchangedStep(db, tenant);
    ApplyStep(db, PrincipalOf(tenant, user), SavedUser(env.newId, user, InstallationAdminCreated), env.now);
    hide TableStep, AuditStep, View, Apply;
  }

  /** Setup also reads the installation flag, the one row that has no tenant. */
  lemma SetUpDependsOnView(config: Config, a: Db, b: Db, c: Credentials, displayName: string, env: Env)
    requires SameView(a, b, Strip(c.tenant)) && a.initialized == b.initialized
    ensures SameView(SetUp(config, a, c, displayName, env).db, SetUp(config, b, c, displayName, env).db, Strip(c.tenant))
    ensures SetUp(config, a, c, displayName, env).response == SetUp(config, b, c, displayName, env).response
    ensures SetUp(config, a, c, displayName, env).db.initialized == SetUp(config, b, c, displayName, env).db.initialized
  {
    var tenant := Strip(c.tenant);
    var user := FirstAdministrator(config, c, displayName, env.now);
    SameViewIsView(a, b, tenant);
    ApplySame(a, b, PrincipalOf(tenant, user), SavedUser(env.newId, user, InstallationAdminCreated), env.now);
    hide SameRows, Apply;
  }
}
