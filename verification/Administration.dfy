/** Who may change what, who may sign in, and when a tenant keeps an administrator. */
module Administration {
  import opened Wrappers
  import opened Rows
  import opened Tables
  import opened ControlPlane
  import opened Text
  import Accounts
  import Clients
  import Deployments
  import FileServers
  import ProfileIntegrity
  import Support
  import Token
  import Vpn

  // ---- rights

  /** Without the administrator role no request changes users, file servers, networks or profiles. */
  lemma OnlyAdministratorsManage(config: Config, db: Db, p: Principal, op: Op, env: Env)
    requires "tenant_admin" !in p.roles
    ensures var next := ExecOp(config, db, p, op, env).db;
            next.users == db.users && next.servers == db.servers && next.networks == db.networks && next.profiles == db.profiles
  {
    match op {
      case OfSupport(o) => Support.Frame(db, p, o, env);
      case OfFileServers(o) => FileServersNeedRole(db, p, o, env);
      case OfDeployments(o) => DeploymentsNeedRole(config, db, p, o, env);
      case OfAccounts(o) => AccountsNeedRole(config, db, p, o, env);
      case OfVpn(o) => VpnNeedsRole(config, db, p, o, env);
      case OfClients(o) => Clients.Frame(config, db, p, o, env);
    }
    hide Support.Exec, FileServers.Exec, Deployments.Exec, Accounts.Exec, Vpn.Exec, Clients.Exec;
  }

  lemma FileServersNeedRole(db: Db, p: Principal, op: FileServers.FileServerOp, env: Env)
    requires "tenant_admin" !in p.roles
    ensures FileServers.Exec(db, p, op, env).db == db
  {
    hide View, FileServers.HostOf, FileServers.Normalized, FileServers.NameTaken, FileServers.IsEnabled;
  }

  lemma DeploymentsNeedRole(config: Config, db: Db, p: Principal, op: Deployments.DeploymentOp, env: Env)
    requires "tenant_admin" !in p.roles
    ensures var next := Deployments.Exec(config, db, p, op, env).db;
            next.users == db.users && next.servers == db.servers && next.networks == db.networks && next.profiles == db.profiles
  {
    hide View, Deployments.Decide;
    var d := Deployments.Decide(config, View(db, p.tenant), p, op, env);
    DeploymentSavesNoProfile(config, View(db, p.tenant), p, op, env);
    CommittedKeepsProfiles(db, p, d, env.now);
    hide Deployments.Committed;
  }

  lemma CommittedKeepsProfiles(db: Db, p: Principal, d: Deployments.Decided, now: Time)
    requires !d.saved.SavedProfile?
    ensures var next := Deployments.Committed(db, p, d, now).db;
            next.users == db.users && next.servers == db.servers && next.networks == db.networks && next.profiles == db.profiles
  {
    hide Put;
  }

  lemma DeploymentSavesNoProfile(config: Config, own: Db, p: Principal, op: Deployments.DeploymentOp, env: Env)
    requires "tenant_admin" !in p.roles
    ensures !Deployments.Decide(config, own, p, op, env).saved.SavedProfile?
  {
    hide Deployments.Validate, Deployments.ProfileNameTaken, Deployments.Delivered;
  }

  lemma AccountsNeedRole(config: Config, db: Db, p: Principal, op: Accounts.AccountOp, env: Env)
    requires "tenant_admin" !in p.roles
    ensures Accounts.Exec(config, db, p, op, env).db == db
  {
    hide View, Accounts.Grant, Accounts.WithSubject;
  }

  lemma VpnNeedsRole(config: Config, db: Db, p: Principal, op: Vpn.VpnOp, env: Env)
    requires "tenant_admin" !in p.roles
    ensures Vpn.Exec(config, db, p, op, env).db == db
  {
    VpnSavesNothing(config, View(db, p.tenant), p, op, env);
    hide View, Vpn.Decide, Vpn.SyncSaved;
  }

  lemma VpnSavesNothing(config: Config, own: Db, p: Principal, op: Vpn.VpnOp, env: Env)
    requires "tenant_admin" !in p.roles
    ensures Vpn.Decide(config, own, p, op, env).saved.Nothing?
  {
    hide Vpn.OwnSaved, Vpn.RoutesOr, Vpn.TheNetwork;
  }

  // ---- sign-in

  /** Somebody is signed in exactly if the tenant has an active user with the subject and the password. */
  lemma SignedInIff(config: Config, db: Db, c: Accounts.Credentials, env: Env)
    requires ProfileIntegrity.UniqueSubjects(db.users) && ValidEnv(config, db, env)
    ensures Accounts.Login(config, db, c, env).response.SignedIn? <==>
              exists id :: Has(db.users, Strip(c.tenant), id) && MaySignIn(config, db.users[id].data, c)
  {
    var tenant := Strip(c.tenant);
    var rows := Own(db.users, tenant);
    var found := First(env.order, Accounts.Active(rows, Strip(c.subject)));
    if found.Some? {
      assert Has(db.users, tenant, found.value);
      forall id | Has(db.users, tenant, id) && db.users[id].data.subject == Strip(c.subject) ensures id == found.value {
      }
    } else {
      forall id | Has(db.users, tenant, id) ensures !MaySignIn(config, db.users[id].data, c) {
        assert id in env.order && id in rows;
      }
    }
  }

  predicate MaySignIn(config: Config, user: User, c: Accounts.Credentials) {
    user.subject == Strip(c.subject) && user.active && config.verifyPassword(c.password, user.passwordHash)
  }

  // ---- the last administrator

  ghost predicate Administrator(users: Table<User>, tenant: string, id: Id) {
    Has(users, tenant, id) && users[id].data.active && "tenant_admin" in users[id].data.roles
  }

  ghost predicate HasAdministrator(users: Table<User>, tenant: string) {
    exists id :: Administrator(users, tenant, id)
  }

  ghost predicate Another(users: Table<User>, tenant: string, id: Id) {
    exists other :: other != id && Administrator(users, tenant, other)
  }

  /** An update that the endpoint accepts, of the only administrator, that takes the role or the account away. */
  ghost predicate TakesLastAdministrator(config: Config, db: Db, step: Step, tenant: string) {
    && step.call.Call? && step.call.principal.tenant == tenant && step.call.op.OfAccounts? && step.call.op.account.UpdateUser?
    && (var p, op := step.call.principal, step.call.op.account;
        && "tenant_admin" in p.roles && Has(db.users, tenant, op.id) && Accounts.Grant(View(db, tenant), op.policy, step.env).Some?
        && !(op.active && "tenant_admin" in op.policy.roles) && !Another(db.users, tenant, op.id))
  }

  lemma OthersRemain(users: Table<User>, tenant: string, id: Id, next: Table<User>)
    requires Another(users, tenant, id) && forall k :: k in users && k != id ==> k in next && next[k] == users[k]
    ensures HasAdministrator(next, tenant)
  {
    var other :| other != id && Administrator(users, tenant, other);
    assert Administrator(next, tenant, other);
  }

  lemma OtherIsAnother(users: Table<User>, tenant: string, id: Id)
    ensures Accounts.OtherAdministrator(Own(users, tenant), id) <==> Another(users, tenant, id)
  {
    var rows := Own(users, tenant);
    if Accounts.OtherAdministrator(rows, id) {
      var other :| other in rows && other != id && rows[other].data.active && "tenant_admin" in rows[other].data.roles;
      assert Administrator(users, tenant, other);
    }
    if Another(users, tenant, id) {
      var other :| other != id && Administrator(users, tenant, other);
      assert other in rows;
    }
  }

  lemma SavedUserAdministrator(users: Table<User>, tenant: string, id: Id, user: User)
    requires id in users ==> users[id].tenant == tenant
    ensures HasAdministrator(Put(users, tenant, id, user), tenant) <==>
              Another(users, tenant, id) || (user.active && "tenant_admin" in user.roles)
  {
    var next := Put(users, tenant, id, user);
    if HasAdministrator(next, tenant) {
      var k :| Administrator(next, tenant, k);
      if k != id {
        assert Administrator(users, tenant, k);
      }
    }
    if user.active && "tenant_admin" in user.roles {
      assert Administrator(next, tenant, id);
    }
    if Another(users, tenant, id) {
      OthersRemain(users, tenant, id, next);
    }
  }

  lemma DeleteKeepsAdministrator(config: Config, db: Db, p: Principal, id: Id, env: Env)
    requires HasAdministrator(db.users, p.tenant)
    ensures HasAdministrator(Accounts.Exec(config, db, p, Accounts.DeleteUser(id), env).db.users, p.tenant)
  {
    var own := View(db, p.tenant);
    var saved := Accounts.Delete(own, p, id).saved;
    OtherIsAnother(db.users, p.tenant, id);
    hide Accounts.OtherAdministrator, HasAdministrator, Accounts.Cascade;
    if saved.RemovedUser? {
      NotTheLast(db.users, p.tenant, id, own.users);
      OthersRemain(db.users, p.tenant, id, db.users - {id});
    }
  }

  lemma NotTheLast(users: Table<User>, tenant: string, id: Id, rows: Table<User>)
    requires HasAdministrator(users, tenant) && rows == Own(users, tenant) && id in rows
    requires "tenant_admin" in rows[id].data.roles ==> Another(users, tenant, id)
    ensures Another(users, tenant, id)
  {
    var k :| Administrator(users, tenant, k);
  }

  lemma CreateKeepsAdministrator(config: Config, db: Db, p: Principal, op: Accounts.AccountOp, env: Env)
    requires op.CreateUser? && HasAdministrator(db.users, p.tenant) && env.newId !in db.users
    ensures HasAdministrator(Accounts.Exec(config, db, p, op, env).db.users, p.tenant)
  {
    var saved := Accounts.Create(config, View(db, p.tenant), p, op, env).saved;
    hide View, Accounts.Grant, Accounts.WithSubject;
    if saved.SavedUser? {
      NewUserKeepsAdministrator(db.users, p.tenant, env.newId, saved.user);
    }
  }

  lemma NewUserKeepsAdministrator(users: Table<User>, tenant: string, id: Id, user: User)
    requires HasAdministrator(users, tenant) && id !in users
    ensures HasAdministrator(Put(users, tenant, id, user), tenant)
  {
    var k :| Administrator(users, tenant, k);
    assert Administrator(Put(users, tenant, id, user), tenant, k);
  }

  lemma UpdateKeepsIff(config: Config, db: Db, p: Principal, op: Accounts.AccountOp, env: Env)
    requires op.UpdateUser? && HasAdministrator(db.users, p.tenant)
    ensures !HasAdministrator(Accounts.Exec(config, db, p, op, env).db.users, p.tenant) <==>
              TakesLastAdministrator(config, db, Step(Call(p, OfAccounts(op)), env), p.tenant)
  {
    var own := View(db, p.tenant);
    var saved := Accounts.Update(config, own, p, op, env).saved;
    UpdatedUser(config, own, p, op, env);
    OwnRow(db.users, p.tenant, op.id);
    assert own.users == Own(db.users, p.tenant);
    hide View, Accounts.Grant, Accounts.Update, HasAdministrator, Another, Own;
    if saved.SavedUser? {
      SavedUserAdministrator(db.users, p.tenant, op.id, saved.user);
    }
  }

  lemma UpdatedUser(config: Config, own: Db, p: Principal, op: Accounts.AccountOp, env: Env)
    requires op.UpdateUser?
    ensures var saved := Accounts.Update(config, own, p, op, env).saved;
            && (saved.SavedUser? <==> "tenant_admin" in p.roles && op.id in own.users && Accounts.Grant(own, op.policy, env).Some?)
            && !saved.RemovedUser?
            && (saved.SavedUser? ==> saved.id == op.id && saved.user.active == op.active
                                     && ("tenant_admin" in saved.user.roles <==> "tenant_admin" in op.policy.roles))
  {
    GrantedRoles(own, op.policy, env);
    hide Accounts.Grant;
  }

  lemma GrantedRoles(own: Db, policy: Accounts.Policy, env: Env)
    ensures var g := Accounts.Grant(own, policy, env); g.Some? ==> forall role :: role in g.value.roles <==> role in policy.roles
  {
    hide Accounts.NetworkOf;
  }

  lemma SameUsersKeepAdministrator(a: Table<User>, b: Table<User>, tenant: string)
    requires HasAdministrator(a, tenant) && forall k :: Has(a, tenant, k) ==> k in b && b[k] == a[k]
    ensures HasAdministrator(b, tenant)
  {
    var k :| Administrator(a, tenant, k);
    assert Administrator(b, tenant, k);
  }

  lemma OtherTenantsKeepAdministrator(config: Config, db: Db, step: Step, tenant: string)
    requires HasAdministrator(db.users, tenant) && ValidEnv(config, db, step.env) && TenantOf(step.call) != tenant
    ensures HasAdministrator(Exec(config, db, step).db.users, tenant)
  {
    hide Exec, ValidEnv, HasAdministrator;
    StaysInTenant(config, db, step);
    SameUsersKeepAdministrator(db.users, Exec(config, db, step).db.users, tenant);
  }

  lemma OpLosesIff(config: Config, db: Db, p: Principal, op: Op, env: Env)
    requires HasAdministrator(db.users, p.tenant) && ValidEnv(config, db, env)
    ensures !HasAdministrator(ExecOp(config, db, p, op, env).db.users, p.tenant) <==>
              TakesLastAdministrator(config, db, Step(Call(p, op), env), p.tenant)
  {
    assert env.newId !in db.users;
    hide Support.Exec, FileServers.Exec, Deployments.Exec, Accounts.Exec, Vpn.Exec, Clients.Exec, HasAdministrator, ValidEnv, Another;
    hide Accounts.Grant, View;
    match op {
      case OfSupport(o) => Support.Frame(db, p, o, env);
      case OfFileServers(o) => FileServers.Frame(db, p, o, env);
      case OfDeployments(o) => Deployments.Frame(config, db, p, o, env);
      case OfAccounts(o) =>
        match o {
          case CreateUser(_, _, _) => CreateKeepsAdministrator(config, db, p, o, env);
          case UpdateUser(_, _, _, _) => UpdateKeepsIff(config, db, p, o, env);
          case DeleteUser(id) => DeleteKeepsAdministrator(config, db, p, id, env);
        }
      case OfVpn(o) => Vpn.Frame(config, db, p, o, env);
      case OfClients(o) => Clients.Frame(config, db, p, o, env);
    }
  }

  lemma SetUpKeepsAdministrator(config: Config, db: Db, c: Accounts.Credentials, displayName: string, env: Env)
    requires HasAdministrator(db.users, Strip(c.tenant)) && env.newId !in db.users
    ensures HasAdministrator(Accounts.SetUp(config, db, c, displayName, env).db.users, Strip(c.tenant))
  {
    var user := Accounts.FirstAdministrator(config, c, displayName, env.now);
    NewUserKeepsAdministrator(db.users, Strip(c.tenant), env.newId, user);
    hide HasAdministrator, Accounts.WithSubject, View;
  }

  /**
   * A tenant that has an active administrator loses its last one exactly by an accepted update that takes the role or the
   * account away from the only one. No deletion, and no other request of any tenant, does.
   */
  lemma LastAdministratorLostIff(config: Config, db: Db, step: Step, tenant: string)
    requires HasAdministrator(db.users, tenant) && ValidEnv(config, db, step.env)
    ensures !HasAdministrator(Exec(config, db, step).db.users, tenant) <==> TakesLastAdministrator(config, db, step, tenant)
  {
    assert step.env.newId !in db.users;
    hide ExecOp, Accounts.Login, Accounts.SetUp, HasAdministrator, ValidEnv;
    if TenantOf(step.call) != tenant {
      OtherTenantsKeepAdministrator(config, db, step, tenant);
    } else {
      match step.call {
        case Call(p, op) => OpLosesIff(config, db, p, op, step.env);
        case Login(_) =>
        case SetUp(c, displayName) => SetUpKeepsAdministrator(config, db, c, displayName, step.env);
      }
    }
  }

  // ---- a run that ends without an administrator

  const FIRST_ENV := Env(0, "u", "v", ["u", "v"], Applied, "", "", "")
  const NEXT_ENV := Env(1, "x", "y", ["u", "x", "y"], Applied, "", "", "")

  function SetUpStep(c: Accounts.Credentials, displayName: string): Step {
    Step(SetUp(c, displayName), FIRST_ENV)
  }

  /** The signed-in administrator updates their own account without any role. */
  function DemotionStep(c: Accounts.Credentials, displayName: string): Step {
    var p := Token.Principal(Strip(c.subject), Strip(c.tenant), {"tenant_admin"});
    var policy := Accounts.Policy(displayName, None, {}, None, "");
    Step(Call(p, OfAccounts(Accounts.UpdateUser("u", true, None, policy))), NEXT_ENV)
  }

  lemma AfterSetUp(config: Config, c: Accounts.Credentials, displayName: string, env: Env)
    ensures var db, tenant := Exec(config, EMPTY, Step(SetUp(c, displayName), env)).db, Strip(c.tenant);
            && db.users == map[env.newId := Row(tenant, Accounts.FirstAdministrator(config, c, displayName, env.now))]
            && db == EMPTY.(initialized := true, users := db.users, audit := db.audit)
            && HasAdministrator(db.users, tenant)
  {
    var tenant := Strip(c.tenant);
    var db := Exec(config, EMPTY, Step(SetUp(c, displayName), env)).db;
    hide OwnEvents, Strip;
    assert View(EMPTY, tenant).users == map[];
    assert Accounts.WithSubject(map[], Strip(c.subject)) == {};
    assert "tenant_admin" in ["tenant_admin"] by {
      assert ["tenant_admin"][0] == "tenant_admin";
    }
    assert Administrator(db.users, tenant, env.newId);
  }

  lemma FirstEnvIsValid(config: Config)
    ensures ValidEnv(config, EMPTY, FIRST_ENV)
  {
    assert FIRST_ENV.order[0] == "u" && FIRST_ENV.order[1] == "v" && "u"[0] != "v"[0];
  }

  lemma NextEnvIsValid(config: Config, db: Db)
    requires db == EMPTY.(initialized := true, users := db.users, audit := db.audit) && db.users.Keys == {"u"}
    ensures ValidEnv(config, db, NEXT_ENV)
  {
    assert "u"[0] != "x"[0] && "x"[0] != "y"[0] && "u"[0] != "y"[0];
    assert NEXT_ENV.order[0] == "u" && NEXT_ENV.order[1] == "x" && NEXT_ENV.order[2] == "y";
    assert "x" !in db.users.Keys && "y" !in db.users.Keys;
    forall id | !FreshId(db, id) ensures id == "u" {
      assert id in db.users.Keys;
    }
  }

  lemma DemotionTakesTheLast(config: Config, db: Db, c: Accounts.Credentials, displayName: string)
    requires db == EMPTY.(initialized := true, users := db.users, audit := db.audit)
    requires db.users == map["u" := Row(Strip(c.tenant), Accounts.FirstAdministrator(config, c, displayName, 0))]
    ensures TakesLastAdministrator(config, db, DemotionStep(c, displayName), Strip(c.tenant))
  {
    var tenant, step := Strip(c.tenant), DemotionStep(c, displayName);
    var policy := step.call.op.account.policy;
    hide OwnEvents, Strip;
    assert View(db, tenant).networks == map[];
    assert First(NEXT_ENV.order, {}) == None;
    assert Accounts.NetworkOf(View(db, tenant), NEXT_ENV).None?;
    hide Accounts.NetworkOf, View;
    assert Accounts.Grant(View(db, tenant), policy, NEXT_ENV).Some?;
    forall other ensures !(other != "u" && Administrator(db.users, tenant, other)) {
    }
  }

  /** Setup, and then one update of the only account by its owner: the tenant has an administrator in between, and none at the end. */
  lemma UpdateTakesTheLastAdministrator(config: Config, c: Accounts.Credentials, displayName: string)
    ensures var steps, tenant := [SetUpStep(c, displayName), DemotionStep(c, displayName)], Strip(c.tenant);
            && ValidRun(config, EMPTY, steps)
            && HasAdministrator(Run(config, EMPTY, steps[..1]).users, tenant)
            && !HasAdministrator(Run(config, EMPTY, steps).users, tenant)
  {
    var first, second := SetUpStep(c, displayName), DemotionStep(c, displayName);
    var db := Exec(config, EMPTY, first).db;
    AfterSetUp(config, c, displayName, FIRST_ENV);
    FirstEnvIsValid(config);
    NextEnvIsValid(config, db);
    DemotionTakesTheLast(config, db, c, displayName);
    hide HasAdministrator, ValidEnv, TakesLastAdministrator, Exec;
    LastAdministratorLostIff(config, db, second, Strip(c.tenant));
    TwoSteps(config, first, second);
  }

  lemma TwoSteps(config: Config, first: Step, second: Step)
    ensures var db := Exec(config, EMPTY, first).db;
            && (ValidEnv(config, EMPTY, first.env) && ValidEnv(config, db, second.env) ==> ValidRun(config, EMPTY, [first, second]))
            && Run(config, EMPTY, [first, second][..1]) == db
            && Run(config, EMPTY, [first, second]) == Exec(config, db, second).db
  {
    hide Exec, ValidEnv;
    var steps, db := [first, second], Exec(config, EMPTY, first).db;
    var next := Exec(config, db, second).db;
    assert steps[..1] == [first] && [first][1..] == [] && steps[1..] == [second] && [second][1..] == [];
    assert Run(config, db, []) == db && Run(config, next, []) == next;
    assert Run(config, db, [second]) == next;
    assert ValidRun(config, next, []);
    assert ValidEnv(config, db, second.env) ==> ValidRun(config, db, [second]);
  }
}
