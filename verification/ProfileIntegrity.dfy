/**
 * What holds of deployment profiles in every reachable state although no foreign key says so:
 * endpoints for users, file servers, networks and profiles establish it together.
 */
module ProfileIntegrity {
  import opened Wrappers
  import opened Rows
  import opened Tables
  import opened ControlPlane
  import opened Text
  import Accounts
  import Clients
  import Deployments
  import FileServers
  import Routes
  import StringOrder
  import Support
  import Vpn

  // ---- the invariant

  ghost predicate HasUser(users: Table<User>, tenant: string, subject: string) {
    exists id :: Has(users, tenant, id) && users[id].data.subject == subject
  }

  ghost predicate UniqueSubjects(users: Table<User>) {
    forall i, j :: i in users && j in users && i != j && users[i].tenant == users[j].tenant ==>
        users[i].data.subject != users[j].data.subject
  }

  ghost predicate UniqueNetworks(networks: Table<Network>) {
    forall i, j :: i in networks && j in networks && networks[i].tenant == networks[j].tenant ==> i == j
  }

  ghost predicate SoundTargets(users: Table<User>, tenant: string, subjects: seq<string>) {
    && subjects != [] && StringOrder.StrictlySorted(subjects)
    && forall s :: s in subjects ==> HasUser(users, tenant, s)
  }

  ghost predicate SoundServers(servers: Table<FileServer>, tenant: string, ids: seq<Id>) {
    forall id :: id in ids ==> Has(servers, tenant, id)
  }

  /** Every reference of the profile resolves within its tenant, and its routes are normalized. */
  ghost predicate Sound(db: Db, tenant: string, x: Profile) {
    && SoundTargets(db.users, tenant, x.targetSubjects)
    && SoundServers(db.servers, tenant, x.fileServerIds)
    && Has(db.networks, tenant, x.networkId)
    && Routes.NormalizeAllowedIps(x.allowedIps) == Ok(x.allowedIps)
  }

  ghost predicate AllSound(db: Db) {
    forall id :: id in db.profiles && db.profiles[id].data.enabled ==> Sound(db, db.profiles[id].tenant, db.profiles[id].data)
  }

  ghost predicate Integrity(db: Db) {
    UniqueSubjects(db.users) && UniqueNetworks(db.networks) && AllSound(db)
  }

  // ---- counting references

  function Elements<T>(s: seq<T>): set<T> {
    set x | x in s
  }

  lemma {:induction false} ElementsAtMost<T>(s: seq<T>)
    ensures |Elements(s)| <= |s|
  {
    if s == [] {
    } else {
      ElementsAtMost(s[1..]);
      assert Elements(s) == Elements(s[1..]) + {s[0]};
    }
  }

  lemma SubsetOfSameSize<T>(a: set<T>, b: set<T>)
    requires a <= b && |a| >= |b|
    ensures a == b
  {
    assert b == a + (b - a);
    assert |b| == |a| + |b - a|;
  }

  /** As many rows as references: every reference has its row. */
  lemma EveryServerFound(rows: Table<FileServer>, ids: seq<Id>)
    requires |Deployments.EnabledServers(rows, ids)| == |ids|
    ensures forall id :: id in ids ==> id in rows
  {
    var found := Deployments.EnabledServers(rows, ids);
    ElementsAtMost(ids);
    SubsetOfSameSize(found, Elements(ids));
    forall id | id in ids ensures id in rows {
      assert id in Elements(ids);
    }
  }

  function SubjectsOf(rows: Table<User>, ids: set<Id>): set<string>
    requires ids <= rows.Keys
  {
    set id | id in ids :: rows[id].data.subject
  }

  lemma {:induction false} DistinctSubjects(rows: Table<User>, ids: set<Id>)
    requires ids <= rows.Keys && UniqueIn(rows)
    ensures |SubjectsOf(rows, ids)| == |ids|
    decreases |ids|
  {
    if ids == {} {
    } else {
      var id :| id in ids;
      DistinctSubjects(rows, ids - {id});
      assert SubjectsOf(rows, ids) == SubjectsOf(rows, ids - {id}) + {rows[id].data.subject};
      assert rows[id].data.subject !in SubjectsOf(rows, ids - {id});
    }
  }

  ghost predicate UniqueIn(rows: Table<User>) {
    forall i, j :: i in rows && j in rows && rows[i].data.subject == rows[j].data.subject ==> i == j
  }

  /** As many rows as references, and subjects are unique: every reference has its row. */
  lemma EveryUserFound(rows: Table<User>, subjects: seq<string>)
    requires UniqueIn(rows) && |Deployments.ActiveUsers(rows, subjects)| == |subjects|
    ensures forall s :: s in subjects ==> exists id :: id in rows && rows[id].data.subject == s
  {
    var found := Deployments.ActiveUsers(rows, subjects);
    DistinctSubjects(rows, found);
    ElementsAtMost(subjects);
    SubsetOfSameSize(SubjectsOf(rows, found), Elements(subjects));
    forall s | s in subjects ensures exists id :: id in rows && rows[id].data.subject == s {
      assert s in SubjectsOf(rows, found);
    }
  }

  // ---- validation establishes soundness

  lemma ValidatedTargets(db: Db, tenant: string, subjects: seq<string>)
    requires UniqueSubjects(db.users) && subjects != [] && StringOrder.StrictlySorted(subjects)
    requires |Deployments.ActiveUsers(Own(db.users, tenant), subjects)| == |subjects|
    ensures SoundTargets(db.users, tenant, subjects)
  {
    var rows := Own(db.users, tenant);
    EveryUserFound(rows, subjects);
    forall s | s in subjects ensures HasUser(db.users, tenant, s) {
      var id :| id in rows && rows[id].data.subject == s;
      assert Has(db.users, tenant, id);
    }
  }

  lemma ValidatedServers(db: Db, tenant: string, ids: seq<Id>)
    requires |Deployments.EnabledServers(Own(db.servers, tenant), ids)| == |ids|
    ensures SoundServers(db.servers, tenant, ids)
  {
    EveryServerFound(Own(db.servers, tenant), ids);
  }

  lemma ValidatedIsSound(db: Db, tenant: string, body: Deployments.Body, revision: nat, now: Time)
    requires UniqueSubjects(db.users) && Deployments.Validate(View(db, tenant), body).Some?
    ensures Sound(db, tenant, Deployments.Content(body, Deployments.Validate(View(db, tenant), body).value, revision, now))
  {
    hide UniqueSubjects, SoundTargets, SoundServers, Deployments.ActiveUsers, Deployments.EnabledServers, FileServers.Normalized;
    hide Routes.NormalizeAllowedIps;
    var ids, subjects := FileServers.Normalized(body.fileServerIds), FileServers.Normalized(body.targetSubjects);
    ValidatedTargets(db, tenant, subjects);
    ValidatedServers(db, tenant, ids);
    Routes.NormalizeIsIdempotent(body.allowedIps);
  }

  // ---- profile endpoints

  lemma PutProfileKeepsIntegrity(db: Db, p: Principal, id: Id, x: Profile, action: Action, now: Time)
    requires Integrity(db) && (x.enabled ==> Sound(db, p.tenant, x))
    ensures Integrity(Deployments.Apply(db, p, Deployments.SavedProfile(id, x, action), now))
  {
    hide UniqueSubjects, UniqueNetworks, SoundTargets, SoundServers, Routes.NormalizeAllowedIps;
    var next := Deployments.Apply(db, p, Deployments.SavedProfile(id, x, action), now);
    forall k | k in next.profiles && next.profiles[k].data.enabled
      ensures Sound(next, next.profiles[k].tenant, next.profiles[k].data)
    {
      assert k != id ==> Sound(db, db.profiles[k].tenant, db.profiles[k].data);
    }
  }

  /** A saved profile was validated, or is disabled. */
  lemma SavedProfileIsValidated(config: Config, own: Db, p: Principal, op: Deployments.DeploymentOp, env: Env)
    ensures var saved := Deployments.Decide(config, own, p, op, env).saved;
            saved.SavedProfile? && saved.profile.enabled ==>
              (op.CreateProfile? || op.UpdateProfile?) && Deployments.Validate(own, op.body).Some?
              && saved.profile == Deployments.Content(op.body, Deployments.Validate(own, op.body).value, saved.profile.revision, env.now)
  {
    hide Deployments.Validate, Deployments.ProfileNameTaken, Deployments.Delivered;
  }

  lemma DeploymentsKeepIntegrity(config: Config, db: Db, p: Principal, op: Deployments.DeploymentOp, env: Env)
    requires Integrity(db)
    ensures Integrity(Deployments.Exec(config, db, p, op, env).db)
  {
    var own := View(db, p.tenant);
    var saved := Deployments.Decide(config, own, p, op, env).saved;
    SavedProfileIsValidated(config, own, p, op, env);
    hide Deployments.Decide, View, Deployments.Validate, Deployments.Content, Sound;
    if saved.SavedProfile? {
      if saved.profile.enabled {
        ValidatedIsSound(db, p.tenant, op.body, saved.profile.revision, env.now);
      }
      hide Integrity, Deployments.Apply;
      PutProfileKeepsIntegrity(db, p, saved.id, saved.profile, saved.action, env.now);
    } else {
      SameTablesKeepIntegrity(db, Deployments.Apply(db, p, saved, env.now));
    }
  }

  // ---- steps that only add references

  /** Rows that profiles refer to stay. */
  ghost predicate Keeps(a: Db, b: Db) {
    && b.profiles == a.profiles
    && (forall tenant, s :: HasUser(a.users, tenant, s) ==> HasUser(b.users, tenant, s))
    && (forall tenant, id :: Has(a.servers, tenant, id) ==> Has(b.servers, tenant, id))
    && (forall tenant, id :: Has(a.networks, tenant, id) ==> Has(b.networks, tenant, id))
  }

  lemma KeptIsSound(a: Db, b: Db, tenant: string, x: Profile)
    requires Keeps(a, b) && Sound(a, tenant, x)
    ensures Sound(b, tenant, x)
  {
    hide HasUser, Routes.NormalizeAllowedIps;
  }

  lemma KeepsIntegrity(a: Db, b: Db)
    requires Integrity(a) && Keeps(a, b) && UniqueSubjects(b.users) && UniqueNetworks(b.networks)
    ensures Integrity(b)
  {
    hide Sound, UniqueSubjects, UniqueNetworks;
    forall id | id in b.profiles && b.profiles[id].data.enabled ensures Sound(b, b.profiles[id].tenant, b.profiles[id].data) {
      KeptIsSound(a, b, b.profiles[id].tenant, b.profiles[id].data);
    }
  }

  lemma SameTablesKeepIntegrity(a: Db, b: Db)
    requires Integrity(a)
    requires b.users == a.users && b.servers == a.servers && b.networks == a.networks && b.profiles == a.profiles
    ensures Integrity(b)
  {
    hide UniqueSubjects, UniqueNetworks;
    KeepsIntegrity(a, b);
  }

  lemma PutKeepsHas<D>(t: Table<D>, tenant: string, id: Id, d: D)
    requires id in t ==> t[id].tenant == tenant
    ensures forall k, other :: Has(t, other, k) ==> Has(Put(t, tenant, id, d), other, k)
  {
  }

  lemma FileServersKeepIntegrity(config: Config, db: Db, p: Principal, op: FileServers.FileServerOp, env: Env)
    requires Integrity(db) && ValidEnv(config, db, env)
    ensures Integrity(FileServers.Exec(db, p, op, env).db)
  {
    var own := View(db, p.tenant);
    var saved := FileServers.Decide(own, p, op, env).saved;
    var next := FileServers.Apply(db, p, saved, env.now);
    if saved.SavedServer? {
      PutKeepsHas(db.servers, p.tenant, saved.id, saved.server);
    }
    hide FileServers.Decide, View, UniqueSubjects, UniqueNetworks, HasUser, Has, Put, AllSound;
    assert Keeps(db, next);
    hide Integrity, FileServers.Apply;
    KeepsIntegrityOf(db, next);
  }

  lemma KeepsIntegrityOf(a: Db, b: Db)
    requires Integrity(a) && Keeps(a, b) && (b.users == a.users || UniqueSubjects(b.users))
    requires b.networks == a.networks || UniqueNetworks(b.networks)
    ensures Integrity(b)
  {
    hide UniqueSubjects, UniqueNetworks, Keeps;
    KeepsIntegrity(a, b);
  }

  /** A tenant never gets a second network. */
  lemma NetworksStayUnique(config: Config, db: Db, p: Principal, id: Id, network: Network, env: Env)
    requires UniqueNetworks(db.networks) && ValidEnv(config, db, env)
    requires var found := Vpn.TheNetwork(View(db, p.tenant), env); found == Some(id) || (found.None? && id == env.newId)
    ensures UniqueNetworks(Put(db.networks, p.tenant, id, network))
    ensures id in db.networks ==> db.networks[id].tenant == p.tenant
  {
    var own := Own(db.networks, p.tenant);
    if id == env.newId {
      forall k | k in db.networks ensures db.networks[k].tenant != p.tenant {
        assert k in env.order;
        assert k in own.Keys <==> db.networks[k].tenant == p.tenant;
      }
    }
  }

  lemma SavedNetworkKeepsIntegrity(config: Config, db: Db, p: Principal, id: Id, network: Network, env: Env)
    requires Integrity(db) && ValidEnv(config, db, env)
    requires var found := Vpn.TheNetwork(View(db, p.tenant), env); found == Some(id) || (found.None? && id == env.newId)
    ensures Integrity(Vpn.Apply(db, p, Vpn.SavedNetwork(id, network), env.now))
  {
    hide UniqueNetworks;
    NetworksStayUnique(config, db, p, id, network, env);
    PutKeepsHas(db.networks, p.tenant, id, network);
    var next := Vpn.Apply(db, p, Vpn.SavedNetwork(id, network), env.now);
    hide View, UniqueSubjects, HasUser, Has, Put, AllSound, ValidEnv;
    assert Keeps(db, next);
    KeepsIntegrityOf(db, next);
  }

  lemma VpnKeepsIntegrity(config: Config, db: Db, p: Principal, op: Vpn.VpnOp, env: Env)
    requires Integrity(db) && ValidEnv(config, db, env)
    ensures Integrity(Vpn.Exec(config, db, p, op, env).db)
  {
    var saved := Vpn.Decide(config, View(db, p.tenant), p, op, env).saved;
    var next := Vpn.Apply(db, p, saved, env.now);
    hide Vpn.Decide, View, Vpn.SyncSaved, Integrity, Own, ValidEnv, Vpn.TheNetwork;
    if saved.SavedNetwork? {
      SavedNetworkKeepsIntegrity(config, db, p, saved.id, saved.network, env);
    } else if saved.SavedPeer? {
      SameTablesKeepIntegrity(db, next);
    }
    hide Vpn.Apply;
  }

  // ---- accounts

  lemma PutUserKeepsSubjects(users: Table<User>, tenant: string, id: Id, user: User)
    requires UniqueSubjects(users)
    requires id in users ==> users[id].tenant == tenant && users[id].data.subject == user.subject
    requires id !in users ==> !HasUser(users, tenant, user.subject)
    ensures UniqueSubjects(Put(users, tenant, id, user))
    ensures forall other, s :: HasUser(users, other, s) ==> HasUser(Put(users, tenant, id, user), other, s)
  {
    var next := Put(users, tenant, id, user);
    forall k | k in users && k != id && users[k].tenant == tenant ensures users[k].data.subject != user.subject {
      assert Has(users, tenant, k);
    }
    forall other, s | HasUser(users, other, s) ensures HasUser(next, other, s) {
      var k :| Has(users, other, k) && users[k].data.subject == s;
      assert Has(next, other, k) && next[k].data.subject == s;
    }
  }

  lemma NoRowNoUser(users: Table<User>, tenant: string, subject: string)
    ensures Accounts.WithSubject(Own(users, tenant), subject) == {} ==> !HasUser(users, tenant, subject)
  {
    if HasUser(users, tenant, subject) {
      var id :| Has(users, tenant, id) && users[id].data.subject == subject;
      assert id in Accounts.WithSubject(Own(users, tenant), subject);
    }
  }

  lemma SavedUserKeepsIntegrity(db: Db, p: Principal, id: Id, user: User, action: Action, now: Time)
    requires Integrity(db)
    requires id in db.users ==> db.users[id].tenant == p.tenant && db.users[id].data.subject == user.subject
    requires id !in db.users ==> !HasUser(db.users, p.tenant, user.subject)
    ensures Integrity(Accounts.Apply(db, p, Accounts.SavedUser(id, user, action), now))
  {
    PutUserKeepsSubjects(db.users, p.tenant, id, user);
    var next := Accounts.Apply(db, p, Accounts.SavedUser(id, user, action), now);
    hide UniqueSubjects, UniqueNetworks, HasUser, Has, Put, AllSound;
    assert Keeps(db, next);
    KeepsIntegrityOf(db, next);
  }

  lemma OthersStay(users: Table<User>, tenant: string, id: Id, other: string, s: string)
    requires Has(users, tenant, id) && HasUser(users, other, s) && (other != tenant || s != users[id].data.subject)
    ensures HasUser(users - {id}, other, s)
  {
    var k :| Has(users, other, k) && users[k].data.subject == s;
    assert Has(users - {id}, other, k);
  }

  lemma TargetsStay(users: Table<User>, tenant: string, id: Id, other: string, x: Profile, now: Time)
    requires Has(users, tenant, id) && x.enabled && SoundTargets(users, other, x.targetSubjects)
    requires other == tenant ==> Accounts.WithoutTarget(x, users[id].data.subject, now).enabled
    ensures var y := if other == tenant then Accounts.WithoutTarget(x, users[id].data.subject, now) else x;
            SoundTargets(users - {id}, other, y.targetSubjects)
  {
    var y := if other == tenant then Accounts.WithoutTarget(x, users[id].data.subject, now) else x;
    hide HasUser, StringOrder.StrictlySorted;
    forall s | s in y.targetSubjects ensures HasUser(users - {id}, other, s) {
      OthersStay(users, tenant, id, other, s);
    }
  }

  lemma CascadedIsSound(db: Db, p: Principal, id: Id, other: string, x: Profile, now: Time)
    requires Has(db.users, p.tenant, id) && x.enabled && Sound(db, other, x)
    ensures var next := Accounts.Apply(db, p, Accounts.RemovedUser(id, db.users[id].data.subject), now);
            var y := if other == p.tenant then Accounts.WithoutTarget(x, db.users[id].data.subject, now) else x;
            y.enabled ==> Sound(next, other, y)
  {
    hide SoundTargets, SoundServers, Routes.NormalizeAllowedIps, Accounts.Cascade;
    var subject := db.users[id].data.subject;
    var y := if other == p.tenant then Accounts.WithoutTarget(x, subject, now) else x;
    if y.enabled {
      TargetsStay(db.users, p.tenant, id, other, x, now);
    }
  }

  /** Deleting a user keeps integrity, because the cascade removes the subject from every profile that names it. */
  lemma RemovedUserKeepsIntegrity(db: Db, p: Principal, id: Id, now: Time)
    requires Integrity(db) && Has(db.users, p.tenant, id)
    ensures Integrity(Accounts.Apply(db, p, Accounts.RemovedUser(id, db.users[id].data.subject), now))
  {
    var subject := db.users[id].data.subject;
    var next := Accounts.Apply(db, p, Accounts.RemovedUser(id, subject), now);
    assert UniqueSubjects(next.users);
    hide UniqueSubjects, UniqueNetworks, Sound, Accounts.WithoutTarget;
    forall k | k in next.profiles && next.profiles[k].data.enabled
      ensures Sound(next, next.profiles[k].tenant, next.profiles[k].data)
    {
      var x := db.profiles[k].data;
      if x.enabled {
        CascadedIsSound(db, p, id, db.profiles[k].tenant, x, now);
      } else {
        DisabledStays(x, subject, now);
      }
    }
  }

  lemma DisabledStays(x: Profile, subject: string, now: Time)
    requires !x.enabled
    ensures Accounts.WithoutTarget(x, subject, now) == x
  {
  }

  lemma AccountsKeepIntegrity(config: Config, db: Db, p: Principal, op: Accounts.AccountOp, env: Env)
    requires Integrity(db) && ValidEnv(config, db, env)
    ensures Integrity(Accounts.Exec(config, db, p, op, env).db)
  {
    var own := View(db, p.tenant);
    var saved := Accounts.Decide(config, own, p, op, env).saved;
    SavedAccount(config, own, p, op, env);
    if !saved.Nothing? {
      OwnRow(db.users, p.tenant, saved.id);
    }
    match saved {
      case Nothing =>
      case SavedUser(id, user, action) =>
        NoRowNoUser(db.users, p.tenant, user.subject);
        assert own.users == Own(db.users, p.tenant);
        hide Accounts.Decide, View, Own, Integrity, HasUser, Accounts.Apply;
        SavedUserKeepsIntegrity(db, p, id, user, action, env.now);
      case RemovedUser(id, subject) =>
        assert own.users == Own(db.users, p.tenant);
        hide Accounts.Decide, View, Own, Integrity, Accounts.Apply;
        RemovedUserKeepsIntegrity(db, p, id, env.now);
    }
  }

  /** A saved user is new under a subject not in use, or keeps its subject; a removed user is the tenant's own. */
  lemma SavedAccount(config: Config, own: Db, p: Principal, op: Accounts.AccountOp, env: Env)
    ensures var saved := Accounts.Decide(config, own, p, op, env).saved;
            && (saved.SavedUser? ==>
                  (saved.id == env.newId && Accounts.WithSubject(own.users, saved.user.subject) == {})
                  || (saved.id in own.users && saved.user.subject == own.users[saved.id].data.subject))
            && (saved.RemovedUser? ==> saved.id in own.users && own.users[saved.id].data.subject == saved.subject)
  {
    hide Accounts.Grant, Accounts.WithSubject, Accounts.OtherAdministrator;
  }

  lemma SetUpKeepsIntegrity(config: Config, db: Db, c: Accounts.Credentials, displayName: string, env: Env)
    requires Integrity(db) && ValidEnv(config, db, env)
    ensures Integrity(Accounts.SetUp(config, db, c, displayName, env).db)
  {
    var tenant := Strip(c.tenant);
    var user := Accounts.FirstAdministrator(config, c, displayName, env.now);
    var p := Accounts.PrincipalOf(tenant, user);
    NoRowNoUser(db.users, tenant, user.subject);
    if Accounts.SetUp(config, db, c, displayName, env).response.SignedIn? {
      SavedUserKeepsIntegrity(db, p, env.newId, user, InstallationAdminCreated, env.now);
      var saved := Accounts.Apply(db, p, Accounts.SavedUser(env.newId, user, InstallationAdminCreated), env.now);
      hide Integrity, Accounts.Apply, Own, HasUser;
      SameTablesKeepIntegrity(saved, saved.(initialized := true));
    }
  }

  // ---- every step, every run

  lemma OpKeepsIntegrity(config: Config, db: Db, p: Principal, op: Op, env: Env)
    requires Integrity(db) && ValidEnv(config, db, env)
    ensures Integrity(ExecOp(config, db, p, op, env).db)
  {
    hide Support.Exec, FileServers.Exec, Deployments.Exec, Accounts.Exec, Vpn.Exec, Clients.Exec, Integrity, ValidEnv;
    match op {
      case OfSupport(o) =>
        Support.Frame(db, p, o, env);
        SameTablesKeepIntegrity(db, Support.Exec(db, p, o, env).db);
      case OfFileServers(o) => FileServersKeepIntegrity(config, db, p, o, env);
      case OfDeployments(o) => DeploymentsKeepIntegrity(config, db, p, o, env);
      case OfAccounts(o) => AccountsKeepIntegrity(config, db, p, o, env);
      case OfVpn(o) => VpnKeepsIntegrity(config, db, p, o, env);
      case OfClients(o) =>
        Clients.Frame(config, db, p, o, env);
        SameTablesKeepIntegrity(db, Clients.Exec(config, db, p, o, env).db);
    }
  }

  lemma StepKeepsIntegrity(config: Config, db: Db, step: Step)
    requires Integrity(db) && ValidEnv(config, db, step.env)
    ensures Integrity(Exec(config, db, step).db)
  {
    hide ExecOp, Accounts.Login, Accounts.SetUp, Integrity, ValidEnv;
    match step.call {
      case Call(p, op) => OpKeepsIntegrity(config, db, p, op, step.env);
      case Login(c) => SameTablesKeepIntegrity(db, Accounts.Login(config, db, c, step.env).db);
      case SetUp(c, displayName) => SetUpKeepsIntegrity(config, db, c, displayName, step.env);
    }
  }

  lemma {:induction false} RunKeepsIntegrity(config: Config, db: Db, steps: seq<Step>)
    requires Integrity(db) && ValidRun(config, db, steps)
    ensures Integrity(Run(config, db, steps))
    decreases |steps|
  {
    hide Integrity, Exec, ValidEnv;
    if steps == [] {
    } else {
      StepKeepsIntegrity(config, db, steps[0]);
      RunKeepsIntegrity(config, Exec(config, db, steps[0]).db, steps[1..]);
    }
  }

  /**
   * In every reachable state an enabled profile has a non-empty strictly sorted list of targets that are users of its
   * tenant, its file servers are rows of its tenant, its routes are normalized, and its network is the tenant's only one.
   */
  lemma ReachableProfilesAreSound(config: Config, steps: seq<Step>, id: Id)
    requires ValidRun(config, EMPTY, steps)
    ensures var db := Run(config, EMPTY, steps);
            id in db.profiles && db.profiles[id].data.enabled ==>
              && Sound(db, db.profiles[id].tenant, db.profiles[id].data)
              && forall n :: Has(db.networks, db.profiles[id].tenant, n) ==> n == db.profiles[id].data.networkId
  {
    RunKeepsIntegrity(config, EMPTY, steps);
  }

  /** So the network that a bootstrap finds by tenant alone is the one its profile names. */
  lemma BootstrapFindsTheProfilesNetwork(config: Config, steps: seq<Step>, id: Id, env: Env)
    requires ValidRun(config, EMPTY, steps) && ValidEnv(config, Run(config, EMPTY, steps), env)
    ensures var db := Run(config, EMPTY, steps);
            id in db.profiles && db.profiles[id].data.enabled ==>
              Vpn.TheNetwork(View(db, db.profiles[id].tenant), env) == Some(db.profiles[id].data.networkId)
  {
    ReachableProfilesAreSound(config, steps, id);
    var db := Run(config, EMPTY, steps);
    if id in db.profiles && db.profiles[id].data.enabled {
      hide Run, ValidRun, Sound;
      OnlyNetworkIsFound(config, db, db.profiles[id].tenant, db.profiles[id].data.networkId, env);
    }
  }

  lemma OnlyNetworkIsFound(config: Config, db: Db, tenant: string, id: Id, env: Env)
    requires ValidEnv(config, db, env) && Has(db.networks, tenant, id)
    requires forall n :: Has(db.networks, tenant, n) ==> n == id
    ensures Vpn.TheNetwork(View(db, tenant), env) == Some(id)
  {
    var rows := Own(db.networks, tenant);
    assert id in env.order && id in rows.Keys;
    forall n | n in rows.Keys ensures n == id {
      assert Has(db.networks, tenant, n);
    }
  }
}
