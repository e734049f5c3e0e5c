/**
 * What requests about accounts do, on the stored rows themselves: who is signed in and as whom, what an account is created
 * or updated to, and what a deletion leaves behind.
 */
module AccountEffects {
  import opened Wrappers
  import opened Rows
  import opened Tables
  import opened ProfileIntegrity
  import opened Text
  import AccountPolicies
  import Accounts
  import Routes
  import StringOrder
  import Token

  // ---- sign-in and setup

  ghost predicate MaySignIn(config: Config, db: Db, c: Accounts.Credentials, id: Id) {
    && Has(db.users, Strip(c.tenant), id) && db.users[id].data.active && db.users[id].data.subject == Strip(c.subject)
    && config.verifyPassword(c.password, db.users[id].data.passwordHash)
  }

  /** The principal has the tenant, the subject and exactly the roles of the account. */
  ghost predicate ActsFor(p: Principal, tenant: string, user: User) {
    p.tenant == tenant && p.subject == user.subject && forall role :: role in p.roles <==> role in user.roles
  }

  lemma SignInFindsTheUser(config: Config, db: Db, tenant: string, subject: string, env: Env)
    requires ValidEnv(config, db, env) && UniqueSubjects(db.users)
    ensures var rows := View(db, tenant).users;
            var found := First(env.order, Accounts.Active(rows, subject));
            && (found.Some? ==> Has(db.users, tenant, found.value) && rows[found.value] == db.users[found.value]
                                && db.users[found.value].data.active && db.users[found.value].data.subject == subject)
            && forall id :: Has(db.users, tenant, id) && db.users[id].data.active && db.users[id].data.subject == subject ==>
                 found == Some(id)
  {
    hide OwnEvents;
    var rows := View(db, tenant).users;
    var found := First(env.order, Accounts.Active(rows, subject));
    forall id | Has(db.users, tenant, id) && db.users[id].data.active && db.users[id].data.subject == subject ensures found == Some(id) {
      assert id in rows && id in env.order && id in Accounts.Active(rows, subject);
    }
  }

  /** Sign-in is for the active account with that subject and password, as that account; everybody else is refused. */
  lemma SignedInAs(config: Config, db: Db, c: Accounts.Credentials, env: Env)
    requires ValidEnv(config, db, env) && UniqueSubjects(db.users)
    ensures var out := Accounts.Login(config, db, c, env);
            && (out.response.SignedIn? <==> exists id :: MaySignIn(config, db, c, id))
            && (!out.response.SignedIn? ==> out == Outcome(db, Refused(Unauthorized), Unchanged))
            && forall id :: MaySignIn(config, db, c, id) ==>
                 && out.response.SignedIn? && ActsFor(out.response.principal, Strip(c.tenant), db.users[id].data)
                 && out.db == db.(audit := db.audit + [Event(Strip(c.tenant), Strip(c.subject), SessionLogin, OnUser, id, env.now)])
                 && out.effect == Unchanged
  {
    SignInFindsTheUser(config, db, Strip(c.tenant), Strip(c.subject), env);
    hide View, Strip, ValidEnv, UniqueSubjects;
    var rows := View(db, Strip(c.tenant)).users;
    var found := First(env.order, Accounts.Active(rows, Strip(c.subject)));
    hide First, Accounts.Active;
    if found.Some? && config.verifyPassword(c.password, rows[found.value].data.passwordHash) {
      assert MaySignIn(config, db, c, found.value);
    }
  }

  /** The first setup makes an administrator with that role alone; afterwards, or with a subject in use, it is refused. */
  lemma SetUpAs(config: Config, db: Db, c: Accounts.Credentials, displayName: string, env: Env)
    ensures var out, tenant, subject := Accounts.SetUp(config, db, c, displayName, env), Strip(c.tenant), Strip(c.subject);
            var user := User(subject, Strip(displayName), None, config.hashPassword(c.password), ["tenant_admin"], None, "", 1, true,
                             env.now);
            if db.initialized || HasUser(db.users, tenant, subject) then out == Outcome(db, Refused(Conflict), Unchanged)
            else
              out == Outcome(db.(initialized := true, users := db.users[env.newId := Row(tenant, user)],
                                 audit := db.audit + [Event(tenant, subject, InstallationAdminCreated, OnUser, env.newId, env.now)]),
                             SignedIn(Token.Principal(subject, tenant, {"tenant_admin"})), Unchanged)
  {
    var tenant, subject := Strip(c.tenant), Strip(c.subject);
    SubjectInUse(db, tenant, subject);
    assert (set role | role in ["tenant_admin"]) == {"tenant_admin"};
    hide Strip, View, HasUser, Accounts.WithSubject;
  }

  lemma SubjectInUse(db: Db, tenant: string, subject: string)
    ensures Accounts.WithSubject(View(db, tenant).users, subject) != {} <==> HasUser(db.users, tenant, subject)
  {
    hide OwnEvents;
    var rows := View(db, tenant).users;
    if id :| id in Accounts.WithSubject(rows, subject) {
      assert Has(db.users, tenant, id);
    }
    if HasUser(db.users, tenant, subject) {
      var id :| Has(db.users, tenant, id) && db.users[id].data.subject == subject;
      assert id in Accounts.WithSubject(rows, subject);
    }
  }

  // ---- what an account is granted

  ghost predicate AsksForAddress(policy: Accounts.Policy) {
    policy.vpnAddress.Some? && policy.vpnAddress.value != ""
  }

  /** Known roles, routes that can be normalized, and an address that the tenant's network has room for. */
  ghost predicate MayBeGranted(db: Db, tenant: string, policy: Accounts.Policy) {
    && policy.roles <= {"tenant_admin", "support", "auditor", "member"}
    && (policy.allowedIps != "" ==> Routes.NormalizeAllowedIps(policy.allowedIps).Ok?)
    && (AsksForAddress(policy) ==>
          forall n :: Has(db.networks, tenant, n) ==>
              Routes.AddressBelongs(db.networks[n].data.addressCidr, policy.vpnAddress.value).Ok?)
  }

  /** The roles asked for in order, the routes normalized, and the address in its canonical form where there is a network. */
  ghost predicate IsGranted(db: Db, tenant: string, policy: Accounts.Policy, g: Accounts.Granted) {
    && StringOrder.StrictlySorted(g.roles) && (forall role :: role in g.roles <==> role in policy.roles)
    && (if policy.allowedIps == "" then g.allowedIps == "" else Routes.NormalizeAllowedIps(policy.allowedIps) == Ok(g.allowedIps))
    && (g.vpnAddress.Some? <==> AsksForAddress(policy) && exists n :: Has(db.networks, tenant, n))
    && (g.vpnAddress.Some? ==>
          forall n :: Has(db.networks, tenant, n) ==>
              Routes.AddressBelongs(db.networks[n].data.addressCidr, policy.vpnAddress.value) == Ok(g.vpnAddress.value))
  }

  function GrantOf(user: User): Accounts.Granted {
    Accounts.Granted(user.vpnAddress, user.allowedIps, user.roles)
  }

  lemma NoGrantWithoutNetwork(db: Db, tenant: string, policy: Accounts.Policy, network: Option<Network>)
    requires network.None? <==> forall n :: !Has(db.networks, tenant, n)
    requires forall n :: Has(db.networks, tenant, n) ==> network == Some(db.networks[n].data)
    ensures AsksForAddress(policy) && (exists n :: Has(db.networks, tenant, n)) <==> AsksForAddress(policy) && network.Some?
    ensures AsksForAddress(policy) && network.Some? ==>
              ((forall n :: Has(db.networks, tenant, n) ==>
                    Routes.AddressBelongs(db.networks[n].data.addressCidr, policy.vpnAddress.value).Ok?)
               <==> Routes.AddressBelongs(network.value.addressCidr, policy.vpnAddress.value).Ok?)
  {
    hide Routes.AddressBelongs;
  }

  lemma TheNetworkIsFound(config: Config, db: Db, tenant: string, env: Env)
    requires ValidEnv(config, db, env) && UniqueNetworks(db.networks)
    ensures var found := Accounts.NetworkOf(View(db, tenant), env);
            && (found.None? <==> forall n :: !Has(db.networks, tenant, n))
            && (forall n :: Has(db.networks, tenant, n) ==> found == Some(db.networks[n].data))
  {
    hide OwnEvents;
    var rows := View(db, tenant).networks;
    var found := First(env.order, rows.Keys);
    forall n | Has(db.networks, tenant, n) ensures found == Some(n) {
      assert n in rows.Keys && n in env.order;
      assert found.value in rows.Keys;
    }
    if found.Some? {
      assert found.value in rows.Keys && Has(db.networks, tenant, found.value);
    }
  }

  lemma GrantsExactly(config: Config, db: Db, tenant: string, policy: Accounts.Policy, env: Env)
    requires ValidEnv(config, db, env) && UniqueNetworks(db.networks)
    ensures var g := Accounts.Grant(View(db, tenant), policy, env);
            && (g.Some? <==> MayBeGranted(db, tenant, policy))
            && (g.Some? ==> IsGranted(db, tenant, policy, g.value))
  {
    hide View, ValidEnv, UniqueNetworks, Accounts.Grant, Routes.AddressBelongs, Routes.NormalizeAllowedIps, StringOrder.StrictlySorted;
    var network := Accounts.NetworkOf(View(db, tenant), env);
    TheNetworkIsFound(config, db, tenant, env);
    GrantByNetwork(View(db, tenant), policy, env);
    NoGrantWithoutNetwork(db, tenant, policy, network);
    hide Accounts.NetworkOf;
  }

  /** The grant, by the network that the tenant has or has not. */
  lemma GrantByNetwork(own: Db, policy: Accounts.Policy, env: Env)
    ensures var g, network := Accounts.Grant(own, policy, env), Accounts.NetworkOf(own, env);
            && (g.Some? <==>
                  && policy.roles <= {"tenant_admin", "support", "auditor", "member"}
                  && (policy.allowedIps != "" ==> Routes.NormalizeAllowedIps(policy.allowedIps).Ok?)
                  && (AsksForAddress(policy) && network.Some? ==>
                        Routes.AddressBelongs(network.value.addressCidr, policy.vpnAddress.value).Ok?))
            && (g.Some? ==>
                  && StringOrder.StrictlySorted(g.value.roles) && (forall role :: role in g.value.roles <==> role in policy.roles)
                  && (if policy.allowedIps == "" then g.value.allowedIps == ""
                      else Routes.NormalizeAllowedIps(policy.allowedIps) == Ok(g.value.allowedIps))
                  && (g.value.vpnAddress.Some? <==> AsksForAddress(policy) && network.Some?)
                  && (g.value.vpnAddress.Some? ==>
                        Routes.AddressBelongs(network.value.addressCidr, policy.vpnAddress.value) == Ok(g.value.vpnAddress.value)))
  {
    hide Accounts.NetworkOf, Routes.AddressBelongs, Routes.NormalizeAllowedIps, StringOrder.StrictlySorted;
    var network := Accounts.NetworkOf(own, env);
    if network.Some? && AsksForAddress(policy) && Routes.AddressBelongs(network.value.addressCidr, policy.vpnAddress.value).Ok? {
      AccountPolicies.AcceptedIsCanonical(network.value.addressCidr, policy.vpnAddress.value);
    }
  }

  // ---- creating and updating

  /** A decision is committed as it is: nothing, or the one row and its event. */
  lemma CommittedUser(db: Db, p: Principal, d: Accounts.Decided, now: Time)
    requires !d.saved.RemovedUser?
    ensures Accounts.Committed(db, p, d, now)
         == if d.saved.Nothing? then Outcome(db, d.response, Unchanged)
            else
              Outcome(db.(users := db.users[d.saved.id := Row(p.tenant, d.saved.user)],
                          audit := db.audit + [Event(p.tenant, p.subject, d.saved.action, OnUser, d.saved.id, now)]),
                      d.response, Unchanged)
  {
  }

  function Email(policy: Accounts.Policy): Option<string> {
    if policy.email == None || policy.email == Some("") then None else Some(Strip(policy.email.value))
  }

  ghost predicate Created(config: Config, db: Db, tenant: string, subject: string, password: string, policy: Accounts.Policy, now: Time,
                          user: User)
  {
    && IsGranted(db, tenant, policy, GrantOf(user))
    && user == User(Strip(subject), Strip(policy.displayName), Email(policy), config.hashPassword(password), user.roles,
                    user.vpnAddress, user.allowedIps, 1, true, now)
  }

  lemma CreatedUser(config: Config, db: Db, p: Principal, subject: string, password: string, policy: Accounts.Policy, env: Env)
    requires ValidEnv(config, db, env) && UniqueNetworks(db.networks)
    ensures var out := Accounts.Exec(config, db, p, Accounts.CreateUser(subject, password, policy), env);
            if "tenant_admin" !in p.roles then out == Outcome(db, Refused(Forbidden), Unchanged)
            else if !MayBeGranted(db, p.tenant, policy) then out == Outcome(db, Refused(Unprocessable), Unchanged)
            else if HasUser(db.users, p.tenant, Strip(subject)) then out == Outcome(db, Refused(Conflict), Unchanged)
            else
              && out.response.UserRead?
              && Created(config, db, p.tenant, subject, password, policy, env.now, out.response.user)
              && out == Outcome(db.(users := db.users[env.newId := Row(p.tenant, out.response.user)],
                                    audit := db.audit + [Event(p.tenant, p.subject, UserCreated, OnUser, env.newId, env.now)]),
                                UserRead(env.newId, out.response.user), Unchanged)
  {
    GrantsExactly(config, db, p.tenant, policy, env);
    SubjectInUse(db, p.tenant, Strip(subject));
    hide View, Strip, Accounts.Grant, Accounts.WithSubject, IsGranted, MayBeGranted, HasUser, ValidEnv, UniqueNetworks;
    hide Accounts.Committed;
    CommittedUser(db, p, Accounts.Decide(config, View(db, p.tenant), p, Accounts.CreateUser(subject, password, policy), env), env.now);
  }

  ghost predicate Updated(config: Config, db: Db, tenant: string, was: User, active: bool, password: Option<string>,
                          policy: Accounts.Policy, now: Time, user: User)
  {
    && IsGranted(db, tenant, policy, GrantOf(user))
    && user == User(was.subject, Strip(policy.displayName), Email(policy),
                    if password == None || password == Some("") then was.passwordHash else config.hashPassword(password.value),
                    user.roles, user.vpnAddress, user.allowedIps, was.policyVersion + 1, active, now)
  }

  lemma UpdatedAccount(config: Config, db: Db, p: Principal, id: Id, active: bool, password: Option<string>, policy: Accounts.Policy,
                       env: Env)
    requires ValidEnv(config, db, env) && UniqueNetworks(db.networks)
    ensures var out := Accounts.Exec(config, db, p, Accounts.UpdateUser(id, active, password, policy), env);
            if "tenant_admin" !in p.roles then out == Outcome(db, Refused(Forbidden), Unchanged)
            else if !Has(db.users, p.tenant, id) then out == Outcome(db, Refused(NotFound), Unchanged)
            else if !MayBeGranted(db, p.tenant, policy) then out == Outcome(db, Refused(Unprocessable), Unchanged)
            else
              && out.response.UserRead?
              && Updated(config, db, p.tenant, db.users[id].data, active, password, policy, env.now, out.response.user)
              && out == Outcome(db.(users := db.users[id := Row(p.tenant, out.response.user)],
                                    audit := db.audit + [Event(p.tenant, p.subject, UserUpdated, OnUser, id, env.now)]),
                                UserRead(id, out.response.user), Unchanged)
  {
    hide View, Strip, Accounts.Grant, IsGranted, MayBeGranted, ValidEnv, UniqueNetworks, Accounts.Committed;
    GrantsExactly(config, db, p.tenant, policy, env);
    ViewRow(db, p.tenant, id);
    CommittedUser(db, p, Accounts.Decide(config, View(db, p.tenant), p, Accounts.UpdateUser(id, active, password, policy), env), env.now);
  }

  // ---- deleting

  /** An enabled profile loses the target under its next revision, and stays enabled while another target is left. */
  ghost predicate LosesTarget(x: Profile, y: Profile, subject: string, now: Time) {
    if !x.enabled || subject !in x.targetSubjects then y == x
    else
      && (forall t :: t in y.targetSubjects <==> t in x.targetSubjects && t != subject)
      && (StringOrder.StrictlySorted(x.targetSubjects) ==> StringOrder.StrictlySorted(y.targetSubjects))
      && (y.enabled <==> exists t :: t in x.targetSubjects && t != subject)
      && y == x.(targetSubjects := y.targetSubjects, enabled := y.enabled, revision := x.revision + 1, updatedAt := now)
  }

  /** Every profile of the tenant loses the target, and no other profile changes. */
  ghost predicate ProfilesLoseTarget(a: Table<Profile>, b: Table<Profile>, tenant: string, subject: string, now: Time) {
    && b.Keys == a.Keys
    && forall k :: k in a ==>
         && b[k].tenant == a[k].tenant
         && (if a[k].tenant == tenant then LosesTarget(a[k].data, b[k].data, subject, now) else b[k] == a[k])
  }

  lemma TargetIsLost(x: Profile, subject: string, now: Time)
    ensures LosesTarget(x, Accounts.WithoutTarget(x, subject, now), subject, now)
  {
    var y := Accounts.WithoutTarget(x, subject, now);
    if x.enabled && subject in x.targetSubjects && y.enabled {
      assert y.targetSubjects[0] in y.targetSubjects;
    }
  }

  lemma CascadeLosesTarget(t: Table<Profile>, tenant: string, subject: string, now: Time)
    ensures ProfilesLoseTarget(t, Accounts.Cascade(t, tenant, subject, now), tenant, subject, now)
  {
    hide LosesTarget, Accounts.WithoutTarget;
    forall k | k in t ensures LosesTarget(t[k].data, Accounts.WithoutTarget(t[k].data, subject, now), subject, now) {
      TargetIsLost(t[k].data, subject, now);
    }
  }

  ghost predicate OtherAdministrator(db: Db, tenant: string, id: Id) {
    exists k :: k != id && Has(db.users, tenant, k) && db.users[k].data.active && "tenant_admin" in db.users[k].data.roles
  }

  lemma OthersAdminister(db: Db, tenant: string, id: Id)
    ensures Accounts.OtherAdministrator(View(db, tenant).users, id) <==> OtherAdministrator(db, tenant, id)
  {
    hide OwnEvents;
    var rows := View(db, tenant).users;
    if OtherAdministrator(db, tenant, id) {
      var k :| k != id && Has(db.users, tenant, k) && db.users[k].data.active && "tenant_admin" in db.users[k].data.roles;
      assert k in rows;
    }
    if k :| k in rows && k != id && rows[k].data.active && "tenant_admin" in rows[k].data.roles {
      assert Has(db.users, tenant, k);
    }
  }

  lemma CommittedRemoval(db: Db, p: Principal, d: Accounts.Decided, now: Time)
    requires !d.saved.SavedUser?
    ensures Accounts.Committed(db, p, d, now)
         == if d.saved.Nothing? then Outcome(db, d.response, Unchanged)
            else
              Outcome(db.(users := db.users - {d.saved.id}, profiles := Accounts.Cascade(db.profiles, p.tenant, d.saved.subject, now),
                          audit := db.audit + [Event(p.tenant, p.subject, UserDeleted, OnUser, d.saved.id, now)]),
                      d.response, Unchanged)
  {
    hide Accounts.Cascade;
  }

  /** An administrator deletes any account but their own and the last administrator's. */
  lemma DeletedUser(config: Config, db: Db, p: Principal, id: Id, env: Env)
    ensures var out := Accounts.Exec(config, db, p, Accounts.DeleteUser(id), env);
            if "tenant_admin" !in p.roles then out == Outcome(db, Refused(Forbidden), Unchanged)
            else if !Has(db.users, p.tenant, id) then out == Outcome(db, Refused(NotFound), Unchanged)
            else
              var user := db.users[id].data;
              if user.subject == p.subject || ("tenant_admin" in user.roles && !OtherAdministrator(db, p.tenant, id))
              then out == Outcome(db, Refused(Conflict), Unchanged)
              else
                && ProfilesLoseTarget(db.profiles, out.db.profiles, p.tenant, user.subject, env.now)
                && out == Outcome(db.(users := db.users - {id}, profiles := out.db.profiles,
                                      audit := db.audit + [Event(p.tenant, p.subject, UserDeleted, OnUser, id, env.now)]),
                                  NoContent, Unchanged)
  {
    hide View, Accounts.OtherAdministrator, OtherAdministrator, ProfilesLoseTarget, Accounts.Cascade, Accounts.Committed;
    CommittedRemoval(db, p, Accounts.Delete(View(db, p.tenant), p, id), env.now);
    ViewRow(db, p.tenant, id);
    OthersAdminister(db, p.tenant, id);
    if Has(db.users, p.tenant, id) {
      CascadeLosesTarget(db.profiles, p.tenant, db.users[id].data.subject, env.now);
    }
  }
}
