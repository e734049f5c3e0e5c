/** What an account is granted: an address inside the network, normalized routes and known roles, in every reachable state. */
module AccountPolicies {
  import opened Wrappers
  import opened Rows
  import opened Tables
  import opened ControlPlane
  import opened Text
  import Accounts
  import Clients
  import Deployments
  import FileServers
  import IPv4
  import Routes
  import StringOrder
  import Support
  import Vpn

  /** No routes, or a list that normalization leaves alone. */
  ghost predicate NormalizedOrNone(routes: string) {
    routes == "" || Routes.NormalizeAllowedIps(routes) == Ok(routes)
  }

  ghost predicate KnownRoles(roles: seq<string>) {
    StringOrder.StrictlySorted(roles) && forall role :: role in roles ==> role in Accounts.ROLES
  }

  /** The text of an address is the printed form of what it parses as. */
  ghost predicate Canonical(address: string) {
    IPv4.Parse(address).Some? && IPv4.Print(IPv4.Parse(address).value) == address
  }

  lemma AcceptedIsCanonical(networkCidr: string, address: string)
    requires Routes.AddressBelongs(networkCidr, address).Ok?
    ensures var text := Routes.AddressBelongs(networkCidr, address).value;
            text != "" && Canonical(text) && Routes.AddressBelongs(networkCidr, text) == Ok(text)
  {
    Routes.AddressBelongsIsCanonical(networkCidr, address);
    IPv4.PrintedText(IPv4.Parse(address).value);
  }

  lemma NormalizedRoutes(routes: string)
    requires Routes.NormalizeAllowedIps(routes).Ok?
    ensures NormalizedOrNone(Routes.NormalizeAllowedIps(routes).value)
  {
    Routes.NormalizeIsIdempotent(routes);
  }

  /**
   * Whatever is asked for: a granted address is accepted again, unchanged, by the tenant's network; granted routes are none
   * or normalized; and the granted roles are exactly those asked for, sorted and known.
   */
  lemma GrantIsSound(own: Db, policy: Accounts.Policy, env: Env)
    requires Accounts.Grant(own, policy, env).Some?
    ensures var g, network := Accounts.Grant(own, policy, env).value, Accounts.NetworkOf(own, env);
            && (g.vpnAddress.Some? ==>
                  && network.Some? && Canonical(g.vpnAddress.value)
                  && Routes.AddressBelongs(network.value.addressCidr, g.vpnAddress.value) == Ok(g.vpnAddress.value))
            && NormalizedOrNone(g.allowedIps)
            && KnownRoles(g.roles) && forall role :: role in g.roles <==> role in policy.roles
  {
    var network := Accounts.NetworkOf(own, env);
    hide Accounts.NetworkOf, Routes.AddressBelongs, Routes.NormalizeAllowedIps, NormalizedOrNone, Canonical, StringOrder.StrictlySorted;
    if network.Some? && policy.vpnAddress.Some? && policy.vpnAddress.value != "" {
      AcceptedIsCanonical(network.value.addressCidr, policy.vpnAddress.value);
    }
    if policy.allowedIps != "" {
      NormalizedRoutes(policy.allowedIps);
    } else {
      NoRoutes();
    }
  }

  lemma NoRoutes()
    ensures NormalizedOrNone("")
  {
  }

  /** An address is dropped only where none was asked for, or where the tenant has no network. */
  lemma GrantKeepsAddress(own: Db, policy: Accounts.Policy, env: Env)
    requires Accounts.Grant(own, policy, env).Some?
    ensures Accounts.Grant(own, policy, env).value.vpnAddress.Some? <==>
              Accounts.NetworkOf(own, env).Some? && policy.vpnAddress.Some? && policy.vpnAddress.value != ""
  {
    var network := Accounts.NetworkOf(own, env);
    hide Accounts.NetworkOf, Routes.AddressBelongs, Routes.NormalizeAllowedIps;
    if network.Some? && policy.vpnAddress.Some? && policy.vpnAddress.value != "" {
      AcceptedIsCanonical(network.value.addressCidr, policy.vpnAddress.value);
    }
  }

  // ---- every reachable state

  ghost predicate SoundUser(user: User) {
    (user.vpnAddress.Some? ==> Canonical(user.vpnAddress.value)) && NormalizedOrNone(user.allowedIps) && KnownRoles(user.roles)
  }

  ghost predicate SoundUsers(users: Table<User>) {
    forall id :: id in users ==> SoundUser(users[id].data)
  }

  lemma SavedUserIsSound(config: Config, own: Db, p: Principal, op: Accounts.AccountOp, env: Env)
    ensures var saved := Accounts.Decide(config, own, p, op, env).saved; saved.SavedUser? ==> SoundUser(saved.user)
  {
    if !op.DeleteUser? && Accounts.Grant(own, op.policy, env).Some? {
      GrantIsSound(own, op.policy, env);
    }
    hide Accounts.Grant, Accounts.WithSubject, Accounts.OtherAdministrator, Canonical, NormalizedOrNone, KnownRoles, Strip;
  }

  lemma AccountsStaySound(config: Config, db: Db, p: Principal, op: Accounts.AccountOp, env: Env)
    requires SoundUsers(db.users)
    ensures SoundUsers(Accounts.Exec(config, db, p, op, env).db.users)
  {
    SavedUserIsSound(config, View(db, p.tenant), p, op, env);
    hide Accounts.Decide, View, SoundUser, Accounts.Cascade;
  }

  lemma FirstAdministratorIsSound(config: Config, c: Accounts.Credentials, displayName: string, now: Time)
    ensures SoundUser(Accounts.FirstAdministrator(config, c, displayName, now))
  {
    var roles := ["tenant_admin"];
    hide Strip, Routes.NormalizeAllowedIps;
    assert forall role :: role in roles ==> role == "tenant_admin";
  }

  lemma StepKeepsUsersSound(config: Config, db: Db, step: Step)
    requires SoundUsers(db.users)
    ensures SoundUsers(Exec(config, db, step).db.users)
  {
    hide Support.Exec, FileServers.Exec, Deployments.Exec, Accounts.Exec, Vpn.Exec, Clients.Exec, Accounts.Login, SoundUser;
    var env := step.env;
    match step.call {
      case Call(p, op) =>
        match op {
          case OfSupport(o) => Support.Frame(db, p, o, env);
          case OfFileServers(o) => FileServers.Frame(db, p, o, env);
          case OfDeployments(o) => Deployments.Frame(config, db, p, o, env);
          case OfAccounts(o) => AccountsStaySound(config, db, p, o, env);
          case OfVpn(o) => Vpn.Frame(config, db, p, o, env);
          case OfClients(o) => Clients.Frame(config, db, p, o, env);
        }
      case Login(_) =>
      case SetUp(c, displayName) =>
        hide View, Accounts.WithSubject, Accounts.FirstAdministrator;
        FirstAdministratorIsSound(config, c, displayName, env.now);
    }
  }

  lemma {:induction false} RunKeepsUsersSound(config: Config, db: Db, steps: seq<Step>)
    requires SoundUsers(db.users)
    ensures SoundUsers(Run(config, db, steps).users)
    decreases |steps|
  {
    hide Exec, SoundUsers;
    if steps == [] {
    } else {
      StepKeepsUsersSound(config, db, steps[0]);
      RunKeepsUsersSound(config, Exec(config, db, steps[0]).db, steps[1..]);
    }
  }

  /** In every reachable state every account has a canonical address or none, normalized routes or none, and known roles. */
  lemma ReachableUsersAreSound(config: Config, steps: seq<Step>, id: Id)
    ensures var users := Run(config, EMPTY, steps).users; id in users ==> SoundUser(users[id].data)
  {
    hide SoundUser, Run;
    RunKeepsUsersSound(config, EMPTY, steps);
  }
}
