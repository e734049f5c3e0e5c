/** What a server key that is set but cannot be used means for runs: no network, profile or code is ever stored. */
module ServerKey {
  import opened Wrappers
  import opened Rows
  import opened Tables
  import opened ControlPlane
  import Accounts
  import Clients
  import Deployments
  import FileServers
  import Support
  import Vpn
  import X25519

  /** A key that the server can use, or none at all. */
  predicate Usable(config: Config) {
    config.wireguardKey == "" || X25519.ValidateKey(config.wireguardKey).Ok?
  }

  ghost predicate NothingStored(db: Db) {
    db.networks == map[] && db.profiles == map[] && db.enrollments == map[]
  }

  lemma OwnOfNothing(db: Db, tenant: string)
    requires NothingStored(db)
    ensures var own := View(db, tenant); own.networks == map[] && own.profiles == map[] && own.enrollments == map[]
  {
    hide OwnEvents;
  }

  /** Without a usable key no configuration is rendered, so no VPN change is committed. */
  lemma NothingIsApplied(config: Config, networkId: Id, network: Network, peers: Table<Peer>, env: Env)
    requires !Usable(config)
    ensures Vpn.SyncVpn(config, networkId, network, peers, env) == Vpn.SyncFailed(ServerError, Unchanged)
  {
    hide X25519.ValidateKey;
  }

  lemma VpnStoresNothing(config: Config, db: Db, p: Principal, op: Vpn.VpnOp, env: Env)
    requires !Usable(config)
    ensures Vpn.Exec(config, db, p, op, env).db == db
  {
    var saved := Vpn.Decide(config, View(db, p.tenant), p, op, env).saved;
    hide Usable, Vpn.SyncVpn, Vpn.Decide, View, Vpn.Apply, Own;
    if !saved.Nothing? {
      var next := Vpn.Apply(db, p, saved, env.now);
      NothingIsApplied(config, if saved.SavedNetwork? then saved.id else saved.networkId, saved.network, Own(next.peers, p.tenant), env);
    }
  }

  /** Without a stored network no profile is accepted, and without a stored profile no code is issued. */
  lemma NoReferences(config: Config, own: Db, p: Principal, op: Deployments.DeploymentOp, env: Env)
    requires own.networks == map[] && own.profiles == map[]
    ensures Deployments.Decide(config, own, p, op, env).saved.Nothing?
  {
    assert (op.CreateProfile? || op.UpdateProfile?) ==> Deployments.Validate(own, op.body).None?;
    hide Deployments.Validate, Deployments.ProfileNameTaken, Deployments.Delivered;
  }

  lemma DeploymentsStoreNothing(config: Config, db: Db, p: Principal, op: Deployments.DeploymentOp, env: Env)
    requires NothingStored(db)
    ensures NothingStored(Deployments.Exec(config, db, p, op, env).db)
  {
    OwnOfNothing(db, p.tenant);
    hide View, Deployments.Decide;
    NoReferences(config, View(db, p.tenant), p, op, env);
  }

  lemma AccountsStoreNothing(config: Config, db: Db, p: Principal, op: Accounts.AccountOp, env: Env)
    requires NothingStored(db)
    ensures NothingStored(Accounts.Exec(config, db, p, op, env).db)
  {
    var saved := Accounts.Decide(config, View(db, p.tenant), p, op, env).saved;
    hide View, Accounts.Decide;
    if saved.RemovedUser? {
      assert Accounts.Cascade(db.profiles, p.tenant, saved.subject, env.now) == map[];
    }
  }

  lemma ClientsStoreNothing(config: Config, db: Db, p: Principal, op: Clients.ClientOp, env: Env)
    requires NothingStored(db)
    ensures NothingStored(Clients.Exec(config, db, p, op, env).db)
  {
    var saved := Clients.Decide(config, View(db, p.tenant), p, op, env).saved;
    OwnOfNothing(db, p.tenant);
    assert saved.Changes? ==> saved.code.None?;
    hide View, Clients.Decide, Clients.SyncPeer, Own, Put;
  }

  lemma OpStoresNothing(config: Config, db: Db, p: Principal, op: Op, env: Env)
    requires !Usable(config) && NothingStored(db)
    ensures NothingStored(ExecOp(config, db, p, op, env).db)
  {
    hide Support.Exec, FileServers.Exec, Deployments.Exec, Accounts.Exec, Vpn.Exec, Clients.Exec, Usable;
    match op {
      case OfSupport(o) => Support.Frame(db, p, o, env);
      case OfFileServers(o) => FileServers.Frame(db, p, o, env);
      case OfDeployments(o) => DeploymentsStoreNothing(config, db, p, o, env);
      case OfAccounts(o) => AccountsStoreNothing(config, db, p, o, env);
      case OfVpn(o) => VpnStoresNothing(config, db, p, o, env);
      case OfClients(o) => ClientsStoreNothing(config, db, p, o, env);
    }
  }

  lemma StepStoresNothing(config: Config, db: Db, step: Step)
    requires !Usable(config) && NothingStored(db)
    ensures NothingStored(Exec(config, db, step).db)
  {
    hide ExecOp, Accounts.Login, Accounts.SetUp, Usable;
    if step.call.Call? {
      OpStoresNothing(config, db, step.call.principal, step.call.op, step.env);
    }
  }

  lemma {:induction false} RunStoresNothing(config: Config, db: Db, steps: seq<Step>)
    requires !Usable(config) && NothingStored(db)
    ensures NothingStored(Run(config, db, steps))
    decreases |steps|
  {
    hide Exec, Usable, NothingStored;
    if steps == [] {
    } else {
      StepStoresNothing(config, db, steps[0]);
      RunStoresNothing(config, Exec(config, db, steps[0]).db, steps[1..]);
    }
  }

  /** Where a network is stored, it can be described to clients: its description needs the server's public key. */
  ghost predicate Describable(config: Config, db: Db) {
    Usable(config) || db.networks == map[]
  }

  /** In every reachable state, for every configuration: with an unusable key nothing is stored that would need it. */
  lemma ReachableIsDescribable(config: Config, steps: seq<Step>)
    ensures Describable(config, Run(config, EMPTY, steps))
    ensures !Usable(config) ==> NothingStored(Run(config, EMPTY, steps))
  {
    hide Usable, Run;
    if !Usable(config) {
      RunStoresNothing(config, EMPTY, steps);
    }
  }
}
