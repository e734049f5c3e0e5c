/**
 * What the unique constraints of the tables say holds in every reachable state: names of file servers and profiles are
 * unique within a tenant, keys and addresses of peers within a network.
 */
module UniqueRows {
  import opened Wrappers
  import opened Rows
  import opened Tables
  import opened ControlPlane
  import opened Text
  import Accounts
  import Clients
  import Deployments
  import FileServers
  import Support
  import Vpn

  /** No two rows of one tenant have the same key. */
  ghost predicate UniqueBy<D(!new), K(!new)>(t: Table<D>, key: D -> K) {
    forall i, j :: i in t && j in t && i != j && t[i].tenant == t[j].tenant ==> key(t[i].data) != key(t[j].data)
  }

  /** No other row than the one under this id has the key of the given data. */
  ghost predicate Free<D(!new), K(!new)>(t: Table<D>, key: D -> K, id: Id, d: D) {
    forall k :: k in t && k != id ==> key(t[k].data) != key(d)
  }

  function ServerName(x: FileServer): string {
    x.name
  }

  function ProfileName(x: Profile): string {
    x.name
  }

  function PeerKey(x: Peer): (Id, string) {
    (x.networkId, x.publicKey)
  }

  function PeerAddress(x: Peer): (Id, string) {
    (x.networkId, x.address)
  }

  ghost predicate UniquePeers(peers: Table<Peer>) {
    UniqueBy(peers, PeerKey) && UniqueBy(peers, PeerAddress)
  }

  ghost predicate FreePeer(peers: Table<Peer>, id: Id, x: Peer) {
    Free(peers, PeerKey, id, x) && Free(peers, PeerAddress, id, x)
  }

  /** No two codes, of whatever tenants, have the same hash. */
  ghost predicate UniqueHashes(codes: Table<Enrollment>) {
    forall i, j :: i in codes && j in codes && codes[i].data.tokenHash == codes[j].data.tokenHash ==> i == j
  }

  ghost predicate Unique(db: Db) {
    UniqueBy(db.servers, ServerName) && UniqueBy(db.profiles, ProfileName) && UniquePeers(db.peers) && UniqueHashes(db.enrollments)
  }

  // ---- rows of one tenant

  lemma PutKeepsUnique<D(!new), K(!new)>(t: Table<D>, key: D -> K, tenant: string, id: Id, d: D)
    requires UniqueBy(t, key) && (id in t ==> t[id].tenant == tenant) && Free(Own(t, tenant), key, id, d)
    ensures UniqueBy(Put(t, tenant, id, d), key)
  {
    var next := Put(t, tenant, id, d);
    forall k | k in t && k != id && t[k].tenant == tenant ensures key(t[k].data) != key(d) {
      assert k in Own(t, tenant) && Own(t, tenant)[k] == t[k];
    }
  }

  /** A row that keeps its key stays the only one with it. */
  lemma SameKeyIsFree<D(!new), K(!new)>(t: Table<D>, key: D -> K, tenant: string, id: Id, d: D)
    requires UniqueBy(t, key) && id in Own(t, tenant) && key(d) == key(t[id].data)
    ensures Free(Own(t, tenant), key, id, d)
  {
  }

  lemma SavedKeepsUnique<D(!new), K(!new)>(t: Table<D>, key: D -> K, tenant: string, id: Id, d: D)
    requires UniqueBy(t, key) && (id in t ==> t[id].tenant == tenant)
    requires Free(Own(t, tenant), key, id, d) || (id in Own(t, tenant) && key(d) == key(Own(t, tenant)[id].data))
    ensures UniqueBy(Put(t, tenant, id, d), key)
  {
    hide UniqueBy, Free, Put;
    if id in Own(t, tenant) && key(d) == key(t[id].data) {
      SameKeyIsFree(t, key, tenant, id, d);
    }
    PutKeepsUnique(t, key, tenant, id, d);
  }

  lemma SameTables(a: Db, b: Db)
    requires Unique(a)
    requires b.servers == a.servers && b.profiles == a.profiles && b.peers == a.peers && b.enrollments == a.enrollments
    ensures Unique(b)
  {
    hide UniqueBy;
  }

  // ---- file servers

  lemma SavedServerName(own: Db, p: Principal, op: FileServers.FileServerOp, env: Env)
    ensures var saved := FileServers.Decide(own, p, op, env).saved;
            saved.SavedServer? ==>
              Free(own.servers, ServerName, saved.id, saved.server)
              || (saved.id in own.servers && saved.server.name == own.servers[saved.id].data.name)
  {
    hide FileServers.HostOf, FileServers.Normalized;
  }

  lemma FreshServer(config: Config, db: Db, p: Principal, op: FileServers.FileServerOp, env: Env)
    requires ValidEnv(config, db, env)
    ensures var saved := FileServers.Decide(View(db, p.tenant), p, op, env).saved;
            saved.SavedServer? && saved.id in db.servers ==> db.servers[saved.id].tenant == p.tenant
  {
    var saved := FileServers.Decide(View(db, p.tenant), p, op, env).saved;
    hide FileServers.Decide, OwnEvents;
    if saved.SavedServer? {
      OwnRow(db.servers, p.tenant, saved.id);
    }
  }

  lemma FileServersStayUnique(config: Config, db: Db, p: Principal, op: FileServers.FileServerOp, env: Env)
    requires Unique(db) && ValidEnv(config, db, env)
    ensures Unique(FileServers.Exec(db, p, op, env).db)
  {
    var own := View(db, p.tenant);
    var saved := FileServers.Decide(own, p, op, env).saved;
    SavedServerName(own, p, op, env);
    FreshServer(config, db, p, op, env);
    assert own.servers == Own(db.servers, p.tenant);
    hide FileServers.Decide, View, UniqueBy, Free, Own, ValidEnv, UniquePeers;
    if saved.SavedServer? {
      hide Put;
      SavedKeepsUnique(db.servers, ServerName, p.tenant, saved.id, saved.server);
    }
  }

  // ---- profiles

  lemma SavedProfileName(config: Config, own: Db, p: Principal, op: Deployments.DeploymentOp, env: Env)
    ensures var saved := Deployments.Decide(config, own, p, op, env).saved;
            saved.SavedProfile? ==>
              Free(own.profiles, ProfileName, saved.id, saved.profile)
              || (saved.id in own.profiles && saved.profile.name == own.profiles[saved.id].data.name)
  {
    hide Deployments.Validate, Deployments.Delivered;
  }

  lemma DeploymentsStayUnique(config: Config, db: Db, p: Principal, op: Deployments.DeploymentOp, env: Env)
    requires Unique(db) && ValidEnv(config, db, env)
    ensures Unique(Deployments.Exec(config, db, p, op, env).db)
  {
    var own := View(db, p.tenant);
    var saved := Deployments.Decide(config, own, p, op, env).saved;
    SavedProfileName(config, own, p, op, env);
    assert own.profiles == Own(db.profiles, p.tenant);
    NewHash(config, db, p, op, env);
    hide Deployments.Decide, View, UniqueBy, Free, Own, UniqueHashes, ValidEnv;
    hide Put;
    if saved.SavedProfile? {
      SavedKeepsUnique(db.profiles, ProfileName, p.tenant, saved.id, saved.profile);
    }
  }

  /** A drawn code has a hash of its own. */
  lemma NewHash(config: Config, db: Db, p: Principal, op: Deployments.DeploymentOp, env: Env)
    requires UniqueHashes(db.enrollments) && ValidEnv(config, db, env)
    ensures var saved := Deployments.Decide(config, View(db, p.tenant), p, op, env).saved;
            saved.SavedCode? ==> UniqueHashes(Put(db.enrollments, p.tenant, saved.id, saved.code))
    ensures var saved := Deployments.Decide(config, View(db, p.tenant), p, op, env).saved;
            saved.SavedProfile? && saved.id in db.profiles ==> db.profiles[saved.id].tenant == p.tenant
  {
    var saved := Deployments.Decide(config, View(db, p.tenant), p, op, env).saved;
    SavedCodeIsDrawn(config, View(db, p.tenant), p, op, env);
    hide Deployments.Decide, OwnEvents;
    if saved.SavedProfile? {
      OwnRow(db.profiles, p.tenant, saved.id);
    }
  }

  lemma SavedCodeIsDrawn(config: Config, own: Db, p: Principal, op: Deployments.DeploymentOp, env: Env)
    ensures var saved := Deployments.Decide(config, own, p, op, env).saved;
            saved.SavedCode? ==> saved.id == env.newId && saved.code.tokenHash == config.hash(env.code)
  {
    hide Deployments.Validate, Deployments.Delivered, Deployments.ProfileNameTaken;
  }

  lemma CascadeKeepsNames(t: Table<Profile>, tenant: string, subject: string, now: Time)
    requires UniqueBy(t, ProfileName)
    ensures UniqueBy(Accounts.Cascade(t, tenant, subject, now), ProfileName)
  {
  }

  lemma AccountsStayUnique(config: Config, db: Db, p: Principal, op: Accounts.AccountOp, env: Env)
    requires Unique(db)
    ensures Unique(Accounts.Exec(config, db, p, op, env).db)
  {
    var saved := Accounts.Decide(config, View(db, p.tenant), p, op, env).saved;
    hide Accounts.Decide, View, UniqueBy, Accounts.Cascade;
    if saved.RemovedUser? {
      CascadeKeepsNames(db.profiles, p.tenant, saved.subject, env.now);
    }
  }

  // ---- peers

  ghost predicate KeepsPlace(own: Db, id: Id, x: Peer) {
    id in own.peers && PeerKey(x) == PeerKey(own.peers[id].data) && PeerAddress(x) == PeerAddress(own.peers[id].data)
  }

  lemma SavedPeerPlace(config: Config, own: Db, p: Principal, op: Vpn.VpnOp, env: Env)
    ensures var saved := Vpn.Decide(config, own, p, op, env).saved;
            saved.SavedPeer? ==> FreePeer(own.peers, saved.id, saved.peer) || KeepsPlace(own, saved.id, saved.peer)
  {
    hide Vpn.RoutesOr, Vpn.ChosenKey, Vpn.ClientText, Vpn.OwnSaved, Vpn.TheNetwork;
  }

  lemma PutPeerKeepsUnique(db: Db, tenant: string, id: Id, x: Peer)
    requires UniquePeers(db.peers) && (id in db.peers ==> db.peers[id].tenant == tenant)
    requires FreePeer(Own(db.peers, tenant), id, x) || KeepsPlace(View(db, tenant), id, x)
    ensures UniquePeers(Put(db.peers, tenant, id, x))
  {
    var own := View(db, tenant);
    assert own.peers == Own(db.peers, tenant);
    hide View, UniqueBy, Free, Own, Put;
    SavedKeepsUnique(db.peers, PeerKey, tenant, id, x);
    SavedKeepsUnique(db.peers, PeerAddress, tenant, id, x);
  }

  lemma VpnStaysUnique(config: Config, db: Db, p: Principal, op: Vpn.VpnOp, env: Env)
    requires Unique(db) && ValidEnv(config, db, env)
    ensures Unique(Vpn.Exec(config, db, p, op, env).db)
  {
    var own := View(db, p.tenant);
    var saved := Vpn.Decide(config, own, p, op, env).saved;
    SavedPeerPlace(config, own, p, op, env);
    assert own.peers == Own(db.peers, p.tenant);
    hide Vpn.Decide, View, UniqueBy, FreePeer, KeepsPlace, Own, Vpn.SyncSaved;
    if saved.SavedPeer? {
      OwnRow(db.peers, p.tenant, saved.id);
      PutPeerKeepsUnique(db, p.tenant, saved.id, saved.peer);
    }
    hide Put, UniquePeers;
  }

  /** A key that is not in use, at the address of the peer it replaces or at one that no peer has. */
  lemma IssuedPeerIsFree(config: Config, own: Db, networkId: Id, subject: string, deviceName: string, address: string, routes: string,
                         env: Env)
    requires networkId in own.networks && UniqueBy(own.peers, PeerAddress)
    requires forall i, j :: i in own.peers && j in own.peers ==> own.peers[i].tenant == own.peers[j].tenant
    requires forall id :: id in own.peers ==> id in env.order
    ensures var r := Clients.Issue(config, own, networkId, subject, deviceName, address, routes, env);
            r.Issued? ==> FreePeer(own.peers, r.change.id, r.change.peer)
  {
    var at := Clients.AtAddress(own.peers, networkId, address);
    var found := First(env.order, at);
    hide Vpn.ClientText;
    forall k | k in own.peers && own.peers[k].data.networkId == networkId && own.peers[k].data.address == address
      ensures found == Some(k)
    {
      assert k in at && k in env.order;
      assert found.value in at;
    }
  }

  lemma BootstrapPeerIsFree(config: Config, own: Db, user: User, deviceName: string, profile: Option<Profile>, login: bool, env: Env)
    requires UniqueBy(own.peers, PeerAddress)
    requires forall i, j :: i in own.peers && j in own.peers ==> own.peers[i].tenant == own.peers[j].tenant
    requires forall id :: id in own.peers ==> id in env.order
    ensures var r := Clients.BootstrapPeer(config, own, user, deviceName, profile, login, env);
            r.Some? && r.value.Issued? ==> FreePeer(own.peers, r.value.change.id, r.value.change.peer)
  {
    var found := Vpn.TheNetwork(own, env);
    hide Clients.Issue, Clients.PeerPolicy, Clients.WantsVpn, UniqueBy, FreePeer;
    if found.Some? && Clients.PeerPolicy(own.networks[found.value].data, user, profile).Some? {
      var (address, routes) := Clients.PeerPolicy(own.networks[found.value].data, user, profile).value;
      IssuedPeerIsFree(config, own, found.value, user.subject, deviceName, address, routes, env);
    }
  }

  lemma ClientPeerIsFree(config: Config, own: Db, p: Principal, op: Clients.ClientOp, env: Env)
    requires UniqueBy(own.peers, PeerAddress)
    requires forall i, j :: i in own.peers && j in own.peers ==> own.peers[i].tenant == own.peers[j].tenant
    requires forall id :: id in own.peers ==> id in env.order
    ensures var saved := Clients.Decide(config, own, p, op, env).saved;
            saved.Changes? && saved.peer.Some? ==> FreePeer(own.peers, saved.peer.value.id, saved.peer.value.peer)
  {
    hide UniqueBy, FreePeer, Clients.BootstrapPeer, Clients.Choose, Clients.ActiveUser, Clients.DeviceFor, Clients.OwnChanges;
    hide Clients.BootstrapResponse, Clients.Issue, Clients.PeerPolicy;
    var found := Clients.ActiveUser(own, p.subject, env);
    if found.Some? {
      var user := own.users[found.value].data;
      match op {
        case EnrollVpn(deviceName) =>
          var network := Vpn.TheNetwork(own, env);
          if network.Some? && Clients.PeerPolicy(own.networks[network.value].data, user, None).Some? {
            var (address, routes) := Clients.PeerPolicy(own.networks[network.value].data, user, None).value;
            IssuedPeerIsFree(config, own, network.value, p.subject, Strip(deviceName), address, routes, env);
          }
        case Bootstrap(deviceName, code) =>
          var c := Clients.Choose(config, own, p.subject, code, env);
          if c.Chosen? {
            BootstrapPeerIsFree(config, own, user, deviceName, c.profile, Clients.IsLogin(code), env);
          }
      }
    }
  }

  lemma OwnPeersAreUnique(config: Config, db: Db, tenant: string, env: Env)
    requires UniqueBy(db.peers, PeerAddress) && ValidEnv(config, db, env)
    ensures var own := View(db, tenant).peers;
            && own == Own(db.peers, tenant) && UniqueBy(own, PeerAddress)
            && (forall i, j :: i in own && j in own ==> own[i].tenant == own[j].tenant)
            && forall id :: id in own ==> id in env.order
  {
    hide OwnEvents;
  }

  lemma ClientsStayUnique(config: Config, db: Db, p: Principal, op: Clients.ClientOp, env: Env)
    requires Unique(db) && ValidEnv(config, db, env)
    ensures Unique(Clients.Exec(config, db, p, op, env).db)
  {
    var own := View(db, p.tenant);
    var saved := Clients.Decide(config, own, p, op, env).saved;
    OwnPeersAreUnique(config, db, p.tenant, env);
    hide Clients.Decide, View, UniqueBy, FreePeer, Own, Clients.Committed, ValidEnv, Put, UniquePeers, KeepsPlace;
    ClientPeerIsFree(config, own, p, op, env);
    hide UniqueHashes;
    CommittedCode(config, db, p, op, env);
    CommittedPeers(config, db, p, Clients.Decide(config, own, p, op, env), env);
    if saved.Changes? && saved.peer.Some? {
      var c := saved.peer.value;
      FreshOrOwnPeer(config, db, p, op, env);
      PutPeerKeepsUnique(db, p.tenant, c.id, c.peer);
    }
  }

  /** An activated code keeps its hash. */
  lemma CommittedCode(config: Config, db: Db, p: Principal, op: Clients.ClientOp, env: Env)
    requires UniqueHashes(db.enrollments)
    ensures UniqueHashes(Clients.Exec(config, db, p, op, env).db.enrollments)
  {
    hide View, Clients.Decide, Clients.Committed, UniqueHashes;
    var d := Clients.Decide(config, View(db, p.tenant), p, op, env);
    UsedCodeKeepsHash(config, View(db, p.tenant), p, op, env);
    Clients.CodesAfter(config, db, p, d, env);
    if d.saved.Changes? && d.saved.code.Some? {
      ViewRow(db, p.tenant, d.saved.code.value.0);
      SameHashIsUnique(db.enrollments, p.tenant, d.saved.code.value.0, d.saved.code.value.1);
    }
  }

  lemma SameHashIsUnique(codes: Table<Enrollment>, tenant: string, id: Id, x: Enrollment)
    requires UniqueHashes(codes) && id in codes && x.tokenHash == codes[id].data.tokenHash
    ensures UniqueHashes(Put(codes, tenant, id, x))
  {
  }

  lemma UsedCodeKeepsHash(config: Config, own: Db, p: Principal, op: Clients.ClientOp, env: Env)
    ensures var saved := Clients.Decide(config, own, p, op, env).saved;
            saved.Changes? && saved.code.Some? ==>
              saved.code.value.0 in own.enrollments
              && saved.code.value.1.tokenHash == own.enrollments[saved.code.value.0].data.tokenHash
  {
    hide Clients.BootstrapPeer, Clients.DeviceFor, Clients.ActiveUser, Clients.BootstrapResponse, Clients.OwnChanges, Clients.PeerPolicy;
    hide Clients.Issue, Vpn.TheNetwork;
  }

  /** Of the three tables, a client endpoint changes the peers only, and there one row. */
  lemma CommittedPeers(config: Config, db: Db, p: Principal, d: Clients.Decided, env: Env)
    ensures var next := Clients.Committed(config, db, p, d, env).db;
            && next.servers == db.servers && next.profiles == db.profiles
            && (next.peers != db.peers ==>
                  && d.saved.Changes? && d.saved.peer.Some?
                  && next.peers == Put(db.peers, p.tenant, d.saved.peer.value.id, d.saved.peer.value.peer))
  {
    hide Own, Put, Clients.SyncPeer;
  }

  lemma FreshOrOwnPeer(config: Config, db: Db, p: Principal, op: Clients.ClientOp, env: Env)
    requires ValidEnv(config, db, env)
    ensures var saved := Clients.Decide(config, View(db, p.tenant), p, op, env).saved;
            saved.Changes? && saved.peer.Some? && saved.peer.value.id in db.peers ==> db.peers[saved.peer.value.id].tenant == p.tenant
  {
    var saved := Clients.Decide(config, View(db, p.tenant), p, op, env).saved;
    hide Clients.Decide, OwnEvents;
    if saved.Changes? && saved.peer.Some? {
      OwnRow(db.peers, p.tenant, saved.peer.value.id);
    }
  }

  // ---- every step, every run

  lemma OpKeepsUnique(config: Config, db: Db, p: Principal, op: Op, env: Env)
    requires Unique(db) && ValidEnv(config, db, env)
    ensures Unique(ExecOp(config, db, p, op, env).db)
  {
    hide Support.Exec, FileServers.Exec, Deployments.Exec, Accounts.Exec, Vpn.Exec, Clients.Exec, Unique, ValidEnv;
    match op {
      case OfSupport(o) =>
        Support.Frame(db, p, o, env);
        SameTables(db, Support.Exec(db, p, o, env).db);
      case OfFileServers(o) => FileServersStayUnique(config, db, p, o, env);
      case OfDeployments(o) => DeploymentsStayUnique(config, db, p, o, env);
      case OfAccounts(o) => AccountsStayUnique(config, db, p, o, env);
      case OfVpn(o) => VpnStaysUnique(config, db, p, o, env);
      case OfClients(o) => ClientsStayUnique(config, db, p, o, env);
    }
  }

  lemma StepKeepsUnique(config: Config, db: Db, step: Step)
    requires Unique(db) && ValidEnv(config, db, step.env)
    ensures Unique(Exec(config, db, step).db)
  {
    hide ExecOp, Accounts.Login, Accounts.SetUp, Unique, ValidEnv;
    match step.call {
      case Call(p, op) => OpKeepsUnique(config, db, p, op, step.env);
      case Login(c) => SameTables(db, Accounts.Login(config, db, c, step.env).db);
      case SetUp(c, displayName) => SameTables(db, Accounts.SetUp(config, db, c, displayName, step.env).db);
    }
  }

  lemma {:induction false} RunKeepsUnique(config: Config, db: Db, steps: seq<Step>)
    requires Unique(db) && ValidRun(config, db, steps)
    ensures Unique(Run(config, db, steps))
    decreases |steps|
  {
    hide Unique, Exec, ValidEnv;
    if steps == [] {
    } else {
      StepKeepsUnique(config, db, steps[0]);
      RunKeepsUnique(config, Exec(config, db, steps[0]).db, steps[1..]);
    }
  }

  /**
   * In every reachable state two rows of one tenant differ in name, if they are file servers or profiles, and in key and
   * in address, if they are peers of one network. Disabled and revoked rows count. The hashes of codes differ throughout.
   */
  lemma ReachableRowsAreUnique(config: Config, steps: seq<Step>, tenant: string, i: Id, j: Id)
    requires ValidRun(config, EMPTY, steps) && i != j
    ensures var db := Run(config, EMPTY, steps);
            && (Has(db.servers, tenant, i) && Has(db.servers, tenant, j) ==> db.servers[i].data.name != db.servers[j].data.name)
            && (Has(db.profiles, tenant, i) && Has(db.profiles, tenant, j) ==> db.profiles[i].data.name != db.profiles[j].data.name)
            && (Has(db.peers, tenant, i) && Has(db.peers, tenant, j)
                && db.peers[i].data.networkId == db.peers[j].data.networkId ==>
                  && db.peers[i].data.publicKey != db.peers[j].data.publicKey
                  && db.peers[i].data.address != db.peers[j].data.address)
            && (i in db.enrollments && j in db.enrollments ==> db.enrollments[i].data.tokenHash != db.enrollments[j].data.tokenHash)
  {
    RunKeepsUnique(config, EMPTY, steps);
    PairsAreUnique(Run(config, EMPTY, steps), tenant, i, j);
  }

  lemma PairsAreUnique(db: Db, tenant: string, i: Id, j: Id)
    requires Unique(db) && i != j
    ensures Has(db.servers, tenant, i) && Has(db.servers, tenant, j) ==> db.servers[i].data.name != db.servers[j].data.name
    ensures Has(db.profiles, tenant, i) && Has(db.profiles, tenant, j) ==> db.profiles[i].data.name != db.profiles[j].data.name
    ensures Has(db.peers, tenant, i) && Has(db.peers, tenant, j) && db.peers[i].data.networkId == db.peers[j].data.networkId ==>
              db.peers[i].data.publicKey != db.peers[j].data.publicKey && db.peers[i].data.address != db.peers[j].data.address
    ensures i in db.enrollments && j in db.enrollments ==> db.enrollments[i].data.tokenHash != db.enrollments[j].data.tokenHash
  {
    if Has(db.servers, tenant, i) && Has(db.servers, tenant, j) {
      assert ServerName(db.servers[i].data) != ServerName(db.servers[j].data);
    }
    if Has(db.profiles, tenant, i) && Has(db.profiles, tenant, j) {
      assert ProfileName(db.profiles[i].data) != ProfileName(db.profiles[j].data);
    }
    if Has(db.peers, tenant, i) && Has(db.peers, tenant, j) && db.peers[i].data.networkId == db.peers[j].data.networkId {
      assert PeerKey(db.peers[i].data) != PeerKey(db.peers[j].data);
      assert PeerAddress(db.peers[i].data) != PeerAddress(db.peers[j].data);
    }
  }
}
