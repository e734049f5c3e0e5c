/** Requests of an administrator that succeed: what they store, what they answer, and with what text the interface runs. */
module AcceptedPeers {
  import opened Wrappers
  import opened Rows
  import opened Tables
  import opened ControlPlane
  import opened PeerNames
  import opened Runtime
  import opened ServerConfig
  import opened Text
  import IPv4
  import Routes
  import Vpn
  import VpnEffects

  // ---- the first network of a tenant

  function FirstNetwork(op: Vpn.VpnOp, env: Env): Network
    requires op.ConfigureNetwork? && IPv4.Parse(op.addressCidr).Some?
  {
    Network(Strip(op.name), IPv4.Print(IPv4.Parse(op.addressCidr).value), Strip(op.endpoint), op.listenPort,
            if op.dns.Some? && op.dns.value != "" then Some(Strip(op.dns.value)) else None, true, env.now)
  }

  lemma ConfigureDecision(own: Db, p: Principal, op: Vpn.VpnOp, env: Env)
    requires op.ConfigureNetwork? && "tenant_admin" in p.roles && IPv4.Parse(op.addressCidr).Some?
    requires Vpn.TheNetwork(own, env).None?
    ensures Vpn.Configure(own, p, op, env).saved == Vpn.SavedNetwork(env.newId, FirstNetwork(op, env))
  {
    hide IPv4.Parse, IPv4.Print, Strip;
  }

  lemma ConfigureSucceeds(config: Config, db: Db, p: Principal, op: Vpn.VpnOp, env: Env)
    requires Installed(config) && StoredRows(db.networks, db.peers) && ValidEnv(config, db, env) && env.apply == Applied
    requires op.ConfigureNetwork? && "tenant_admin" in p.roles && IPv4.Parse(op.addressCidr).Some? && db.networks == map[]
    ensures var out := Vpn.Exec(config, db, p, op, env);
            out.effect.Up? && out.db == Vpn.Apply(db, p, Vpn.SavedNetwork(env.newId, FirstNetwork(op, env)), env.now)
  {
    var own := View(db, p.tenant);
    OrderLists(config, db, env);
    hide ValidEnv, Lists, IPv4.Parse, OwnEvents;
    assert own.networks == map[];
    assert Vpn.TheNetwork(own, env).None?;
    hide View, Vpn.TheNetwork, Installed, StoredRows, FirstNetwork, Vpn.Committed, Vpn.Apply, CleanNetwork;
    ConfigureDecision(own, p, op, env);
    ConfiguredNetworkIsClean(own, p, op, env);
    hide Vpn.Configure;
    SavedNetworkKeepsStep(config, db, p, Vpn.Decide(config, own, p, op, env), env);
  }

  // ---- the first peer of a tenant

  /** An administrator asks for a peer with a generated key, for a tenant that has a network and no peers. */
  ghost predicate FirstPeer(db: Db, p: Principal, op: Vpn.VpnOp, id: Id) {
    && op.CreatePeer? && op.publicKey.None? && "tenant_admin" in p.roles
    && Has(db.networks, p.tenant, id) && (forall k :: k in db.peers ==> db.peers[k].tenant != p.tenant)
    && Routes.AddressBelongs(db.networks[id].data.addressCidr, op.address).Ok?
    && Vpn.RoutesOr(db.networks[id].data, op.allowedIps).Ok?
  }

  function CreatedPeer(db: Db, op: Vpn.VpnOp, id: Id, env: Env): Peer
    requires op.CreatePeer? && id in db.networks
    requires Routes.AddressBelongs(db.networks[id].data.addressCidr, op.address).Ok?
    requires Vpn.RoutesOr(db.networks[id].data, op.allowedIps).Ok?
  {
    var n := db.networks[id].data;
    Peer(id, Strip(op.name), env.publicKey, Routes.AddressBelongs(n.addressCidr, op.address).value,
         Vpn.RoutesOr(n, op.allowedIps).value, op.keepalive, true, None)
  }

  lemma CreateDecision(config: Config, own: Db, p: Principal, op: Vpn.VpnOp, env: Env, id: Id)
    requires op.CreatePeer? && op.publicKey.None? && "tenant_admin" in p.roles && own.peers == map[]
    requires id in own.networks && Vpn.TheNetwork(own, env) == Some(id)
    requires Routes.AddressBelongs(own.networks[id].data.addressCidr, op.address).Ok?
    requires Vpn.RoutesOr(own.networks[id].data, op.allowedIps).Ok?
    ensures var n, x := own.networks[id].data, CreatedPeer(own, op, id, env);
            var text := Vpn.ClientText(config, n, env.privateKey, x.address, x.allowedIps);
            Vpn.Create(config, own, p, op, env)
            == Vpn.Decided(Vpn.SavedPeer(env.newId, x, PeerCreated, id, n), PeerRead(env.newId, x, text))
  {
    hide Routes.AddressBelongs, Vpn.RoutesOr, Vpn.ClientText, Vpn.OwnSaved, Strip, Vpn.TheNetwork;
  }

  /** What such a request sees. */
  lemma FirstPeerView(config: Config, db: Db, p: Principal, op: Vpn.VpnOp, env: Env, id: Id)
    requires StoredRows(db.networks, db.peers) && ValidEnv(config, db, env) && FirstPeer(db, p, op, id)
    ensures var own := View(db, p.tenant);
            && own.peers == map[] && id in own.networks && own.networks[id] == db.networks[id]
            && Vpn.TheNetwork(own, env) == Some(id)
  {
    hide CleanPeer, CleanNetwork, OwnEvents, Routes.AddressBelongs, Vpn.RoutesOr;
    var own := View(db, p.tenant);
    assert own.networks.Keys == {id};
    assert id in env.order;
  }

  /** It is answered with the peer and its configuration, and the interface runs with the text of the new rows. */
  lemma CreateSucceeds(config: Config, db: Db, p: Principal, op: Vpn.VpnOp, env: Env, id: Id)
    requires Installed(config) && StoredRows(db.networks, db.peers) && ValidEnv(config, db, env) && KeyPair(env)
    requires FirstPeer(db, p, op, id) && env.apply == Applied
    ensures var out, n, x := Vpn.Exec(config, db, p, op, env), db.networks[id].data, CreatedPeer(db, op, id, env);
            && out.db == Vpn.Apply(db, p, Vpn.SavedPeer(env.newId, x, PeerCreated, id, n), env.now)
            && out.response == PeerRead(env.newId, x, Vpn.ClientText(config, n, env.privateKey, x.address, x.allowedIps))
            && out.effect.Up? && StoredRows(out.db.networks, out.db.peers)
            && RunsWith(config, out.db.networks, out.db.peers, id, out.effect.text)
  {
    var own := View(db, p.tenant);
    OrderLists(config, db, env);
    FirstPeerView(config, db, p, op, env, id);
    hide View, ValidEnv, Lists, Installed, StoredRows, Routes.AddressBelongs, Vpn.RoutesOr, Vpn.TheNetwork, CleanPeer, CleanNetwork;
    CreateDecision(config, own, p, op, env, id);
    CreatedPeerIsClean(config, own, p, op, env);
    hide Vpn.Create, CreatedPeer, KeyPair, RunsWith;
    var d := Vpn.Decide(config, own, p, op, env);
    SavedPeerKeepsStep(config, db, p, d, env);
    AppliedIsAnswered(config, db, p, d, env);
    var out := Vpn.Committed(config, db, p, d, env);
    RunsWithOwn(config, out.db.networks, out.db.peers, p.tenant, id, out.effect.text);
  }

  lemma AppliedIsAnswered(config: Config, db: Db, p: Principal, d: Vpn.Decided, env: Env)
    requires !d.saved.Nothing?
    ensures var out := Vpn.Committed(config, db, p, d, env); out.effect.Up? ==> out.response == d.response
  {
    hide Vpn.Apply, Own, Render;
  }

  // ---- a first peer whose name adds another

  ghost predicate LoudRequest(db: Db, p: Principal, op: Vpn.VpnOp, id: Id, first: string, publicKey: string, address: string,
                              last: string)
  {
    && FirstPeer(db, p, op, id) && Strip(op.name) == TwoPeerName(first, publicKey, address, last)
    && Clean(publicKey) && Clean(address) && '\n' !in first && '\n' !in last
  }

  lemma OnePeer(networks: Table<Network>, db: Db, p: Principal, saved: Vpn.Saved, id: Id, now: Time)
    requires StoredRows(networks, db.peers) && Has(networks, p.tenant, id)
    requires saved.SavedPeer? && saved.peer.networkId == id && forall k :: k in db.peers ==> db.peers[k].tenant != p.tenant
    ensures var peers := Vpn.Apply(db, p, saved, now).peers;
            PeersOf(peers, id).Keys == {saved.id} && peers[saved.id].data == saved.peer
  {
    hide CleanPeer, CleanNetwork;
  }

  lemma LoudPeerRuns(config: Config, db: Db, p: Principal, op: Vpn.VpnOp, env: Env, id: Id,
                     first: string, publicKey: string, address: string, last: string)
    requires Installed(config) && StoredRows(db.networks, db.peers) && ValidEnv(config, db, env) && KeyPair(env)
    requires LoudRequest(db, p, op, id, first, publicKey, address, last) && env.apply == Applied
    ensures var out := Vpn.Exec(config, db, p, op, env);
            && id in out.db.networks && PeersOf(out.db.peers, id).Keys == {env.newId} && out.effect.Up?
            && !Agrees(config, out.db.networks[id].data, PeersOf(out.db.peers, id), out.effect.text)
  {
    var out, n, x := Vpn.Exec(config, db, p, op, env), db.networks[id].data, CreatedPeer(db, op, id, env);
    var saved := Vpn.SavedPeer(env.newId, x, PeerCreated, id, n);
    hide Vpn.Exec, Installed, ValidEnv, KeyPair, Routes.AddressBelongs, Vpn.RoutesOr, TwoPeerName, Clean, RunsWith;
    CreateSucceeds(config, db, p, op, env, id);
    OnePeer(db.networks, db, p, saved, id, env.now);
    assert out.db.networks == db.networks;
    hide StoredRows, PeersOf, Agrees, Vpn.Apply;
    LoudNameDisagrees(config, out.db.networks, out.db.peers, id, out.effect.text, env.newId, first, publicKey, address, last);
  }

  /**
   * After any history, such a request is accepted, and the interface then runs with a peer that is no row: the network has
   * one stored peer, and the text does not agree with it.
   */
  lemma LoudRequestDisagrees(config: Config, p: Principal, steps: seq<WorldStep>, op: Vpn.VpnOp, env: Env, id: Id,
                             first: string, publicKey: string, address: string, last: string)
    requires Installed(config) && ValidHistory(config, FRESH, steps)
    requires var db := History(config, FRESH, steps).db;
             && ValidEnv(config, db, env) && KeyPair(env) && env.apply == Applied
             && LoudRequest(db, p, op, id, first, publicKey, address, last)
    ensures var next := Next(config, History(config, FRESH, steps), Request(Step(Call(p, OfVpn(op)), env)));
            && id in next.db.networks && PeersOf(next.db.peers, id).Keys == {env.newId} && next.running.Some?
            && !Agrees(config, next.db.networks[id].data, PeersOf(next.db.peers, id), next.running.value)
  {
    var w := History(config, FRESH, steps);
    ReachedIsInStep(config, steps);
    hide Installed, RunsWith, StoredRows, Vpn.Exec, LoudRequest, ValidEnv, KeyPair, Next, Agrees, ValidHistory, History, PeersOf;
    NextOfVpn(config, w, p, op, env);
    LoudPeerRuns(config, w.db, p, op, env, id, first, publicKey, address, last);
  }

  lemma NextOfVpn(config: Config, w: World, p: Principal, op: Vpn.VpnOp, env: Env)
    ensures var out := Vpn.Exec(config, w.db, p, op, env);
            Next(config, w, Request(Step(Call(p, OfVpn(op)), env))) == World(out.db, Runtime.After(w.running, out.effect))
  {
    hide Vpn.Exec;
  }

  /** In the running installation: the interface keeps its text when the new one is not written, and is gone when it fails to start. */
  lemma InterfaceAfterFailure(config: Config, w: World, p: Principal, op: Vpn.VpnOp, env: Env)
    requires Vpn.Exec(config, w.db, p, op, env).response == Refused(Unavailable)
    ensures Next(config, w, Request(Step(Call(p, OfVpn(op)), env))) == World(w.db, if env.apply == UpFailed then None else w.running)
  {
    hide Vpn.Exec, Next;
    NextOfVpn(config, w, p, op, env);
    VpnEffects.FailedApplyShows(config, w.db, p, op, env);
  }
}
