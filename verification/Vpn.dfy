/** The VPN network and its peers; every change is applied to the running interface before it is committed. */
module Vpn {
  import opened Wrappers
  import opened Rows
  import opened Tables
  import opened Session
  import opened Text
  import IPv4
  import Routes
  import X25519
  import ServerConfig
  import ClientConfig

  datatype VpnOp =
    | ConfigureNetwork(name: string, addressCidr: string, endpoint: string, listenPort: nat, dns: Option<string>)
    | CreatePeer(name: string, address: string, publicKey: Option<string>, allowedIps: Option<string>, keepalive: nat)
    | UpdateRoutes(id: Id, routes: string)
    | RevokePeer(id: Id)

  // ---- queries

  function TheNetwork(own: Db, env: Env): (id: Option<Id>)
    ensures id.Some? ==> id.value in own.networks
  {
    First(env.order, own.networks.Keys)
  }

  /** The peers of a network, in the engine's row order. */
  function PeersIn(order: seq<Id>, rows: Table<Peer>, networkId: Id): seq<Peer> {
    if order == [] then []
    else
      var init, id := PeersIn(order[..|order| - 1], rows, networkId), order[|order| - 1];
      if id in rows && rows[id].data.networkId == networkId then init + [rows[id].data] else init
  }

  /** A peer of the network with the same key or the same address. */
  predicate PeerTaken(rows: Table<Peer>, networkId: Id, publicKey: string, address: string) {
    exists id :: id in rows && rows[id].data.networkId == networkId
                 && (rows[id].data.publicKey == publicKey || rows[id].data.address == address)
  }

  // ---- applying the configuration

  datatype Sync = Synced(effect: Effect) | SyncFailed(status: Status, effect: Effect)

  /** Writing fails before the interface is touched; a failing start leaves it down. */
  function ApplyConfig(config: Config, text: string, env: Env): Sync {
    if !config.wireguardApply then Synced(Unchanged)
    else
      match env.apply
      case Applied => Synced(Up(text))
      case WriteFailed => SyncFailed(Unavailable, Unchanged)
      case UpFailed => SyncFailed(Unavailable, Down)
  }

  function SyncVpn(config: Config, networkId: Id, network: Network, peers: Table<Peer>, env: Env): Sync {
    if config.wireguardKey == "" then Synced(Unchanged)
    else
      match ServerConfig.Render(network, PeersIn(env.order, peers, networkId), config.wireguardKey)
      case Err(_) => SyncFailed(ServerError, Unchanged)
      case Ok(text) => ApplyConfig(config, text, env)
  }

  /** The configuration text for a client, where the installation has a usable key. */
  function ClientText(config: Config, network: Network, privateKey: string, address: string, routes: string): Option<string> {
    if X25519.ValidateKey(config.wireguardKey).Err? then None
    else
      match ClientConfig.RenderClient(network, privateKey, address, X25519.PublicKeyText(config.wireguardKey), Some(routes))
      case Err(_) => None
      case Ok(text) => Some(text)
  }

  /** The routes asked for, or else the whole network. */
  function RoutesOr(network: Network, routes: Option<string>): Result<string, Routes.RouteError> {
    if routes.Some? && routes.value != "" then Routes.NormalizeAllowedIps(routes.value)
    else
      match IPv4.Parse(network.addressCidr)
      case None => Err(Routes.InvalidRoute)
      case Some(interface) => Routes.NormalizeAllowedIps(IPv4.Print(IPv4.Network(interface)))
  }

  // ---- what is saved

  datatype Saved =
    | Nothing
    | SavedNetwork(id: Id, network: Network)
    | SavedPeer(id: Id, peer: Peer, action: Action, networkId: Id, network: Network)

  /** A decision to save something names the network whose configuration must be applied first. */
  datatype Decided = Decided(saved: Saved, response: Response)

  /** Only networks, peers and the log change. */
  ghost predicate Untouched(a: Db, b: Db) {
    && b.initialized == a.initialized && b.users == a.users && b.devices == a.devices && b.requests == a.requests
    && b.servers == a.servers && b.profiles == a.profiles && b.enrollments == a.enrollments
  }

  function Apply(db: Db, p: Principal, saved: Saved, now: Time): (next: Db)
    ensures Untouched(db, next)
  {
    match saved
    case Nothing => db
    case SavedNetwork(id, network) =>
      Audit(db.(networks := Put(db.networks, p.tenant, id, network)), p, NetworkConfigured, OnNetwork, id, now)
    case SavedPeer(id, peer, action, _, _) =>
      Audit(db.(peers := Put(db.peers, p.tenant, id, peer)), p, action, OnPeer, id, now)
  }

  function Reject(status: Status): Decided {
    Decided(Nothing, Refused(status))
  }

  /** A second network is never created, and peers are saved for the tenant's network under drawn or own ids. */
  ghost predicate OwnSaved(own: Db, saved: Saved, env: Env) {
    && (saved.SavedNetwork? ==>
          TheNetwork(own, env) == Some(saved.id) || (TheNetwork(own, env).None? && saved.id == env.newId))
    && (saved.SavedPeer? ==>
          && TheNetwork(own, env) == Some(saved.networkId) && saved.network == own.networks[saved.networkId].data
          && (saved.id == env.newId || saved.id in own.peers))
  }

  // ---- what each endpoint decides, from the rows its tenant owns

  function Configure(own: Db, p: Principal, op: VpnOp, env: Env): (d: Decided)
    requires op.ConfigureNetwork?
    ensures OwnSaved(own, d.saved, env)
  {
    var interface := IPv4.Parse(op.addressCidr);
    if "tenant_admin" !in p.roles then Reject(Forbidden)
    else if interface.None? then Reject(Unprocessable)
    else
      var found := TheNetwork(own, env);
      var id := if found.Some? then found.value else env.newId;
      var dns := if op.dns.Some? && op.dns.value != "" then Some(Strip(op.dns.value)) else None;
      var network := Network(Strip(op.name), IPv4.Print(interface.value), Strip(op.endpoint), op.listenPort, dns,
                             if found.Some? then own.networks[id].data.enabled else true, env.now);
      Decided(SavedNetwork(id, network), NetworkRead(id, network))
  }

  /** The key given by the caller, or else the generated one. */
  function ChosenKey(publicKey: Option<string>, env: Env): Result<string, X25519.InvalidKey> {
    if publicKey.Some? && publicKey.value != "" then X25519.ValidateKey(publicKey.value) else Ok(env.publicKey)
  }

  function Create(config: Config, own: Db, p: Principal, op: VpnOp, env: Env): (d: Decided)
    requires op.CreatePeer?
    ensures OwnSaved(own, d.saved, env)
  {
    var found := TheNetwork(own, env);
    if "tenant_admin" !in p.roles then Reject(Forbidden)
    else if found.None? then Reject(NotFound)
    else
      var network := own.networks[found.value].data;
      var address := Routes.AddressBelongs(network.addressCidr, op.address);
      var routes := RoutesOr(network, op.allowedIps);
      var key := ChosenKey(op.publicKey, env);
      if address.Err? || routes.Err? || key.Err? then Reject(Unprocessable)
      else if PeerTaken(own.peers, found.value, key.value, address.value) then Reject(Conflict)
      else
        var peer := Peer(found.value, Strip(op.name), key.value, address.value, routes.value, op.keepalive, true, None);
        var text := if op.publicKey.None? then ClientText(config, network, env.privateKey, address.value, routes.value) else None;
        Decided(SavedPeer(env.newId, peer, PeerCreated, found.value, network), PeerRead(env.newId, peer, text))
  }

  function ChangePeer(own: Db, id: Id, peer: Peer, action: Action, response: Response, env: Env): (d: Decided)
    requires id in own.peers
    ensures OwnSaved(own, d.saved, env)
  {
    var found := TheNetwork(own, env);
    if found.None? then Reject(NotFound)
    else Decided(SavedPeer(id, peer, action, found.value, own.networks[found.value].data), response)
  }

  function SetRoutes(own: Db, p: Principal, id: Id, allowedIps: string, env: Env): (d: Decided)
    ensures OwnSaved(own, d.saved, env)
  {
    if "tenant_admin" !in p.roles then Reject(Forbidden)
    else if id !in own.peers then Reject(NotFound)
    else
      match Routes.NormalizeAllowedIps(allowedIps)
      case Err(_) => Reject(Unprocessable)
      case Ok(routes) =>
        var peer := own.peers[id].data.(allowedIps := routes);
        ChangePeer(own, id, peer, PeerRoutesUpdated, PeerRead(id, peer, None), env)
  }

  function Revoke(own: Db, p: Principal, id: Id, env: Env): (d: Decided)
    ensures OwnSaved(own, d.saved, env)
  {
    if "tenant_admin" !in p.roles then Reject(Forbidden)
    else if id !in own.peers then Reject(NotFound)
    else ChangePeer(own, id, own.peers[id].data.(enabled := false, revokedAt := Some(env.now)), PeerRevoked, NoContent, env)
  }

  function Decide(config: Config, own: Db, p: Principal, op: VpnOp, env: Env): (d: Decided)
    ensures OwnSaved(own, d.saved, env)
  {
    match op
    case ConfigureNetwork(_, _, _, _, _) => Configure(own, p, op, env)
    case CreatePeer(_, _, _, _, _) => Create(config, own, p, op, env)
    case UpdateRoutes(id, allowedIps) => SetRoutes(own, p, id, allowedIps, env)
    case RevokePeer(id) => Revoke(own, p, id, env)
  }

  /** The outcome of applying the configuration of the network that a decision to save something names. */
  function SyncSaved(config: Config, peers: Table<Peer>, saved: Saved, env: Env): Sync
    requires !saved.Nothing?
  {
    SyncVpn(config, if saved.SavedNetwork? then saved.id else saved.networkId, saved.network, peers, env)
  }

  /** Nothing is committed unless the new configuration is applied. */
  function Committed(config: Config, db: Db, p: Principal, d: Decided, env: Env): (out: Outcome)
    ensures Untouched(db, out.db)
  {
    if d.saved.Nothing? then Reply(db, d.response)
    else
      var next := Apply(db, p, d.saved, env.now);
      match SyncSaved(config, Own(next.peers, p.tenant), d.saved, env)
      case Synced(effect) => Outcome(next, d.response, effect)
      case SyncFailed(status, effect) => Outcome(db, Refused(status), effect)
  }

  function Exec(config: Config, db: Db, p: Principal, op: VpnOp, env: Env): Outcome {
    Committed(config, db, p, Decide(config, View(db, p.tenant), p, op, env), env)
  }

  // ---- the endpoints as written, on a session

  method ApplyToInterface(config: Config, text: string, env: Env) returns (r: Sync)
    ensures r == ApplyConfig(config, text, env)
  {
    if !config.wireguardApply {
      return Synced(Unchanged);
    }
    r := match env.apply
         case Applied => Synced(Up(text))
         case WriteFailed => SyncFailed(Unavailable, Unchanged)
         case UpFailed => SyncFailed(Unavailable, Down);
  }

  method MakeClientText(config: Config, network: Network, privateKey: string, address: string, routes: string) returns (r: Option<string>)
    ensures r == ClientText(config, network, privateKey, address, routes)
  {
    hide X25519.ValidateKey, X25519.PublicKeyText, ClientConfig.RenderClient;
    var serverKey := X25519.PublicKey(config.wireguardKey);
    if serverKey.Err? {
      return None;
    }
    var text := ClientConfig.RenderClientConfig(network, privateKey, address, serverKey.value, Some(routes));
    r := if text.Ok? then Some(text.value) else None;
  }

  method SyncSession(config: Config, s: Session, tenant: string, networkId: Id, network: Network, env: Env) returns (r: Sync)
    ensures r == SyncVpn(config, networkId, network, Own(s.peers, tenant), env)
  {
    hide Own, ServerConfig.Render, ApplyConfig;
    if config.wireguardKey == "" {
      return Synced(Unchanged);
    }
    var peers := PeersIn(env.order, Own(s.peers, tenant), networkId);
    var text := ServerConfig.RenderServerConfig(network, peers, config.wireguardKey);
    if text.Err? {
      return SyncFailed(ServerError, Unchanged);
    }
    r := ApplyToInterface(config, text.value, env);
  }

  method ConfigureVpnNetwork(config: Config, s: Session, p: Principal, op: VpnOp, env: Env) returns (r: Response, effect: Effect)
    requires s.Clean() && op.ConfigureNetwork?
    modifies s
    ensures s.Clean()
    ensures Outcome(s.stored, r, effect)
         == Committed(config, old(s.stored), p, Configure(View(old(s.stored), p.tenant), p, op, env), env)
  {
    hide IPv4.Parse, IPv4.Print, SyncVpn, Own, OwnEvents, Strip;
    effect := Unchanged;
    if "tenant_admin" !in p.roles {
      r := Refused(Forbidden);
      return;
    }
    var interface := IPv4.Parse(op.addressCidr);
    if interface.None? {
      r := Refused(Unprocessable);
      return;
    }
    var networks := Own(s.networks, p.tenant);
    var found := First(env.order, networks.Keys);
    var id := if found.Some? then found.value else env.newId;
    var network := if found.Some? then networks[found.value].data else Network("", "", "", 51820, None, true, env.now);
    network := network.(name := Strip(op.name), addressCidr := IPv4.Print(interface.value), endpoint := Strip(op.endpoint));
    network := network.(listenPort := op.listenPort, updatedAt := env.now);
    network := network.(dns := if op.dns.Some? && op.dns.value != "" then Some(Strip(op.dns.value)) else None);
    s.networks := s.networks[id := Row(p.tenant, network)];
    s.Audit(p, NetworkConfigured, OnNetwork, id, env.now);
    var sync := SyncSession(config, s, p.tenant, id, network, env);
    effect := sync.effect;
    if sync.SyncFailed? {
      s.Rollback();
      r := Refused(sync.status);
      return;
    }
    s.Commit();
    r := NetworkRead(id, network);
  }

  method CreateVpnPeer(config: Config, s: Session, p: Principal, op: VpnOp, env: Env) returns (r: Response, effect: Effect)
    requires s.Clean() && op.CreatePeer?
    modifies s
    ensures s.Clean()
    ensures Outcome(s.stored, r, effect)
         == Committed(config, old(s.stored), p, Create(config, View(old(s.stored), p.tenant), p, op, env), env)
  {
    hide Own, RoutesOr, Routes.AddressBelongs, ChosenKey, PeerTaken, SyncVpn, ClientText;
    effect := Unchanged;
    if "tenant_admin" !in p.roles {
      r := Refused(Forbidden);
      return;
    }
    var networks := Own(s.networks, p.tenant);
    var found := First(env.order, networks.Keys);
    if found.None? {
      r := Refused(NotFound);
      return;
    }
    var network := networks[found.value].data;
    var address := Routes.AddressBelongs(network.addressCidr, op.address);
    var routes := RoutesOr(network, op.allowedIps);
    var key := ChosenKey(op.publicKey, env);
    if address.Err? || routes.Err? || key.Err? {
      r := Refused(Unprocessable);
      return;
    }
    var peer := Peer(found.value, Strip(op.name), key.value, address.value, routes.value, op.keepalive, true, None);
    var taken := PeerTaken(Own(s.peers, p.tenant), found.value, peer.publicKey, peer.address);
    s.peers := s.peers[env.newId := Row(p.tenant, peer)];
    if taken {
      s.Rollback();
      r := Refused(Conflict);
      return;
    }
    s.Audit(p, PeerCreated, OnPeer, env.newId, env.now);
    var sync := SyncSession(config, s, p.tenant, found.value, network, env);
    effect := sync.effect;
    if sync.SyncFailed? {
      s.Rollback();
      r := Refused(sync.status);
      return;
    }
    s.Commit();
    var text := None;
    if op.publicKey.None? {
      text := MakeClientText(config, network, env.privateKey, address.value, routes.value);
    }
    r := PeerRead(env.newId, peer, text);
  }

  method UpdateVpnPeerRoutes(config: Config, s: Session, p: Principal, id: Id, allowedIps: string, env: Env)
    returns (r: Response, effect: Effect)
    requires s.Clean()
    modifies s
    ensures s.Clean()
    ensures Outcome(s.stored, r, effect)
         == Committed(config, old(s.stored), p, SetRoutes(View(old(s.stored), p.tenant), p, id, allowedIps, env), env)
  {
    hide Own, Routes.NormalizeAllowedIps, SyncVpn;
    effect := Unchanged;
    if "tenant_admin" !in p.roles {
      r := Refused(Forbidden);
      return;
    }
    var rows := Own(s.peers, p.tenant);
    if id !in rows {
      r := Refused(NotFound);
      return;
    }
    var routes := Routes.NormalizeAllowedIps(allowedIps);
    if routes.Err? {
      r := Refused(Unprocessable);
      return;
    }
    var peer := rows[id].data.(allowedIps := routes.value);
    s.peers := s.peers[id := Row(p.tenant, peer)];
    s.Audit(p, PeerRoutesUpdated, OnPeer, id, env.now);
    var networks := Own(s.networks, p.tenant);
    var found := First(env.order, networks.Keys);
    if found.None? {
      s.Rollback();
      r := Refused(NotFound);
      return;
    }
    var network := networks[found.value].data;
    var sync := SyncSession(config, s, p.tenant, found.value, network, env);
    effect := sync.effect;
    if sync.SyncFailed? {
      s.Rollback();
      r := Refused(sync.status);
      return;
    }
    s.Commit();
    r := PeerRead(id, peer, None);
  }

  method RevokeVpnPeer(config: Config, s: Session, p: Principal, id: Id, env: Env) returns (r: Response, effect: Effect)
    requires s.Clean()
    modifies s
    ensures s.Clean()
    ensures Outcome(s.stored, r, effect)
         == Committed(config, old(s.stored), p, Revoke(View(old(s.stored), p.tenant), p, id, env), env)
  {
    hide Own, SyncVpn;
    effect := Unchanged;
    if "tenant_admin" !in p.roles {
      r := Refused(Forbidden);
      return;
    }
    var rows := Own(s.peers, p.tenant);
    if id !in rows {
      r := Refused(NotFound);
      return;
    }
    var peer := rows[id].data.(enabled := false);
    peer := peer.(revokedAt := Some(env.now));
    s.peers := s.peers[id := Row(p.tenant, peer)];
    s.Audit(p, PeerRevoked, OnPeer, id, env.now);
    var networks := Own(s.networks, p.tenant);
    var found := First(env.order, networks.Keys);
    if found.None? {
      s.Rollback();
      r := Refused(NotFound);
      return;
    }
    var network := networks[found.value].data;
    var sync := SyncSession(config, s, p.tenant, found.value, network, env);
    effect := sync.effect;
    if sync.SyncFailed? {
      s.Rollback();
      r := Refused(sync.status);
      return;
    }
    s.Commit();
    r := NoContent;
  }

  lemma Frame(config: Config, db: Db, p: Principal, op: VpnOp, env: Env)
    ensures Untouched(db, Exec(config, db, p, op, env).db)
  {
    hide Untouched, Committed, Decide, View;
  }

  // ---- tenants

  lemma ApplyStep(db: Db, p: Principal, saved: Saved, now: Time)
    requires saved.SavedNetwork? && saved.id in db.networks ==> db.networks[saved.id].tenant == p.tenant
    requires saved.SavedPeer? && saved.id in db.peers ==> db.peers[saved.id].tenant == p.tenant
    ensures TenantStep(db, Apply(db, p, saved, now), p.tenant)
  {
    UnchangedStep(db, p.tenant);
    match saved {
      case Nothing =>
      case SavedNetwork(id, network) =>
        PutStep(db.networks, p.tenant, id, network);
        AppendStep(db.audit, Event(p.tenant, p.subject, NetworkConfigured, OnNetwork, id, now));
      case SavedPeer(id, peer, action, _, _) =>
        PutStep(db.peers, p.tenant, id, peer);
        AppendStep(db.audit, Event(p.tenant, p.subject, action, OnPeer, id, now));
    }
    hide TableStep, AuditStep;
  }

  lemma ApplySame(a: Db, b: Db, p: Principal, saved: Saved, now: Time)
    requires SameView(a, b, p.tenant)
    ensures SameView(Apply(a, p, saved, now), Apply(b, p, saved, now), p.tenant)
  {
    hide SameRows;
    match saved {
      case Nothing =>
      case SavedNetwork(id, network) =>
        PutSame(a.networks, b.networks, p.tenant, id, network);
        AppendSame(a.audit, b.audit, Event(p.tenant, p.subject, NetworkConfigured, OnNetwork, id, now));
      case SavedPeer(id, peer, action, _, _) =>
        PutSame(a.peers, b.peers, p.tenant, id, peer);
        AppendSame(a.audit, b.audit, Event(p.tenant, p.subject, action, OnPeer, id, now));
    }
  }

  lemma CommittedOrNot(config: Config, db: Db, p: Principal, d: Decided, env: Env)
    ensures var out := Committed(config, db, p, d, env); out.db == db || out.db == Apply(db, p, d.saved, env.now)
  {
    hide Apply, SyncSaved, Own;
  }

  lemma StaysInTenant(config: Config, db: Db, p: Principal, op: VpnOp, env: Env)
    requires ValidEnv(config, db, env)
    ensures TenantStep(db, Exec(config, db, p, op, env).db, p.tenant)
  {
    var own := View(db, p.tenant);
    var d := Decide(config, own, p, op, env);
    assert FreshId(db, env.newId);
    CommittedOrNot(config, db, p, d, env);
    hide TenantStep, Apply, Decide, Committed, Own, OwnEvents, ValidEnv;
    UnchangedStep(db, p.tenant);
    if !d.saved.Nothing? {
      OwnRow(db.networks, p.tenant, d.saved.id);
      OwnRow(db.peers, p.tenant, d.saved.id);
    }
    ApplyStep(db, p, d.saved, env.now);
  }

  /** The endpoints read, and apply, nothing but their tenant's rows. */
  lemma DependsOnView(config: Config, a: Db, b: Db, p: Principal, op: VpnOp, env: Env)
    requires SameView(a, b, p.tenant)
    ensures SameView(Exec(config, a, p, op, env).db, Exec(config, b, p, op, env).db, p.tenant)
    ensures Exec(config, a, p, op, env).response == Exec(config, b, p, op, env).response
    ensures Exec(config, a, p, op, env).effect == Exec(config, b, p, op, env).effect
  {
    hide SameView, Apply, Decide, SyncSaved, View, Own;
    SameViewIsView(a, b, p.tenant);
    var d := Decide(config, View(a, p.tenant), p, op, env);
    ApplySame(a, b, p, d.saved, env.now);
    SameViewOwns(Apply(a, p, d.saved, env.now), Apply(b, p, d.saved, env.now), p.tenant);
  }
}
