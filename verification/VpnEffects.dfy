/**
 * What requests about the VPN do, on the stored rows themselves: the one row and the one event they add once the
 * configuration is applied, and what is left where it is not.
 */
module VpnEffects {
  import opened Wrappers
  import opened Rows
  import opened Tables
  import opened ProfileIntegrity
  import opened Text
  import ClientConfig
  import Handshake
  import IPv4
  import Routes
  import ServerConfig
  import Vpn
  import X25519

  // ---- applying

  /** The text of a network of the tenant in a state of the tables. */
  ghost predicate IsTextOf(config: Config, tenant: string, db: Db, id: Id, env: Env, text: string)
    requires id in db.networks
  {
    ServerConfig.Render(db.networks[id].data, Vpn.PeersIn(env.order, Own(db.peers, tenant), id), config.wireguardKey) == Ok(text)
  }

  /**
   * The changed tables are committed and answered: without a server key, or without applying, at once; otherwise only once
   * their text is written and started. Where that fails nothing is committed, and a failing start leaves the interface down.
   */
  ghost predicate AppliedThen(config: Config, db: Db, tenant: string, next: Db, id: Id, env: Env, response: Response, out: Outcome)
    requires id in next.networks
  {
    if config.wireguardKey == "" then out == Outcome(next, response, Unchanged)
    else if X25519.ValidateKey(config.wireguardKey).Err? || IPv4.Parse(next.networks[id].data.addressCidr).None?
    then out == Outcome(db, Refused(ServerError), Unchanged)
    else if !config.wireguardApply then out == Outcome(next, response, Unchanged)
    else
      match env.apply
      case WriteFailed => out == Outcome(db, Refused(Unavailable), Unchanged)
      case UpFailed => out == Outcome(db, Refused(Unavailable), Down)
      case Applied =>
        && out.effect.Up? && out == Outcome(next, response, out.effect)
        && IsTextOf(config, tenant, next, id, env, out.effect.text)
  }

  lemma RendersUnless(n: Network, peers: seq<Peer>, key: string)
    ensures ServerConfig.Render(n, peers, key).Ok? <==> X25519.ValidateKey(key).Ok? && IPv4.Parse(n.addressCidr).Some?
  {
    hide X25519.ValidateKey, IPv4.Parse, ServerConfig.HeaderLines, ServerConfig.AllPeerLines, IPv4.Print, IPv4.Network;
  }

  lemma SyncSucceedsOrNot(config: Config, id: Id, n: Network, peers: Table<Peer>, env: Env)
    ensures var s := Vpn.SyncVpn(config, id, n, peers, env);
            var text := ServerConfig.Render(n, Vpn.PeersIn(env.order, peers, id), config.wireguardKey);
            if config.wireguardKey == "" then s == Vpn.Synced(Unchanged)
            else if X25519.ValidateKey(config.wireguardKey).Err? || IPv4.Parse(n.addressCidr).None?
            then s == Vpn.SyncFailed(ServerError, Unchanged)
            else if !config.wireguardApply then s == Vpn.Synced(Unchanged)
            else
              && text.Ok?
              && s == match env.apply
                      case WriteFailed => Vpn.SyncFailed(Unavailable, Unchanged)
                      case UpFailed => Vpn.SyncFailed(Unavailable, Down)
                      case Applied => Vpn.Synced(Up(text.value))
  {
    RendersUnless(n, Vpn.PeersIn(env.order, peers, id), config.wireguardKey);
    hide X25519.ValidateKey, IPv4.Parse, ServerConfig.Render;
  }

  lemma SyncedOrNot(config: Config, db: Db, tenant: string, next: Db, id: Id, env: Env, response: Response)
    requires id in next.networks
    ensures var s := Vpn.SyncVpn(config, id, next.networks[id].data, Own(next.peers, tenant), env);
            AppliedThen(config, db, tenant, next, id, env, response,
                        if s.Synced? then Outcome(next, response, s.effect) else Outcome(db, Refused(s.status), s.effect))
  {
    hide X25519.ValidateKey, IPv4.Parse, ServerConfig.Render, Own, Vpn.SyncVpn;
    SyncSucceedsOrNot(config, id, next.networks[id].data, Own(next.peers, tenant), env);
  }

  lemma CommittedPeer(config: Config, db: Db, p: Principal, d: Vpn.Decided, env: Env)
    requires d.saved.SavedPeer? && d.saved.networkId in db.networks && d.saved.network == db.networks[d.saved.networkId].data
    ensures AppliedThen(config, db, p.tenant, PeerSaved(db, p, d.saved.id, d.saved.peer, d.saved.action, env.now), d.saved.networkId, env,
                        d.response, Vpn.Committed(config, db, p, d, env))
  {
    hide Vpn.SyncVpn, AppliedThen, Own;
    var next := PeerSaved(db, p, d.saved.id, d.saved.peer, d.saved.action, env.now);
    SyncedOrNot(config, db, p.tenant, next, d.saved.networkId, env, d.response);
  }

  /** One peer saved, with its event. */
  function PeerSaved(db: Db, p: Principal, id: Id, x: Peer, action: Action, now: Time): Db {
    db.(peers := db.peers[id := Row(p.tenant, x)], audit := db.audit + [Event(p.tenant, p.subject, action, OnPeer, id, now)])
  }

  function NetworkSaved(db: Db, p: Principal, id: Id, n: Network, now: Time): Db {
    db.(networks := db.networks[id := Row(p.tenant, n)],
        audit := db.audit + [Event(p.tenant, p.subject, NetworkConfigured, OnNetwork, id, now)])
  }

  lemma CommittedNetwork(config: Config, db: Db, p: Principal, d: Vpn.Decided, env: Env)
    requires d.saved.SavedNetwork?
    ensures AppliedThen(config, db, p.tenant, NetworkSaved(db, p, d.saved.id, d.saved.network, env.now), d.saved.id, env, d.response,
                        Vpn.Committed(config, db, p, d, env))
  {
    hide Vpn.SyncVpn, AppliedThen, Own;
    SyncedOrNot(config, db, p.tenant, NetworkSaved(db, p, d.saved.id, d.saved.network, env.now), d.saved.id, env, d.response);
  }

  // ---- the network

  /** The tenant's network, or the fresh id where it has none. */
  ghost predicate NetworkId(db: Db, tenant: string, env: Env, id: Id) {
    Has(db.networks, tenant, id) || (id == env.newId && forall n :: !Has(db.networks, tenant, n))
  }

  lemma NetworkFound(config: Config, db: Db, tenant: string, env: Env)
    requires ValidEnv(config, db, env) && UniqueNetworks(db.networks)
    ensures var own := View(db, tenant); var found := Vpn.TheNetwork(own, env);
            && (found.None? <==> forall n :: !Has(db.networks, tenant, n))
            && (forall n :: Has(db.networks, tenant, n) ==> found == Some(n) && own.networks[n] == db.networks[n])
  {
    hide OwnEvents;
    var own := View(db, tenant);
    var found := Vpn.TheNetwork(own, env);
    forall n | Has(db.networks, tenant, n) ensures found == Some(n) && own.networks[n] == db.networks[n] {
      assert n in own.networks.Keys && n in env.order;
      assert found.value in own.networks;
    }
    if found.Some? {
      assert Has(db.networks, tenant, found.value);
    }
  }

  /** The texts stripped, the interface in its canonical form, and no DNS server where none is given. */
  function NetworkAsked(name: string, interface: IPv4.Cidr, endpoint: string, port: nat, dns: Option<string>, enabled: bool, now: Time)
    : Network
    requires IPv4.ValidCidr(interface)
  {
    Network(Strip(name), IPv4.Print(interface), Strip(endpoint), port,
            if dns == None || dns == Some("") then None else Some(Strip(dns.value)), enabled, now)
  }

  /** The tenant's one network is made or updated; whether it is enabled stays as it was. */
  lemma ConfiguredNetwork(config: Config, db: Db, p: Principal, name: string, cidr: string, endpoint: string, port: nat,
                          dns: Option<string>, env: Env, id: Id)
    requires ValidEnv(config, db, env) && UniqueNetworks(db.networks) && NetworkId(db, p.tenant, env, id)
    ensures var out := Vpn.Exec(config, db, p, Vpn.ConfigureNetwork(name, cidr, endpoint, port, dns), env);
            if "tenant_admin" !in p.roles then out == Outcome(db, Refused(Forbidden), Unchanged)
            else if IPv4.Parse(cidr).None? then out == Outcome(db, Refused(Unprocessable), Unchanged)
            else
              var enabled := Has(db.networks, p.tenant, id) ==> db.networks[id].data.enabled;
              var n := NetworkAsked(name, IPv4.Parse(cidr).value, endpoint, port, dns, enabled, env.now);
              AppliedThen(config, db, p.tenant, NetworkSaved(db, p, id, n, env.now), id, env, NetworkRead(id, n), out)
  {
    hide View, Vpn.TheNetwork, IPv4.Parse, IPv4.Print, Strip, ValidEnv, UniqueNetworks, Vpn.Committed, AppliedThen, NetworkSaved;
    hide Vpn.OwnSaved;
    var op := Vpn.ConfigureNetwork(name, cidr, endpoint, port, dns);
    NetworkFound(config, db, p.tenant, env);
    var d := Vpn.Decide(config, View(db, p.tenant), p, op, env);
    if d.saved.SavedNetwork? {
      CommittedNetwork(config, db, p, d, env);
    } else {
      NothingCommitted(config, db, p, d, env);
    }
  }

  lemma NothingCommitted(config: Config, db: Db, p: Principal, d: Vpn.Decided, env: Env)
    requires d.saved.Nothing?
    ensures Vpn.Committed(config, db, p, d, env) == Outcome(db, d.response, Unchanged)
  {
  }

  // ---- creating a peer

  /** What is asked for, or the whole block of the network. */
  function RoutesAsked(n: Network, allowedIps: Option<string>): string {
    if allowedIps.Some? && allowedIps.value != "" then allowedIps.value
    else if IPv4.Parse(n.addressCidr).None? then ""
    else IPv4.Print(IPv4.Network(IPv4.Parse(n.addressCidr).value))
  }

  ghost predicate GivesKey(publicKey: Option<string>) {
    publicKey.Some? && publicKey.value != ""
  }

  /** An address inside the network, routes that can be normalized, and a valid key if one is given. */
  ghost predicate MayPeer(n: Network, address: string, publicKey: Option<string>, allowedIps: Option<string>) {
    && Routes.AddressBelongs(n.addressCidr, address).Ok? && Routes.NormalizeAllowedIps(RoutesAsked(n, allowedIps)).Ok?
    && (GivesKey(publicKey) ==> X25519.ValidateKey(publicKey.value).Ok?)
  }

  ghost predicate KeyOrAddressInUse(db: Db, tenant: string, networkId: Id, publicKey: string, address: string) {
    exists k :: Has(db.peers, tenant, k) && db.peers[k].data.networkId == networkId
                && (db.peers[k].data.publicKey == publicKey || db.peers[k].data.address == address)
  }

  /** A client text comes with a generated key, unless the server has no usable key; it is rendered from the peer's fields. */
  ghost predicate IsClientText(config: Config, n: Network, x: Peer, generated: bool, env: Env, text: Option<string>) {
    && (text.Some? <==> generated && X25519.ValidateKey(config.wireguardKey).Ok?)
    && (text.Some? ==>
          ClientConfig.RenderClient(n, env.privateKey, x.address, X25519.PublicKeyText(config.wireguardKey), Some(x.allowedIps))
          == Ok(text.value))
  }

  lemma OwnPeers(db: Db, tenant: string, id: Id, networkId: Id, publicKey: string, address: string)
    ensures var rows := View(db, tenant).peers;
            && (id in rows <==> Has(db.peers, tenant, id)) && (id in rows ==> rows[id] == db.peers[id])
            && (Vpn.PeerTaken(rows, networkId, publicKey, address) <==> KeyOrAddressInUse(db, tenant, networkId, publicKey, address))
  {
    hide OwnEvents;
    var rows := View(db, tenant).peers;
    if KeyOrAddressInUse(db, tenant, networkId, publicKey, address) {
      var k :| Has(db.peers, tenant, k) && db.peers[k].data.networkId == networkId
               && (db.peers[k].data.publicKey == publicKey || db.peers[k].data.address == address);
      assert k in rows;
    }
    if k :| k in rows && rows[k].data.networkId == networkId && (rows[k].data.publicKey == publicKey || rows[k].data.address == address) {
      assert Has(db.peers, tenant, k);
    }
  }

  lemma RoutesOfPeer(n: Network, address: string, allowedIps: Option<string>)
    ensures Routes.AddressBelongs(n.addressCidr, address).Ok? ==>
              Vpn.RoutesOr(n, allowedIps) == Routes.NormalizeAllowedIps(RoutesAsked(n, allowedIps))
  {
    hide Routes.NormalizeAllowedIps, IPv4.Parse, IPv4.Print, IPv4.Network;
  }

  lemma TextOfPeer(config: Config, n: Network, x: Peer, env: Env)
    requires x.allowedIps != ""
    ensures IsClientText(config, n, x, true, env, Vpn.ClientText(config, n, env.privateKey, x.address, x.allowedIps))
  {
    hide X25519.ValidateKey, X25519.PublicKeyText, ClientConfig.ClientLines;
  }

  /** The peer that a request is to create: the fields asked for in canonical form, enabled, under the chosen key. */
  ghost predicate IsNewPeer(x: Peer, n: Network, networkId: Id, name: string, address: string, publicKey: Option<string>,
                            allowedIps: Option<string>, keepalive: nat, env: Env)
  {
    && Routes.AddressBelongs(n.addressCidr, address) == Ok(x.address)
    && Routes.NormalizeAllowedIps(RoutesAsked(n, allowedIps)) == Ok(x.allowedIps)
    && x == Peer(networkId, Strip(name), if GivesKey(publicKey) then publicKey.value else env.publicKey, x.address, x.allowedIps,
                 keepalive, true, None)
  }

  lemma CreatedPeer(config: Config, db: Db, p: Principal, name: string, address: string, publicKey: Option<string>,
                    allowedIps: Option<string>, keepalive: nat, env: Env, id: Id)
    requires ValidEnv(config, db, env) && UniqueNetworks(db.networks) && NetworkId(db, p.tenant, env, id)
    ensures var out := Vpn.Exec(config, db, p, Vpn.CreatePeer(name, address, publicKey, allowedIps, keepalive), env);
            if "tenant_admin" !in p.roles then out == Outcome(db, Refused(Forbidden), Unchanged)
            else if !Has(db.networks, p.tenant, id) then out == Outcome(db, Refused(NotFound), Unchanged)
            else
              var n := db.networks[id].data;
              if !MayPeer(n, address, publicKey, allowedIps) then out == Outcome(db, Refused(Unprocessable), Unchanged)
              else
                exists x, text ::
                  && IsNewPeer(x, n, id, name, address, publicKey, allowedIps, keepalive, env)
                  && IsClientText(config, n, x, publicKey.None?, env, text)
                  && (if KeyOrAddressInUse(db, p.tenant, id, x.publicKey, x.address) then out == Outcome(db, Refused(Conflict), Unchanged)
                      else AppliedThen(config, db, p.tenant, PeerSaved(db, p, env.newId, x, PeerCreated, env.now), id, env,
                                       PeerRead(env.newId, x, text), out))
  {
    var op := Vpn.CreatePeer(name, address, publicKey, allowedIps, keepalive);
    NetworkFound(config, db, p.tenant, env);
    hide View, Vpn.TheNetwork, Vpn.Create, ValidEnv, UniqueNetworks, Vpn.Committed, AppliedThen, PeerSaved, MayPeer, IsNewPeer;
    hide IsClientText, KeyOrAddressInUse;
    var own := View(db, p.tenant);
    var d := Vpn.Decide(config, own, p, op, env);
    CreateDecides(config, db, p, op, env, id);
    if d.saved.SavedPeer? {
      CommittedPeer(config, db, p, d, env);
    } else {
      NothingCommitted(config, db, p, d, env);
    }
  }

  lemma CreateDecides(config: Config, db: Db, p: Principal, op: Vpn.VpnOp, env: Env, id: Id)
    requires op.CreatePeer? && NetworkId(db, p.tenant, env, id)
    requires var own := View(db, p.tenant); var found := Vpn.TheNetwork(own, env);
             && (found.None? <==> forall n :: !Has(db.networks, p.tenant, n))
             && (forall n :: Has(db.networks, p.tenant, n) ==> found == Some(n) && own.networks[n] == db.networks[n])
    ensures var d := Vpn.Create(config, View(db, p.tenant), p, op, env);
            if "tenant_admin" !in p.roles then d == Vpn.Decided(Vpn.Nothing, Refused(Forbidden))
            else if !Has(db.networks, p.tenant, id) then d == Vpn.Decided(Vpn.Nothing, Refused(NotFound))
            else
              var n := db.networks[id].data;
              if !MayPeer(n, op.address, op.publicKey, op.allowedIps) then d == Vpn.Decided(Vpn.Nothing, Refused(Unprocessable))
              else
                exists x, text ::
                  && IsNewPeer(x, n, id, op.name, op.address, op.publicKey, op.allowedIps, op.keepalive, env)
                  && IsClientText(config, n, x, op.publicKey.None?, env, text)
                  && (if KeyOrAddressInUse(db, p.tenant, id, x.publicKey, x.address) then d == Vpn.Decided(Vpn.Nothing, Refused(Conflict))
                      else d == Vpn.Decided(Vpn.SavedPeer(env.newId, x, PeerCreated, id, n), PeerRead(env.newId, x, text)))
  {
    hide View, Vpn.TheNetwork, Vpn.OwnSaved, Vpn.PeerTaken, Vpn.RoutesOr, Vpn.ClientText, Routes.NormalizeAllowedIps, Routes.AddressBelongs;
    hide X25519.ValidateKey, X25519.PublicKeyText, RoutesAsked, Strip, IsClientText, KeyOrAddressInUse;
    if "tenant_admin" in p.roles && Has(db.networks, p.tenant, id) {
      var n := db.networks[id].data;
      RoutesOfPeer(n, op.address, op.allowedIps);
      if MayPeer(n, op.address, op.publicKey, op.allowedIps) {
        var routes := Routes.NormalizeAllowedIps(RoutesAsked(n, op.allowedIps)).value;
        var key := if GivesKey(op.publicKey) then op.publicKey.value else env.publicKey;
        var x := Peer(id, Strip(op.name), key, Routes.AddressBelongs(n.addressCidr, op.address).value, routes, op.keepalive, true, None);
        var text := if op.publicKey.None? then Vpn.ClientText(config, n, env.privateKey, x.address, routes) else None;
        X25519.ValidKeyIsUnchanged(key);
        NormalizedIsNotEmpty(RoutesAsked(n, op.allowedIps));
        TextOfPeer(config, n, x, env);
        NoText(config, n, x, env);
        OwnPeers(db, p.tenant, env.newId, id, key, x.address);
        assert IsNewPeer(x, n, id, op.name, op.address, op.publicKey, op.allowedIps, op.keepalive, env);
        assert IsClientText(config, n, x, op.publicKey.None?, env, text);
      }
    }
  }

  lemma NoText(config: Config, n: Network, x: Peer, env: Env)
    ensures IsClientText(config, n, x, false, env, None)
  {
    hide X25519.ValidateKey, X25519.PublicKeyText, ClientConfig.RenderClient;
  }

  lemma NormalizedIsNotEmpty(value: string)
    requires Routes.NormalizeAllowedIps(value).Ok?
    ensures Routes.NormalizeAllowedIps(value).value != ""
  {
    hide Routes.NormalizeAllowedIps;
    Handshake.NormalizedIsClean(value);
  }

  // ---- changing and revoking a peer

  /** An administrator changes the routes of a peer of the tenant, and nothing else of it. */
  lemma ChangedRoutes(config: Config, db: Db, p: Principal, k: Id, routes: string, env: Env, id: Id)
    requires ValidEnv(config, db, env) && UniqueNetworks(db.networks) && NetworkId(db, p.tenant, env, id)
    ensures var out := Vpn.Exec(config, db, p, Vpn.UpdateRoutes(k, routes), env);
            if "tenant_admin" !in p.roles then out == Outcome(db, Refused(Forbidden), Unchanged)
            else if !Has(db.peers, p.tenant, k) then out == Outcome(db, Refused(NotFound), Unchanged)
            else if Routes.NormalizeAllowedIps(routes).Err? then out == Outcome(db, Refused(Unprocessable), Unchanged)
            else if !Has(db.networks, p.tenant, id) then out == Outcome(db, Refused(NotFound), Unchanged)
            else
              var was := db.peers[k].data;
              var x := Peer(was.networkId, was.name, was.publicKey, was.address, Routes.NormalizeAllowedIps(routes).value, was.keepalive,
                            was.enabled, was.revokedAt);
              AppliedThen(config, db, p.tenant, PeerSaved(db, p, k, x, PeerRoutesUpdated, env.now), id, env, PeerRead(k, x, None), out)
  {
    NetworkFound(config, db, p.tenant, env);
    OwnPeers(db, p.tenant, k, id, "", "");
    var d := Vpn.Decide(config, View(db, p.tenant), p, Vpn.UpdateRoutes(k, routes), env);
    hide View, Vpn.TheNetwork, ValidEnv, UniqueNetworks, Vpn.Committed, AppliedThen, PeerSaved, Routes.NormalizeAllowedIps;
    if d.saved.SavedPeer? {
      CommittedPeer(config, db, p, d, env);
    } else {
      NothingCommitted(config, db, p, d, env);
    }
  }

  /** A revoked peer stays, disabled from now on; nothing else of it, and no other peer, changes. */
  lemma RevokedPeer(config: Config, db: Db, p: Principal, k: Id, env: Env, id: Id)
    requires ValidEnv(config, db, env) && UniqueNetworks(db.networks) && NetworkId(db, p.tenant, env, id)
    ensures var out := Vpn.Exec(config, db, p, Vpn.RevokePeer(k), env);
            if "tenant_admin" !in p.roles then out == Outcome(db, Refused(Forbidden), Unchanged)
            else if !Has(db.peers, p.tenant, k) || !Has(db.networks, p.tenant, id) then out == Outcome(db, Refused(NotFound), Unchanged)
            else
              var was := db.peers[k].data;
              var x := Peer(was.networkId, was.name, was.publicKey, was.address, was.allowedIps, was.keepalive, false, Some(env.now));
              AppliedThen(config, db, p.tenant, PeerSaved(db, p, k, x, PeerRevoked, env.now), id, env, NoContent, out)
  {
    NetworkFound(config, db, p.tenant, env);
    OwnPeers(db, p.tenant, k, id, "", "");
    var d := Vpn.Decide(config, View(db, p.tenant), p, Vpn.RevokePeer(k), env);
    hide View, Vpn.TheNetwork, ValidEnv, UniqueNetworks, Vpn.Committed, AppliedThen, PeerSaved;
    if d.saved.SavedPeer? {
      CommittedPeer(config, db, p, d, env);
    } else {
      NothingCommitted(config, db, p, d, env);
    }
  }

  // ---- failures

  lemma DecisionsAreNotUnavailable(config: Config, own: Db, p: Principal, op: Vpn.VpnOp, env: Env)
    ensures Vpn.Decide(config, own, p, op, env).response != Refused(Unavailable)
  {
    hide Vpn.RoutesOr, Vpn.ChosenKey, Vpn.PeerTaken, Vpn.ClientText, Vpn.OwnSaved, Vpn.TheNetwork;
  }

  /** A configuration that is not applied changes nothing stored; a failed write leaves the interface alone, a failed start down. */
  lemma FailedApplyShows(config: Config, db: Db, p: Principal, op: Vpn.VpnOp, env: Env)
    requires Vpn.Exec(config, db, p, op, env).response == Refused(Unavailable)
    ensures env.apply != Applied
    ensures Vpn.Exec(config, db, p, op, env) == Outcome(db, Refused(Unavailable), if env.apply == UpFailed then Down else Unchanged)
  {
    DecisionsAreNotUnavailable(config, View(db, p.tenant), p, op, env);
    hide Vpn.Decide, View, Vpn.Apply, Own, ServerConfig.Render, Vpn.PeersIn;
  }
}
