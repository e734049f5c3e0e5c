/** The configuration a client is handed fits the one the server runs: keys and address meet on both sides. */
module Handshake {
  import opened Wrappers
  import opened Rows
  import opened Tables
  import opened ControlPlane
  import opened Runtime
  import opened ServerConfig
  import opened Text
  import Accounts
  import ClientConfig
  import Clients
  import Decimal
  import Deployments
  import FileServers
  import IPv4
  import Routes
  import Support
  import Vpn
  import X25519

  /** The configuration text in an answer, if it carries one. */
  function Given(r: Response): Option<string> {
    if r.Bootstrapped? then r.vpnProfile else if r.PeerRead? then r.clientConfig else None
  }

  /** Read section by section, the client text holds the new private key, its address and routes, and the server's key and endpoint. */
  ghost predicate ClientSide(config: Config, n: Network, privateKey: string, address: string, routes: string, text: string) {
    && X25519.ValidateKey(config.wireguardKey).Ok?
    && ReadSections(Lines(text), []) == [ClientConfig.InterfaceSection(n, privateKey, address),
                                         ClientConfig.ServerSection(n, X25519.PublicKeyText(config.wireguardKey), routes)]
  }

  /** The server text holds the matching private key, the address and port of the network, and the stored peer. */
  ghost predicate ServerSide(config: Config, n: Network, x: Peer, text: string) {
    && Read(text).Some?
    && (var r := Read(text).value;
        && r.privateKey == config.wireguardKey && r.address == n.addressCidr && r.listenPort == n.listenPort
        && ReadingOf(x) in r.peers)
  }

  // ---- route lists as values of a line

  ghost predicate ListText(s: string) {
    forall k :: 0 <= k < |s| ==> Decimal.IsDigit(s[k]) || s[k] in "./, "
  }

  lemma {:induction false} JoinedText(texts: seq<string>)
    requires texts != [] && forall i :: 0 <= i < |texts| ==> texts[i] != "" && IPv4.Plain(texts[i])
    ensures var j := Join(texts, ", ");
            j != "" && j[0] == texts[0][0] && j[|j| - 1] == texts[|texts| - 1][|texts[|texts| - 1]| - 1] && ListText(j)
  {
    if |texts| <= 1 {
    } else {
      JoinedText(texts[1..]);
      assert Join(texts, ", ") == texts[0] + ", " + Join(texts[1..], ", ");
    }
  }

  lemma PlainIsNoSpace(c: char)
    requires Decimal.IsDigit(c) || c == '.' || c == '/'
    ensures !IsSpace(c)
  {
  }

  lemma NormalizedIsClean(value: string)
    requires Routes.NormalizeAllowedIps(value).Ok?
    ensures Clean(Routes.NormalizeAllowedIps(value).value)
  {
    var entries := Routes.NormalizedEntries(value);
    var routes := Routes.Routes(value);
    hide Routes.NormalizeAllowedIps, Routes.Routes;
    forall i | 0 <= i < |entries| ensures entries[i] != "" && IPv4.Plain(entries[i]) {
      assert entries[i] in entries;
      assert entries[i] in Routes.NetworkTexts(routes);
      var k :| 0 <= k < |routes| && entries[i] == Routes.NetworkTexts(routes)[k];
      IPv4.PrintedText(IPv4.Network(IPv4.Parse(routes[k]).value));
    }
    JoinedText(entries);
    var j, last := Join(entries, ", "), entries[|entries| - 1];
    PlainIsNoSpace(entries[0][0]);
    PlainIsNoSpace(last[|last| - 1]);
    ListTextHasNoBreak(j);
  }

  lemma ListTextHasNoBreak(s: string)
    requires ListText(s)
    ensures '\n' !in s && '#' !in s
  {
  }

  lemma RoutesOrIsClean(network: Network, routes: Option<string>)
    requires Vpn.RoutesOr(network, routes).Ok?
    ensures Clean(Vpn.RoutesOr(network, routes).value)
  {
    hide Clean, Routes.NormalizeAllowedIps;
    if routes.Some? && routes.value != "" {
      NormalizedIsClean(routes.value);
    } else {
      NormalizedIsClean(IPv4.Print(IPv4.Network(IPv4.Parse(network.addressCidr).value)));
    }
  }

  lemma PolicyIsClean(network: Network, user: User, profile: Option<Profile>)
    requires Clients.PeerPolicy(network, user, profile).Some?
    ensures var (address, routes) := Clients.PeerPolicy(network, user, profile).value; Clean(address) && Clean(routes)
  {
    hide Clean, Routes.NormalizeAllowedIps, Routes.AddressBelongs, Vpn.RoutesOr;
    AcceptedAddressIsClean(network.addressCidr, if user.vpnAddress.Some? then user.vpnAddress.value else "");
    if profile.Some? {
      NormalizedIsClean(profile.value.allowedIps);
    } else {
      RoutesOrIsClean(network, Some(user.allowedIps));
    }
  }

  // ---- the client's side

  lemma ClientTextReads(config: Config, n: Network, env: Env, address: string, routes: string)
    requires Installed(config) && KeyPair(env) && Clean(address) && Clean(routes)
    ensures var text := Vpn.ClientText(config, n, env.privateKey, address, routes);
            text.Some? && (ClientConfig.FieldsCarried(n) ==> ClientSide(config, n, env.privateKey, address, routes, text.value))
  {
    ValidKeyIsClean(env.privateKey);
    X25519.DerivedKeyIsValid(config.wireguardKey);
    hide X25519.ValidateKey, X25519.PublicKeyText, ClientConfig.FieldsCarried;
    assert routes != "";
    hide Clean;
    var serverKey := X25519.PublicKeyText(config.wireguardKey);
    ValidKeyIsClean(serverKey);
    assert ClientConfig.ClientRoutes(n, Some(routes)) == Ok(routes);
    ClientConfig.RenderedClientReads(n, env.privateKey, address, serverKey, Some(routes));
  }

  /** The peer has the public key of the private key in the text, and the same address. */
  ghost predicate PeerFits(config: Config, env: Env, n: Network, x: Peer, keepalive: int, text: string) {
    && x.publicKey == env.publicKey && x.keepalive == keepalive && x.enabled
    && (ClientConfig.FieldsCarried(n) ==> ClientSide(config, n, env.privateKey, x.address, x.allowedIps, text))
  }

  /** The keepalive of client peers is fixed. */
  const CLIENT_KEEPALIVE := 25

  lemma IssuedFits(config: Config, own: Db, networkId: Id, subject: string, deviceName: string, address: string, routes: string, env: Env)
    requires Installed(config) && KeyPair(env) && networkId in own.networks
    requires Clean(address) && Clean(routes)
    ensures var r := Clients.Issue(config, own, networkId, subject, deviceName, address, routes, env);
            r.Issued? ==>
              r.text.Some? && PeerFits(config, env, r.change.network, r.change.peer, CLIENT_KEEPALIVE, r.text.value)
  {
    ClientTextReads(config, own.networks[networkId].data, env, address, routes);
    hide ClientSide, Vpn.ClientText, Clean, ClientConfig.FieldsCarried, Installed, Clients.KeyTaken;
  }

  lemma BootstrapIssueFits(config: Config, own: Db, user: User, deviceName: string, profile: Option<Profile>, login: bool, env: Env)
    requires Installed(config) && KeyPair(env)
    ensures var r := Clients.BootstrapPeer(config, own, user, deviceName, profile, login, env);
            r.Some? && r.value.Issued? ==>
              && r.value.text.Some?
              && PeerFits(config, env, r.value.change.network, r.value.change.peer, CLIENT_KEEPALIVE, r.value.text.value)
  {
    var found := Vpn.TheNetwork(own, env);
    hide Clients.Issue, Clients.PeerPolicy, Clients.WantsVpn, Clean, PeerFits, Installed, KeyPair;
    if found.Some? && Clients.PeerPolicy(own.networks[found.value].data, user, profile).Some? {
      PolicyIsClean(own.networks[found.value].data, user, profile);
      var (address, routes) := Clients.PeerPolicy(own.networks[found.value].data, user, profile).value;
      IssuedFits(config, own, found.value, user.subject, deviceName, address, routes, env);
    }
  }

  /** An answer that carries a configuration comes with the peer it fits. */
  ghost predicate AnswerFits(config: Config, env: Env, d: Clients.Decided) {
    Given(d.response).Some? ==>
      && d.saved.Changes? && d.saved.peer.Some?
      && (var c := d.saved.peer.value; PeerFits(config, env, c.network, c.peer, CLIENT_KEEPALIVE, Given(d.response).value))
  }

  lemma EnrollmentFits(config: Config, own: Db, p: Principal, deviceName: string, env: Env)
    requires Installed(config) && KeyPair(env)
    ensures AnswerFits(config, env, Clients.EnrollDecision(config, own, p, deviceName, env))
  {
    var found, network := Clients.ActiveUser(own, p.subject, env), Vpn.TheNetwork(own, env);
    hide Clients.Issue, Clients.PeerPolicy, Clean, PeerFits, Installed, KeyPair, Clients.OwnChanges, Clients.ActiveUser, Strip;
    if found.Some? && network.Some? {
      var user, n := own.users[found.value].data, own.networks[network.value].data;
      if Clients.PeerPolicy(n, user, None).Some? {
        PolicyIsClean(n, user, None);
        var (address, routes) := Clients.PeerPolicy(n, user, None).value;
        IssuedFits(config, own, network.value, p.subject, Strip(deviceName), address, routes, env);
      }
    }
  }

  lemma BootstrapFits(config: Config, own: Db, p: Principal, op: Clients.ClientOp, env: Env)
    requires op.Bootstrap? && Installed(config) && KeyPair(env)
    ensures AnswerFits(config, env, Clients.BootstrapDecision(config, own, p, op, env))
  {
    var found, c := Clients.ActiveUser(own, p.subject, env), Clients.Choose(config, own, p.subject, op.enrollmentCode, env);
    hide Clients.BootstrapPeer, Clients.Choose, Clients.ActiveUser, Clients.DeviceFor, PeerFits, Installed, KeyPair;
    hide Clients.OwnChanges, Clients.BootstrapResponse, Given;
    if found.Some? && c.Chosen? {
      var user, login := own.users[found.value].data, Clients.IsLogin(op.enrollmentCode);
      var issued := Clients.BootstrapPeer(config, own, user, op.deviceName, c.profile, login, env);
      var (id, device, _) := Clients.DeviceFor(own, p.subject, op.deviceName, env);
      BootstrapIssueFits(config, own, user, op.deviceName, c.profile, login, env);
      if !(issued.Some? && issued.value.NotIssued?) {
        BootstrapGives(config, own, user, c.profile, login, issued, id, device, env);
      }
    }
    RefusalGivesNothing();
  }

  lemma RefusalGivesNothing()
    ensures forall status :: Given(Refused(status)).None?
  {
  }

  /** A bootstrap answers with the text that was issued, or with none. */
  lemma BootstrapGives(config: Config, own: Db, user: User, profile: Option<Profile>, login: bool, issued: Option<Clients.Issued>,
                       id: Id, device: Device, env: Env)
    requires issued.Some? ==> issued.value.Issued?
    ensures var given := Given(Clients.BootstrapResponse(config, own, user, profile, login, issued, id, device, env));
            given.Some? ==> issued.Some? && given == issued.value.text
  {
    hide Clients.NetworkReadable, Vpn.TheNetwork;
  }

  // ---- both sides

  lemma ListedIsRead(readings: seq<PeerReading>, peers: Table<Peer>, id: Id)
    requires ListsEnabled(readings, peers) && id in peers && peers[id].data.enabled
    ensures ReadingOf(peers[id].data) in readings
  {
    var ids :| ListedAs(readings, peers, ids);
    var i :| 0 <= i < |ids| && ids[i] == id;
    assert readings[i] in readings;
  }

  /** With a peer to apply, the answer of the decision is given only once its configuration is up. */
  lemma CommittedIsUp(config: Config, db: Db, p: Principal, d: Clients.Decided, env: Env)
    requires d.saved.Changes? && d.saved.peer.Some? && Installed(config)
    ensures var out := Clients.Committed(config, db, p, d, env);
            out.response == d.response && Given(d.response).Some? ==> out.effect.Up? && out.db == Clients.Apply(db, p, d.saved, env.now)
  {
    KeyIsNotEmpty(config);
    hide Clients.Apply, Own, ServerConfig.Render, Vpn.PeersIn;
  }

  lemma RefusedOrDecided(config: Config, db: Db, p: Principal, d: Clients.Decided, env: Env)
    ensures var out := Clients.Committed(config, db, p, d, env); out.response == d.response || out.response.Refused?
  {
    hide Clients.Apply, Own, Clients.SyncPeer;
  }

  /** A stored and enabled peer is on the server's side of the running text. */
  lemma StoredPeerIsServed(config: Config, networks: Table<Network>, peers: Table<Peer>, id: Id, k: Id, text: string)
    requires Installed(config) && StoredRows(networks, peers) && RunsWith(config, networks, peers, id, text) && id in networks
    requires k in PeersOf(peers, id) && peers[k].data.enabled
    ensures AllQuiet(PeersOf(peers, id)) ==> ServerSide(config, networks[id].data, peers[k].data, text)
  {
    hide StoredRows, RunsWith, ReadsExactly, AllQuiet, ListsEnabled, Installed;
    RunningTextAgrees(config, networks, peers, id, text);
    if AllQuiet(PeersOf(peers, id)) {
      ListedIsRead(Read(text).value.peers, PeersOf(peers, id), k);
    }
  }

  /** The interface is up, and its text fits the client's, for the tenant's network and a stored peer that both speak of. */
  ghost predicate BothSides(config: Config, db: Db, tenant: string, env: Env, keepalive: int, client: string, effect: Effect) {
    && effect.Up? && X25519.ValidateKey(env.privateKey).Ok?
    && exists id, k :: Has(db.networks, tenant, id) && k in PeersOf(db.peers, id)
         && Fits(config, db.networks[id].data, PeersOf(db.peers, id), k, env, keepalive, client, effect.text)
  }

  ghost predicate Fits(config: Config, n: Network, peers: Table<Peer>, k: Id, env: Env, keepalive: int, client: string, server: string)
    requires k in peers && X25519.ValidateKey(env.privateKey).Ok?
  {
    var x := peers[k].data;
    && x.publicKey == X25519.PublicKeyText(env.privateKey) && x.keepalive == keepalive
    && (ClientConfig.FieldsCarried(n) ==> ClientSide(config, n, env.privateKey, x.address, x.allowedIps, client))
    && (AllQuiet(peers) ==> ServerSide(config, n, x, server))
  }

  /** An outcome with a stored peer that fits the text it hands out, and with the peer's network applied: both sides fit. */
  lemma StoredPeerFits(config: Config, tenant: string, before: Db, out: Outcome, id: Id, k: Id, x: Peer, env: Env, keepalive: int)
    requires Installed(config) && KeyPair(env) && KeepsStep(config, tenant, before, out) && out.effect.Up?
    requires Has(out.db.networks, tenant, id) && k in out.db.peers && out.db.peers[k].data == x && x.networkId == id
    requires Given(out.response).Some?
    requires PeerFits(config, env, out.db.networks[id].data, x, keepalive, Given(out.response).value)
    ensures BothSides(config, out.db, tenant, env, keepalive, Given(out.response).value, out.effect)
  {
    hide StoredRows, RunsFor, RunsWith, Installed, ClientSide, ServerSide, AllQuiet, X25519.PublicKeyText, X25519.ValidateKey, Given;
    hide ClientConfig.FieldsCarried;
    RunsWithOwn(config, out.db.networks, out.db.peers, tenant, id, out.effect.text);
    StoredPeerIsServed(config, out.db.networks, out.db.peers, id, k, out.effect.text);
    var client := Given(out.response).value;
    assert Fits(config, out.db.networks[id].data, PeersOf(out.db.peers, id), k, env, keepalive, client, out.effect.text);
  }

  lemma CommittedFits(config: Config, db: Db, p: Principal, d: Clients.Decided, env: Env)
    requires Installed(config) && KeyPair(env) && AnswerFits(config, env, d)
    requires d.saved.Changes? && d.saved.peer.Some? ==>
               CleanChange(db, d.saved.peer.value) && db.networks[d.saved.peer.value.networkId].tenant == p.tenant
    requires KeepsStep(config, p.tenant, db, Clients.Committed(config, db, p, d, env))
    ensures var out := Clients.Committed(config, db, p, d, env);
            Given(out.response).Some? ==>
              BothSides(config, out.db, p.tenant, env, CLIENT_KEEPALIVE, Given(out.response).value, out.effect)
  {
    hide Clients.Committed, Clients.Apply, Installed, KeepsStep, CleanPeer, PeerFits, BothSides, KeyPair, Given;
    var out := Clients.Committed(config, db, p, d, env);
    RefusedOrDecided(config, db, p, d, env);
    RefusalGivesNothing();
    if Given(out.response).Some? {
      var c := d.saved.peer.value;
      CommittedIsUp(config, db, p, d, env);
      AppliedPeer(db, p, d.saved, env.now);
      StoredPeerFits(config, p.tenant, db, out, c.networkId, c.id, c.peer, env, CLIENT_KEEPALIVE);
    }
  }

  lemma ClientsFit(config: Config, db: Db, p: Principal, op: Clients.ClientOp, env: Env)
    requires Installed(config) && StoredRows(db.networks, db.peers) && Admissible(config, db, Step(Call(p, OfClients(op)), env))
    ensures var out := Clients.Exec(config, db, p, op, env);
            Given(out.response).Some? ==>
              BothSides(config, out.db, p.tenant, env, CLIENT_KEEPALIVE, Given(out.response).value, out.effect)
  {
    var own := View(db, p.tenant);
    assert KeyPair(env);
    hide View, StoredRows, Installed, ValidEnv, KeepsStep, Clients.Decide, BothSides, AnswerFits, KeyPair, Clients.Committed, CleanPeer;
    ClientsKeepStep(config, db, p, op, env);
    ClientDecisionFits(config, own, p, op, env);
    CommittedFits(config, db, p, Clients.Decide(config, own, p, op, env), env);
  }

  lemma ClientDecisionFits(config: Config, own: Db, p: Principal, op: Clients.ClientOp, env: Env)
    requires Installed(config) && KeyPair(env)
    ensures AnswerFits(config, env, Clients.Decide(config, own, p, op, env))
  {
    hide Installed, KeyPair, Clients.EnrollDecision, Clients.BootstrapDecision, AnswerFits, Clients.OwnChanges;
    if op.EnrollVpn? {
      EnrollmentFits(config, own, p, op.deviceName, env);
    } else {
      BootstrapFits(config, own, p, op, env);
    }
  }

  // ---- peers created by an administrator

  lemma CreatedFits(config: Config, own: Db, p: Principal, op: Vpn.VpnOp, env: Env)
    requires op.CreatePeer? && Installed(config) && KeyPair(env)
    ensures var d := Vpn.Create(config, own, p, op, env);
            Given(d.response).Some? ==>
              d.saved.SavedPeer? && d.saved.peer.networkId == d.saved.networkId
              && PeerFits(config, env, d.saved.network, d.saved.peer, op.keepalive, Given(d.response).value)
  {
    var found := Vpn.TheNetwork(own, env);
    hide Installed, KeyPair, ClientSide, Vpn.ClientText, Clean, ClientConfig.FieldsCarried, Vpn.RoutesOr, Routes.AddressBelongs;
    hide X25519.ValidateKey, Vpn.PeerTaken, Vpn.OwnSaved, Vpn.TheNetwork;
    if found.Some? {
      var n := own.networks[found.value].data;
      var address, routes := Routes.AddressBelongs(n.addressCidr, op.address), Vpn.RoutesOr(n, op.allowedIps);
      if address.Ok? && routes.Ok? {
        AcceptedAddressIsClean(n.addressCidr, op.address);
        RoutesOrIsClean(n, op.allowedIps);
        ClientTextReads(config, n, env, address.value, routes.value);
      }
    }
  }

  lemma OthersGiveNothing(config: Config, own: Db, p: Principal, op: Vpn.VpnOp, env: Env)
    requires !op.CreatePeer?
    ensures Given(Vpn.Decide(config, own, p, op, env).response).None?
  {
    hide IPv4.Parse, IPv4.Print, Strip, Routes.NormalizeAllowedIps, Vpn.OwnSaved, Vpn.TheNetwork;
  }

  /** The answer of the decision is given only once its configuration is up. */
  lemma VpnCommittedIsUp(config: Config, db: Db, p: Principal, d: Vpn.Decided, env: Env)
    requires !d.saved.Nothing? && Installed(config)
    ensures var out := Vpn.Committed(config, db, p, d, env);
            out.response == d.response && Given(d.response).Some? ==> out.effect.Up? && out.db == Vpn.Apply(db, p, d.saved, env.now)
  {
    KeyIsNotEmpty(config);
    hide Vpn.Apply, Own, ServerConfig.Render, Vpn.PeersIn;
  }

  lemma VpnRefusedOrDecided(config: Config, db: Db, p: Principal, d: Vpn.Decided, env: Env)
    ensures var out := Vpn.Committed(config, db, p, d, env); out.response == d.response || out.response.Refused?
  {
    hide Vpn.Apply, Own, Vpn.SyncSaved;
  }

  lemma CreatedCommitFits(config: Config, db: Db, p: Principal, d: Vpn.Decided, keepalive: int, env: Env)
    requires Installed(config) && KeyPair(env) && KeepsStep(config, p.tenant, db, Vpn.Committed(config, db, p, d, env))
    requires Given(d.response).Some? ==>
               && d.saved.SavedPeer? && d.saved.peer.networkId == d.saved.networkId
               && Has(db.networks, p.tenant, d.saved.networkId) && d.saved.network == db.networks[d.saved.networkId].data
               && PeerFits(config, env, d.saved.network, d.saved.peer, keepalive, Given(d.response).value)
    ensures var out := Vpn.Committed(config, db, p, d, env);
            Given(out.response).Some? ==>
              BothSides(config, out.db, p.tenant, env, keepalive, Given(out.response).value, out.effect)
  {
    hide Vpn.Committed, Vpn.Apply, Installed, KeepsStep, PeerFits, BothSides, KeyPair, Given;
    var out := Vpn.Committed(config, db, p, d, env);
    VpnRefusedOrDecided(config, db, p, d, env);
    RefusalGivesNothing();
    if Given(out.response).Some? {
      VpnCommittedIsUp(config, db, p, d, env);
      SavedPeerIsStored(db, p, d.saved, env.now);
      StoredPeerFits(config, p.tenant, db, out, d.saved.networkId, d.saved.id, d.saved.peer, env, keepalive);
    }
  }

  lemma SavedPeerIsStored(db: Db, p: Principal, saved: Vpn.Saved, now: Time)
    requires saved.SavedPeer?
    ensures var next := Vpn.Apply(db, p, saved, now);
            next.networks == db.networks && saved.id in next.peers && next.peers[saved.id].data == saved.peer
  {
  }

  lemma CreatedPeersFit(config: Config, db: Db, p: Principal, op: Vpn.VpnOp, env: Env)
    requires Installed(config) && StoredRows(db.networks, db.peers) && Admissible(config, db, Step(Call(p, OfVpn(op)), env))
    ensures var out := Vpn.Exec(config, db, p, op, env);
            Given(out.response).Some? ==>
              op.CreatePeer? && BothSides(config, out.db, p.tenant, env, op.keepalive, Given(out.response).value, out.effect)
  {
    var own := View(db, p.tenant);
    var d := Vpn.Decide(config, own, p, op, env);
    assert KeyPair(env);
    hide View, StoredRows, Installed, ValidEnv, KeepsStep, BothSides, KeyPair, Vpn.Committed, PeerFits, Vpn.Create, Given;
    VpnKeepsStep(config, db, p, op, env);
    VpnRefusedOrDecided(config, db, p, d, env);
    if op.CreatePeer? {
      CreatedFits(config, own, p, op, env);
      CreatedCommitFits(config, db, p, d, op.keepalive, env);
    } else {
      OthersGiveNothing(config, own, p, op, env);
      RefusalGivesNothing();
    }
  }

  // ---- every request

  lemma SupportGivesNothing(db: Db, p: Principal, op: Support.SupportOp, env: Env)
    ensures Given(Support.Exec(db, p, op, env).response).None?
  {
    hide View;
  }

  lemma FileServersGiveNothing(db: Db, p: Principal, op: FileServers.FileServerOp, env: Env)
    ensures Given(FileServers.Exec(db, p, op, env).response).None?
  {
    hide View, FileServers.HostOf, FileServers.Normalized, FileServers.NameTaken;
  }

  lemma DeploymentsGiveNothing(config: Config, db: Db, p: Principal, op: Deployments.DeploymentOp, env: Env)
    ensures Given(Deployments.Exec(config, db, p, op, env).response).None?
  {
    hide View, Deployments.Validate, Deployments.ProfileNameTaken, Deployments.Delivered;
  }

  lemma AccountsGiveNothing(config: Config, db: Db, p: Principal, op: Accounts.AccountOp, env: Env)
    ensures Given(Accounts.Exec(config, db, p, op, env).response).None?
  {
    hide View, Accounts.Grant, Accounts.WithSubject, Accounts.OtherAdministrator;
  }

  /** The keepalive of the peer behind a configuration: the one asked for, or the fixed one of clients. */
  function KeepaliveOf(call: Call): int {
    if call.Call? && call.op.OfVpn? && call.op.vpn.CreatePeer? then call.op.vpn.keepalive else CLIENT_KEEPALIVE
  }

  lemma OpFits(config: Config, db: Db, p: Principal, op: Op, env: Env)
    requires Installed(config) && StoredRows(db.networks, db.peers) && Admissible(config, db, Step(Call(p, op), env))
    ensures var out := ExecOp(config, db, p, op, env);
            Given(out.response).Some? ==>
              BothSides(config, out.db, p.tenant, env, KeepaliveOf(Call(p, op)), Given(out.response).value, out.effect)
  {
    hide Support.Exec, FileServers.Exec, Deployments.Exec, Accounts.Exec, Vpn.Exec, Clients.Exec, Given, BothSides;
    hide StoredRows, Installed, Admissible;
    match op {
      case OfSupport(o) => SupportGivesNothing(db, p, o, env);
      case OfFileServers(o) => FileServersGiveNothing(db, p, o, env);
      case OfDeployments(o) => DeploymentsGiveNothing(config, db, p, o, env);
      case OfAccounts(o) => AccountsGiveNothing(config, db, p, o, env);
      case OfVpn(o) => CreatedPeersFit(config, db, p, o, env);
      case OfClients(o) => ClientsFit(config, db, p, o, env);
    }
  }

  lemma RequestFits(config: Config, db: Db, step: Step)
    requires Installed(config) && StoredRows(db.networks, db.peers) && Admissible(config, db, step)
    ensures var out := Exec(config, db, step);
            Given(out.response).Some? ==>
              BothSides(config, out.db, TenantOf(step.call), step.env, KeepaliveOf(step.call), Given(out.response).value, out.effect)
  {
    hide ExecOp, View, Admissible, StoredRows, Installed, BothSides, KeepaliveOf;
    if step.call.Call? {
      OpFits(config, db, step.call.principal, step.call.op, step.env);
    }
  }

  /**
   * Whenever any request hands out a configuration, after any history of any tenants, the interface is up with the network
   * of the caller's tenant. The client's text, where its line format carries the endpoint and the DNS server, names the
   * server's public key and port and the routes of the stored peer; the running text, where the names of the network's peers
   * are quiet, has the private key, the port, and that peer with the client's public key and address.
   */
  lemma ClientFitsServer(config: Config, steps: seq<WorldStep>, step: Step)
    requires Installed(config) && ValidHistory(config, FRESH, steps)
    requires Admissible(config, History(config, FRESH, steps).db, step)
    ensures var out := Exec(config, History(config, FRESH, steps).db, step);
            Given(out.response).Some? ==>
              BothSides(config, out.db, TenantOf(step.call), step.env, KeepaliveOf(step.call), Given(out.response).value, out.effect)
  {
    ReachedIsInStep(config, steps);
    hide Installed, ValidHistory, History, RunsWith, StoredRows, Exec, BothSides, Admissible, Given, KeepaliveOf;
    RequestFits(config, History(config, FRESH, steps).db, step);
  }
}
