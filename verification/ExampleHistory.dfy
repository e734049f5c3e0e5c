/**
 * Histories from an empty installation in which a text is read differently from what is stored: setup, a network, and a
 * peer. They exist in every installation with a usable key.
 */
module ExampleHistory {
  import opened Wrappers
  import opened Rows
  import opened Tables
  import opened AcceptedPeers
  import opened ControlPlane
  import opened PeerNames
  import opened Runtime
  import opened ServerConfig
  import opened Text
  import Accounts
  import Administration
  import ClientConfig
  import Handshake
  import IPv4
  import Routes
  import Token
  import Vpn
  import X25519

  /** 10.8.0.1/24, 10.8.0.2 and 10.8.0.9. */
  const SERVER := IPv4.Cidr(0x0A08_0001, 24)
  const CLIENT := IPv4.Cidr(0x0A08_0002, 32)
  const OTHER := IPv4.Cidr(0x0A08_0009, 32)

  // ---- the requests

  /** What the n-th request draws; any valid key pair would do. */
  function EnvAt(config: Config, n: nat): Env
    requires Installed(config) && n < 3
  {
    var ids := ["a", "b", "c", "z"];
    Env(n, ids[n], "z", ids[..n] + [ids[n], "z"], Applied, config.wireguardKey, X25519.PublicKeyText(config.wireguardKey), "")
  }

  function Admin(c: Accounts.Credentials): Principal {
    Token.Principal(Strip(c.subject), Strip(c.tenant), {"tenant_admin"})
  }

  function NetworkOp(endpoint: string): Vpn.VpnOp {
    Vpn.ConfigureNetwork("vpn", IPv4.Print(SERVER), endpoint, 51820, None)
  }

  function PeerOp(name: string): Vpn.VpnOp {
    Vpn.CreatePeer(name, IPv4.Print(CLIENT), None, None, 25)
  }

  /** Setup, and a network with this endpoint. */
  function Opening(config: Config, c: Accounts.Credentials, displayName: string, endpoint: string): seq<WorldStep>
    requires Installed(config)
  {
    [Request(Step(SetUp(c, displayName), EnvAt(config, 0))), NetworkRequest(config, c, endpoint)]
  }

  function NetworkRequest(config: Config, c: Accounts.Credentials, endpoint: string): WorldStep
    requires Installed(config)
  {
    Request(Step(Call(Admin(c), OfVpn(NetworkOp(endpoint))), EnvAt(config, 1)))
  }

  // ---- the requests are possible

  ghost predicate OnlyIds(db: Db, ids: seq<Id>) {
    db.enrollments == map[] && forall id :: !FreshId(db, id) ==> id in ids
  }

  lemma EnvIsValid(config: Config, db: Db, n: nat)
    requires Installed(config) && n < 3 && OnlyIds(db, ["a", "b", "c", "z"][..n])
    ensures ValidEnv(config, db, EnvAt(config, n)) && KeyPair(EnvAt(config, n))
  {
    hide X25519.ValidateKey, X25519.PublicKeyText, FreshId;
    var ids, env := ["a", "b", "c", "z"], EnvAt(config, n);
    Letters(ids);
    assert forall i :: 0 <= i < n ==> env.order[i] == ids[i];
    assert env.order[n] == ids[n] && env.order[n + 1] == ids[3];
    forall id | !FreshId(db, id) ensures id in env.order && id != env.newId && id != env.newPeerId {
      assert id in ids[..n];
      var k :| 0 <= k < n && ids[..n][k] == id;
      assert env.order[k] == id;
    }
  }

  lemma Letters(ids: seq<Id>)
    requires ids == ["a", "b", "c", "z"]
    ensures forall i, j :: 0 <= i < j < 4 ==> ids[i] != ids[j]
  {
    assert ids[0][0] == 'a' && ids[1][0] == 'b' && ids[2][0] == 'c' && ids[3][0] == 'z';
  }

  function OpenedNetwork(endpoint: string): Network {
    Network("vpn", IPv4.Print(SERVER), Strip(endpoint), 51820, None, true, 1)
  }

  /** After setup and the network. */
  ghost predicate Opened(db: Db, tenant: string, endpoint: string) {
    && OnlyIds(db, ["a", "b"]) && db.peers == map[]
    && Has(db.networks, tenant, "b") && db.networks["b"].data == OpenedNetwork(endpoint)
  }

  lemma SetUpOpens(config: Config, c: Accounts.Credentials, displayName: string)
    requires Installed(config)
    ensures var db := Exec(config, EMPTY, Step(SetUp(c, displayName), EnvAt(config, 0))).db;
            OnlyIds(db, ["a"]) && db.networks == map[] && db.peers == map[]
  {
    Administration.AfterSetUp(config, c, displayName, EnvAt(config, 0));
    hide Exec;
  }

  lemma ServerParses()
    ensures IPv4.Parse(IPv4.Print(SERVER)) == Some(SERVER) && IPv4.Parse(IPv4.Print(CLIENT)) == Some(CLIENT)
  {
    IPv4.RoundTrip(SERVER);
    IPv4.RoundTrip(CLIENT);
  }

  lemma VpnIsStripped()
    ensures Strip("vpn") == "vpn"
  {
    StripStripped("vpn");
  }

  lemma NetworkOpens(config: Config, db: Db, c: Accounts.Credentials, endpoint: string)
    requires Installed(config) && StoredRows(db.networks, db.peers)
    requires OnlyIds(db, ["a"]) && db.networks == map[] && db.peers == map[]
    ensures var out := Vpn.Exec(config, db, Admin(c), NetworkOp(endpoint), EnvAt(config, 1));
            out.effect.Up? && Opened(out.db, Strip(c.tenant), endpoint)
  {
    assert ["a", "b", "c", "z"][..1] == ["a"];
    ServerParses();
    VpnIsStripped();
    EnvIsValid(config, db, 1);
    hide X25519.ValidateKey, X25519.PublicKeyText, IPv4.Parse, IPv4.Print, Strip, ValidEnv, Vpn.Exec, StoredRows, FreshId;
    ConfigureSucceeds(config, db, Admin(c), NetworkOp(endpoint), EnvAt(config, 1));
    var next := Vpn.Apply(db, Admin(c), Vpn.SavedNetwork("b", OpenedNetwork(endpoint)), 1);
    NetworkIds(db, next, Strip(c.tenant), OpenedNetwork(endpoint));
  }

  lemma NetworkIds(a: Db, b: Db, tenant: string, n: Network)
    requires OnlyIds(a, ["a"]) && a.peers == map[]
    requires b == a.(networks := Put(a.networks, tenant, "b", n), audit := b.audit)
    ensures OnlyIds(b, ["a", "b"]) && b.peers == map[] && Has(b.networks, tenant, "b") && b.networks["b"].data == n
  {
    forall id | !FreshId(b, id) ensures id in ["a", "b"] {
      if id != "b" {
        assert !FreshId(a, id);
      }
    }
    assert ["a", "b"][1] == "b" && ["a", "b"][0] == "a";
  }

  lemma FirstStep(config: Config, c: Accounts.Credentials, displayName: string, endpoint: string)
    requires Installed(config)
    ensures var e := Opening(config, c, displayName, endpoint)[0];
            var w := Next(config, FRESH, e);
            && ValidNext(config, EMPTY, e) && InStep(config, w)
            && OnlyIds(w.db, ["a"]) && w.db.networks == map[] && w.db.peers == map[]
  {
    hide Exec, ValidEnv, KeyPair, EnvAt, Installed, InStep, OnlyIds;
    var e := Opening(config, c, displayName, endpoint)[0];
    FreshIsInStep(config);
    NothingYet();
    EnvIsValid(config, EMPTY, 0);
    SetUpOpens(config, c, displayName);
    NextKeepsStep(config, FRESH, e);
  }

  lemma SecondStep(config: Config, w: World, c: Accounts.Credentials, endpoint: string)
    requires Installed(config) && InStep(config, w)
    requires OnlyIds(w.db, ["a"]) && w.db.networks == map[] && w.db.peers == map[]
    ensures var e := NetworkRequest(config, c, endpoint);
            var next := Next(config, w, e);
            && ValidNext(config, w.db, e) && InStep(config, next) && Opened(next.db, Strip(c.tenant), endpoint)
            && ValidEnv(config, next.db, EnvAt(config, 2)) && KeyPair(EnvAt(config, 2))
  {
    var e := NetworkRequest(config, c, endpoint);
    var next := Next(config, w, e);
    FirstIds();
    EnvIsValid(config, w.db, 1);
    NetworkStep(config, w, c, endpoint);
    hide ValidEnv, KeyPair, EnvAt, Installed, Next, OnlyIds, Admin, NetworkOp, InStep, Opened;
    NextKeepsStep(config, w, e);
    OpenedIds(next.db, Strip(c.tenant), endpoint);
    EnvIsValid(config, next.db, 2);
  }

  lemma FirstIds()
    ensures ["a", "b", "c", "z"][..1] == ["a"] && ["a", "b", "c", "z"][..2] == ["a", "b"]
  {
  }

  lemma OpenedIds(db: Db, tenant: string, endpoint: string)
    requires Opened(db, tenant, endpoint)
    ensures OnlyIds(db, ["a", "b"])
  {
    hide OnlyIds, OpenedNetwork;
  }

  lemma NetworkStep(config: Config, w: World, c: Accounts.Credentials, endpoint: string)
    requires Installed(config) && InStep(config, w)
    requires OnlyIds(w.db, ["a"]) && w.db.networks == map[] && w.db.peers == map[]
    ensures Opened(Next(config, w, NetworkRequest(config, c, endpoint)).db, Strip(c.tenant), endpoint)
  {
    hide Vpn.Exec, EnvAt, Installed, StoredRows, RunsWith, Next, OnlyIds, Admin, NetworkOp, Opened;
    NetworkOpens(config, w.db, c, endpoint);
    NextOfVpn(config, w, Admin(c), NetworkOp(endpoint), EnvAt(config, 1));
  }

  /** Both requests are possible one after the other, and lead to the network. */
  lemma OpeningOpens(config: Config, c: Accounts.Credentials, displayName: string, endpoint: string)
    requires Installed(config)
    ensures var steps := Opening(config, c, displayName, endpoint);
            var w := History(config, FRESH, steps);
            && ValidHistory(config, FRESH, steps) && StoredRows(w.db.networks, w.db.peers)
            && Opened(w.db, Strip(c.tenant), endpoint)
            && ValidEnv(config, w.db, EnvAt(config, 2)) && KeyPair(EnvAt(config, 2))
  {
    var steps := Opening(config, c, displayName, endpoint);
    assert steps == [steps[0], steps[1]];
    hide Next, ValidNext, ValidEnv, KeyPair, EnvAt, Opening, Installed, Opened, OnlyIds, StoredRows, RunsWith;
    FirstStep(config, c, displayName, endpoint);
    SecondStep(config, Next(config, FRESH, steps[0]), c, endpoint);
    TwoSteps(config, FRESH, steps[0], steps[1]);
  }

  lemma NothingYet()
    ensures OnlyIds(EMPTY, ["a", "b", "c", "z"][..0])
  {
  }

  lemma TwoSteps(config: Config, w: World, first: WorldStep, second: WorldStep)
    requires ValidNext(config, w.db, first) && ValidNext(config, Next(config, w, first).db, second)
    ensures ValidHistory(config, w, [first, second])
    ensures History(config, w, [first, second]) == Next(config, Next(config, w, first), second)
  {
    hide Next, ValidNext;
    var w1 := Next(config, w, first);
    var w2 := Next(config, w1, second);
    assert [first, second][1..] == [second] && [second][1..] == [];
    assert ValidHistory(config, w2, []) && History(config, w2, []) == w2;
    assert ValidHistory(config, w1, [second]) && History(config, w1, [second]) == w2;
  }

  // ---- the peer

  lemma SameBlock()
    ensures Routes.AddressBelongs(IPv4.Print(SERVER), IPv4.Print(CLIENT)).Ok?
  {
    ServerParses();
    assert IPv4.BlockSize(24) == 256 by {
      assert IPv4.Power(8) == 2 * (2 * (2 * (2 * (2 * (2 * (2 * (2 * IPv4.Power(0)))))))) == 256;
    }
    hide IPv4.Parse, IPv4.Print;
  }

  lemma PeerIsPossible(config: Config, db: Db, c: Accounts.Credentials, endpoint: string, name: string)
    requires Opened(db, Strip(c.tenant), endpoint)
    ensures FirstPeer(db, Admin(c), PeerOp(name), "b")
  {
    SameBlock();
    ServerParses();
    hide IPv4.Parse, IPv4.Print, Routes.AddressBelongs, Routes.NormalizeAllowedIps, OnlyIds, Strip;
    Routes.PrintedIsAccepted(IPv4.Network(SERVER));
  }

  /** A name that adds a peer, within the length that a request may have. */
  function LoudName(config: Config): string
    requires Installed(config)
  {
    TwoPeerName("a", X25519.PublicKeyText(config.wireguardKey), IPv4.Print(OTHER), "b")
  }

  lemma LoudNameFits(config: Config)
    requires Installed(config)
    ensures |LoudName(config)| <= 128 && Strip(LoudName(config)) == LoudName(config)
    ensures Clean(X25519.PublicKeyText(config.wireguardKey)) && Clean(IPv4.Print(OTHER))
  {
    hide X25519.ValidateKey, X25519.PublicKeyText, IPv4.Print, Clean;
    X25519.DerivedKeyIsValid(config.wireguardKey);
    ValidKeyIsClean(X25519.PublicKeyText(config.wireguardKey));
    PrintedIsClean(OTHER);
    IPv4.PrintedText(OTHER);
    var name := LoudName(config);
    assert name[0] == 'a' && name[|name| - 1] == 'b';
    StripStripped(name);
  }

  /**
   * Setup, a network and a peer: the interface then runs with a peer that is no row, although every request was accepted
   * and every field has a length that requests may have.
   */
  lemma LoudHistory(config: Config, c: Accounts.Credentials, displayName: string)
    requires Installed(config)
    ensures var steps := Opening(config, c, displayName, "vpn");
            var step := Step(Call(Admin(c), OfVpn(PeerOp(LoudName(config)))), EnvAt(config, 2));
            var w := History(config, FRESH, steps);
            var next := Next(config, w, Request(step));
            && |LoudName(config)| <= 128
            && ValidHistory(config, FRESH, steps) && Admissible(config, w.db, step)
            && PeersOf(next.db.peers, "b").Keys == {"c"} && "b" in next.db.networks && next.running.Some?
            && !Agrees(config, next.db.networks["b"].data, PeersOf(next.db.peers, "b"), next.running.value)
  {
    var steps, env := Opening(config, c, displayName, "vpn"), EnvAt(config, 2);
    var w := History(config, FRESH, steps);
    ThirdEnv(config);
    hide ValidHistory, History, Next, Installed, ValidEnv, KeyPair, Opened, StoredRows, LoudRequest, Agrees, PeersOf;
    hide X25519.PublicKeyText, X25519.ValidateKey, Opening, EnvAt, LoudName, Admin, PeerOp;
    OpeningOpens(config, c, displayName, "vpn");
    LoudPeerIsPossible(config, w.db, c);
    LoudNameFits(config);
    LoudRequestDisagrees(config, Admin(c), steps, PeerOp(LoudName(config)), env, "b",
                         "a", X25519.PublicKeyText(config.wireguardKey), IPv4.Print(OTHER), "b");
  }

  lemma LoudPeerIsPossible(config: Config, db: Db, c: Accounts.Credentials)
    requires Installed(config) && Opened(db, Strip(c.tenant), "vpn")
    ensures LoudRequest(db, Admin(c), PeerOp(LoudName(config)), "b",
                        "a", X25519.PublicKeyText(config.wireguardKey), IPv4.Print(OTHER), "b")
  {
    PeerIsPossible(config, db, c, "vpn", LoudName(config));
    LoudNameFits(config);
    hide FirstPeer, Clean, Strip, TwoPeerName, X25519.PublicKeyText, X25519.ValidateKey, IPv4.Print, Opened;
  }

  // ---- an endpoint that no line carries

  /** The configuration in the answer is read with the endpoint cut short, and nothing else is changed. */
  ghost predicate CutAnswer(config: Config, answer: Response)
    requires Installed(config)
  {
    && answer.PeerRead? && answer.clientConfig.Some?
    && ReadSections(Lines(answer.clientConfig.value), [])
       == [ClientConfig.InterfaceSection(OpenedNetwork("vpn#a"), config.wireguardKey, answer.peer.address),
           ClientConfig.CarriedSection(X25519.PublicKeyText(config.wireguardKey), "vpn", answer.peer.allowedIps)]
    && ClientConfig.Endpoint(OpenedNetwork("vpn#a")) != "vpn"
  }

  /**
   * Setup, a network whose endpoint has a comment sign, and a peer: the configuration that is handed out is read with an
   * endpoint that is not the stored one and has no port.
   */
  lemma CutEndpointHistory(config: Config, c: Accounts.Credentials, displayName: string)
    requires Installed(config)
    ensures var steps := Opening(config, c, displayName, "vpn#a");
            var step := Step(Call(Admin(c), OfVpn(PeerOp("laptop"))), EnvAt(config, 2));
            var db := History(config, FRESH, steps).db;
            && ValidHistory(config, FRESH, steps) && Admissible(config, db, step)
            && Has(db.networks, Strip(c.tenant), "b") && db.networks["b"].data == OpenedNetwork("vpn#a")
            && CutAnswer(config, Exec(config, db, step).response)
  {
    var db := History(config, FRESH, Opening(config, c, displayName, "vpn#a")).db;
    var env := EnvAt(config, 2);
    ThirdEnv(config);
    hide ValidHistory, History, Installed, ValidEnv, KeyPair, StoredRows, Exec, Opening, EnvAt, CutAnswer, OpenedNetwork, OnlyIds;
    hide Vpn.Exec, Admin, PeerOp;
    OpeningOpens(config, c, displayName, "vpn#a");
    LaptopIsCut(config, db, c, env);
    ExecOfVpn(config, db, Admin(c), PeerOp("laptop"), env);
  }

  lemma ThirdEnv(config: Config)
    requires Installed(config)
    ensures var env := EnvAt(config, 2); env.newId == "c" && env.apply == Applied && env.privateKey == config.wireguardKey
  {
  }

  lemma ExecOfVpn(config: Config, db: Db, p: Principal, op: Vpn.VpnOp, env: Env)
    ensures Exec(config, db, Step(Call(p, OfVpn(op)), env)) == Vpn.Exec(config, db, p, op, env)
  {
    hide Vpn.Exec;
  }

  lemma LaptopIsCut(config: Config, db: Db, c: Accounts.Credentials, env: Env)
    requires Installed(config) && StoredRows(db.networks, db.peers) && Opened(db, Strip(c.tenant), "vpn#a")
    requires ValidEnv(config, db, env) && KeyPair(env) && env.apply == Applied && env.privateKey == config.wireguardKey
    ensures CutAnswer(config, Vpn.Exec(config, db, Admin(c), PeerOp("laptop"), env).response)
  {
    PeerIsPossible(config, db, c, "vpn#a", "laptop");
    assert db.networks["b"].data == OpenedNetwork("vpn#a");
    hide Installed, ValidEnv, KeyPair, StoredRows, Vpn.Exec, FirstPeer, CreatedPeer, Opened, OpenedNetwork, Admin, PeerOp;
    CreateSucceeds(config, db, Admin(c), PeerOp("laptop"), env, "b");
    CreatedFieldsAreClean(db, Admin(c), PeerOp("laptop"), "b", env);
    var x := CreatedPeer(db, PeerOp("laptop"), "b", env);
    hide Clean, Vpn.ClientText, Vpn.Apply, RunsWith, ClientConfig.InterfaceSection, ClientConfig.CarriedSection, ClientConfig.Endpoint;
    HandedTextIsCut(config, x.address, x.allowedIps);
  }

  lemma CreatedFieldsAreClean(db: Db, p: Principal, op: Vpn.VpnOp, id: Id, env: Env)
    requires FirstPeer(db, p, op, id)
    ensures var x := CreatedPeer(db, op, id, env); Clean(x.address) && Clean(x.allowedIps)
  {
    hide Clean, Routes.AddressBelongs, Vpn.RoutesOr;
    AcceptedAddressIsClean(db.networks[id].data.addressCidr, op.address);
    Handshake.RoutesOrIsClean(db.networks[id].data, op.allowedIps);
  }

  lemma HandedTextIsCut(config: Config, address: string, routes: string)
    requires Installed(config) && Clean(address) && Clean(routes)
    ensures var n, key := OpenedNetwork("vpn#a"), config.wireguardKey;
            var text := Vpn.ClientText(config, n, key, address, routes);
            && text.Some? && ClientConfig.Endpoint(n) != "vpn"
            && ReadSections(Lines(text.value), [])
               == [ClientConfig.InterfaceSection(n, key, address),
                   ClientConfig.CarriedSection(X25519.PublicKeyText(key), "vpn", routes)]
  {
    var n, key := OpenedNetwork("vpn#a"), config.wireguardKey;
    CutNetwork();
    ValidKeyIsClean(key);
    hide X25519.ValidateKey, X25519.PublicKeyText, Clean, OpenedNetwork, Vpn.ClientText, ClientConfig.RenderClient;
    hide ClientConfig.ClientRoutes, ClientConfig.InterfaceSection, ClientConfig.CarriedSection, ClientConfig.Endpoint;
    X25519.DerivedKeyIsValid(key);
    var serverKey := X25519.PublicKeyText(key);
    ValidKeyIsClean(serverKey);
    NotEmpty(routes);
    GivenRoutesRender(config, n, key, address, routes);
    ClientConfig.CutEndpointReads(n, key, address, serverKey, Some(routes), "vpn", "a");
  }

  lemma NotEmpty(routes: string)
    requires Clean(routes)
    ensures routes != ""
  {
  }

  lemma CutNetwork()
    ensures var n := OpenedNetwork("vpn#a"); n.endpoint == "vpn" + "#" + "a" && n.dns.None? && Clean("vpn")
  {
    StripStripped("vpn#a");
  }

  lemma GivenRoutesRender(config: Config, n: Network, privateKey: string, address: string, routes: string)
    requires Installed(config) && routes != ""
    ensures ClientConfig.ClientRoutes(n, Some(routes)) == Ok(routes)
    ensures var text := ClientConfig.RenderClient(n, privateKey, address, X25519.PublicKeyText(config.wireguardKey), Some(routes));
            text.Ok? && Vpn.ClientText(config, n, privateKey, address, routes) == Some(text.value)
  {
    hide ClientConfig.ClientLines, X25519.PublicKeyText;
  }
}
