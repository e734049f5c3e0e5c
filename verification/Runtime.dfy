/**
 * The running interface agrees with the database: in an installation with a usable key and applying switched on, reading
 * the last applied text gives the stored interface of one tenant and exactly its enabled peers.
 */
module Runtime {
  import opened Wrappers
  import opened Rows
  import opened Tables
  import opened ControlPlane
  import opened PeerNames
  import opened ServerConfig
  import opened Text
  import Accounts
  import Clients
  import Deployments
  import FileServers
  import IPv4
  import Routes
  import Support
  import Vpn
  import X25519

  // ---- restart

  /** The most recently updated network, of whatever tenant. */
  function LatestNetwork(order: seq<Id>, networks: Table<Network>): (id: Option<Id>)
    ensures id.Some? ==> id.value in networks
    ensures id.None? ==> forall x :: x in order ==> x !in networks
  {
    if order == [] then None
    else
      var later := LatestNetwork(order[1..], networks);
      if order[0] in networks && (later.None? || networks[later.value].data.updatedAt <= networks[order[0]].data.updatedAt)
      then Some(order[0]) else later
  }

  /** No stored network was updated after the chosen one. */
  lemma {:induction false} LatestIsLatest(order: seq<Id>, networks: Table<Network>, k: Id)
    requires k in order && k in networks
    ensures var id := LatestNetwork(order, networks);
            id.Some? && networks[k].data.updatedAt <= networks[id.value].data.updatedAt
  {
    if k == order[0] {
    } else {
      LatestIsLatest(order[1..], networks, k);
    }
  }

  /** What a restart does to the interface; every failure stops the start. */
  function Restore(config: Config, db: Db, env: Env): Effect {
    var id := LatestNetwork(env.order, db.networks);
    if config.wireguardKey == "" || id.None? then Unchanged
    else Vpn.SyncVpn(config, id.value, db.networks[id.value].data, db.peers, env).effect
  }

  /** The start-up step as written. */
  method RestoreWireguard(config: Config, db: Db, env: Env) returns (effect: Effect)
    ensures effect == Restore(config, db, env)
  {
    hide ServerConfig.Render, Vpn.ApplyConfig;
    effect := Unchanged;
    if config.wireguardKey == "" {
      return;
    }
    var id := LatestNetwork(env.order, db.networks);
    if id.None? {
      return;
    }
    var peers := Vpn.PeersIn(env.order, db.peers, id.value);
    var text := ServerConfig.RenderServerConfig(db.networks[id.value].data, peers, config.wireguardKey);
    if text.Ok? {
      var sync := Vpn.ApplyToInterface(config, text.value, env);
      effect := sync.effect;
    }
  }

  // ---- the installation

  /** The database and the text that the interface runs with, if it is up. */
  datatype World = World(db: Db, running: Option<string>)

  datatype WorldStep = Request(step: Step) | Restart(env: Env)

  function After(running: Option<string>, effect: Effect): Option<string> {
    match effect
    case Unchanged => running
    case Up(text) => Some(text)
    case Down => None
  }

  /** A restart begins with the interface gone. */
  function Next(config: Config, w: World, e: WorldStep): World {
    match e
    case Request(step) => var out := Exec(config, w.db, step); World(out.db, After(w.running, out.effect))
    case Restart(env) => World(w.db, After(None, Restore(config, w.db, env)))
  }

  function History(config: Config, w: World, steps: seq<WorldStep>): World
    decreases |steps|
  {
    if steps == [] then w else History(config, Next(config, w, steps[0]), steps[1..])
  }

  // ---- what agreement means

  function ReadingOf(x: Peer): PeerReading {
    PeerReading(x.publicKey, x.address, x.keepalive)
  }

  ghost predicate ListedAs(readings: seq<PeerReading>, peers: Table<Peer>, ids: seq<Id>) {
    && (forall i, j :: 0 <= i < j < |ids| ==> ids[i] != ids[j])
    && (forall id :: id in ids <==> id in peers && peers[id].data.enabled)
    && |readings| == |ids| && forall i :: 0 <= i < |ids| ==> ids[i] in peers && readings[i] == ReadingOf(peers[ids[i]].data)
  }

  /** The readings are those of exactly the enabled peers, one each, in some order. */
  ghost predicate ListsEnabled(readings: seq<PeerReading>, peers: Table<Peer>) {
    exists ids :: ListedAs(readings, peers, ids)
  }

  /** Read section by section, the text is the interface of the network with exactly the enabled peers. */
  ghost predicate Agrees(config: Config, n: Network, peers: Table<Peer>, text: string) {
    && Read(text).Some?
    && (var r := Read(text).value;
        && r.privateKey == config.wireguardKey && r.address == n.addressCidr && r.listenPort == n.listenPort
        && ListsEnabled(r.peers, peers))
  }

  /** The order lists every row once. */
  ghost predicate Lists(order: seq<Id>, rows: Table<Peer>) {
    (forall i, j :: 0 <= i < j < |order| ==> order[i] != order[j]) && (forall id :: id in rows ==> id in order)
  }

  /** The peers of one network. */
  function PeersOf(peers: Table<Peer>, networkId: Id): Table<Peer> {
    map id | id in peers && peers[id].data.networkId == networkId :: peers[id]
  }

  ghost predicate AppliedFrom(config: Config, networks: Table<Network>, peers: Table<Peer>, id: Id, order: seq<Id>, text: string) {
    id in networks && Lists(order, peers) && Render(networks[id].data, Vpn.PeersIn(order, peers, id), config.wireguardKey) == Ok(text)
  }

  /** The text is rendered from the stored network and its peers, in some row order. */
  ghost predicate RunsWith(config: Config, networks: Table<Network>, peers: Table<Peer>, id: Id, text: string) {
    exists order :: AppliedFrom(config, networks, peers, id, order, text)
  }

  /** The text reads as the section of the network and one section for each of its enabled peers, and nothing else. */
  ghost predicate ReadsExactly(config: Config, networks: Table<Network>, peers: Table<Peer>, id: Id, text: string) {
    exists order :: AppliedFrom(config, networks, peers, id, order, text) && IPv4.Parse(networks[id].data.addressCidr).Some?
      && ReadSections(Lines(text), []) == Sections(networks[id].data, Vpn.PeersIn(order, peers, id), config.wireguardKey)
  }

  /** No enabled peer has a name whose later lines would be read as headings or entries. */
  ghost predicate AllQuiet(peers: Table<Peer>) {
    forall id :: id in peers && peers[id].data.enabled ==> QuietName(peers[id].data.name)
  }

  /**
   * What the running text says of a network: exactly its stored rows if and only if the names of its peers are quiet,
   * and then it agrees with them.
   */
  ghost predicate TextAgrees(config: Config, networks: Table<Network>, peers: Table<Peer>, id: Id, text: string) {
    && id in networks
    && (ReadsExactly(config, networks, peers, id, text) <==> AllQuiet(PeersOf(peers, id)))
    && (AllQuiet(PeersOf(peers, id)) ==> Agrees(config, networks[id].data, PeersOf(peers, id), text))
  }

  // ---- stored rows

  ghost predicate CleanNetwork(n: Network) {
    IPv4.Parse(n.addressCidr).Some? && Clean(n.addressCidr)
  }

  ghost predicate CleanPeer(x: Peer) {
    Clean(x.publicKey) && Clean(x.address)
  }

  /** At most one network for each tenant, peers of their tenant's network only, and fields that the text format carries. */
  ghost predicate StoredRows(networks: Table<Network>, peers: Table<Peer>) {
    && (forall id :: id in networks ==> CleanNetwork(networks[id].data))
    && (forall i, j :: i in networks && j in networks && networks[i].tenant == networks[j].tenant ==> i == j)
    && (forall id :: id in peers ==> CleanPeer(peers[id].data) && Has(networks, peers[id].tenant, peers[id].data.networkId))
  }

  /** The text that the interface runs with is that of the current rows of some tenant's network. */
  ghost predicate InStep(config: Config, w: World) {
    && StoredRows(w.db.networks, w.db.peers)
    && (w.running.Some? ==> exists id :: RunsWith(config, w.db.networks, w.db.peers, id, w.running.value))
  }

  /** The installation: a usable key, and configurations are applied. */
  predicate Installed(config: Config) {
    X25519.ValidateKey(config.wireguardKey).Ok? && config.wireguardApply
  }

  /** Generated keys are what the key derivation gives. */
  ghost predicate KeyPair(env: Env) {
    X25519.ValidateKey(env.privateKey).Ok? && env.publicKey == X25519.PublicKeyText(env.privateKey)
  }

  ghost predicate Admissible(config: Config, db: Db, step: Step) {
    ValidEnv(config, db, step.env) && KeyPair(step.env)
  }

  ghost predicate ValidNext(config: Config, db: Db, e: WorldStep) {
    if e.Request? then Admissible(config, db, e.step) else ValidEnv(config, db, e.env)
  }

  ghost predicate ValidHistory(config: Config, w: World, steps: seq<WorldStep>)
    decreases |steps|
  {
    steps != [] ==> ValidNext(config, w.db, steps[0]) && ValidHistory(config, Next(config, w, steps[0]), steps[1..])
  }

  // ---- the applied text

  /** The enabled peers of a network, in the engine's row order. */
  function EnabledIn(order: seq<Id>, rows: Table<Peer>, networkId: Id): seq<Id> {
    if order == [] then []
    else
      var init, id := EnabledIn(order[..|order| - 1], rows, networkId), order[|order| - 1];
      if id in rows && rows[id].data.networkId == networkId && rows[id].data.enabled then init + [id] else init
  }

  lemma {:induction false} ReadingsOfPeers(order: seq<Id>, rows: Table<Peer>, networkId: Id)
    ensures var ids, readings := EnabledIn(order, rows, networkId), PeerReadings(Vpn.PeersIn(order, rows, networkId));
            |readings| == |ids| && forall i :: 0 <= i < |ids| ==> ids[i] in rows && readings[i] == ReadingOf(rows[ids[i]].data)
  {
    if order == [] {
    } else {
      var init, id := order[..|order| - 1], order[|order| - 1];
      ReadingsOfPeers(init, rows, networkId);
      if id in rows && rows[id].data.networkId == networkId {
        var before := Vpn.PeersIn(init, rows, networkId);
        assert (before + [rows[id].data])[..|before|] == before;
      }
    }
  }

  lemma {:induction false} EnabledInIsExact(order: seq<Id>, rows: Table<Peer>, networkId: Id)
    requires forall i, j :: 0 <= i < j < |order| ==> order[i] != order[j]
    ensures var ids := EnabledIn(order, rows, networkId);
            && (forall i, j :: 0 <= i < j < |ids| ==> ids[i] != ids[j])
            && (forall id :: id in ids <==> id in order && id in rows && rows[id].data.networkId == networkId && rows[id].data.enabled)
  {
    if order == [] {
    } else {
      var init, id := order[..|order| - 1], order[|order| - 1];
      EnabledInIsExact(init, rows, networkId);
      assert order == init + [id];
    }
  }

  lemma {:induction false} PeersInAreRows(order: seq<Id>, rows: Table<Peer>, networkId: Id)
    requires forall id :: id in rows ==> CleanPeer(rows[id].data)
    ensures CleanPeers(Vpn.PeersIn(order, rows, networkId))
  {
    hide Clean;
    if order == [] {
    } else {
      PeersInAreRows(order[..|order| - 1], rows, networkId);
    }
  }

  lemma ReadingsListEnabled(rows: Table<Peer>, order: seq<Id>, networkId: Id)
    requires Lists(order, rows)
    ensures ListsEnabled(PeerReadings(Vpn.PeersIn(order, rows, networkId)), PeersOf(rows, networkId))
  {
    hide ReadingOf;
    EnabledInIsExact(order, rows, networkId);
    ReadingsOfPeers(order, rows, networkId);
    ListedInOrder(PeerReadings(Vpn.PeersIn(order, rows, networkId)), rows, EnabledIn(order, rows, networkId), order, networkId);
  }

  lemma ListedInOrder(readings: seq<PeerReading>, rows: Table<Peer>, ids: seq<Id>, order: seq<Id>, networkId: Id)
    requires forall i, j :: 0 <= i < j < |ids| ==> ids[i] != ids[j]
    requires forall id :: id in ids <==> id in order && id in rows && rows[id].data.networkId == networkId && rows[id].data.enabled
    requires forall id :: id in rows ==> id in order
    requires |readings| == |ids| && forall i :: 0 <= i < |ids| ==> ids[i] in rows && readings[i] == ReadingOf(rows[ids[i]].data)
    ensures ListsEnabled(readings, PeersOf(rows, networkId))
  {
    hide ReadingOf;
    var peers := PeersOf(rows, networkId);
    forall i | 0 <= i < |ids| ensures ids[i] in peers && readings[i] == ReadingOf(peers[ids[i]].data) {
      assert ids[i] in ids;
    }
    assert ListedAs(readings, peers, ids);
  }

  lemma {:induction false} QuietIn(order: seq<Id>, rows: Table<Peer>, networkId: Id)
    ensures QuietNames(Vpn.PeersIn(order, rows, networkId)) <==>
              forall id :: id in order && id in rows && rows[id].data.networkId == networkId && rows[id].data.enabled ==>
                  QuietName(rows[id].data.name)
  {
    hide QuietName;
    if order == [] {
    } else {
      var init, id := order[..|order| - 1], order[|order| - 1];
      QuietIn(init, rows, networkId);
      assert order == init + [id];
      if id in rows && rows[id].data.networkId == networkId {
        QuietSnoc(Vpn.PeersIn(init, rows, networkId), rows[id].data);
      }
    }
  }

  lemma QuietSnoc(peers: seq<Peer>, x: Peer)
    ensures QuietNames(peers + [x]) <==> QuietNames(peers) && (x.enabled ==> QuietName(x.name))
  {
    hide QuietName;
    if QuietNames(peers + [x]) {
      assert (peers + [x])[|peers|] == x;
      forall i | 0 <= i < |peers| && peers[i].enabled ensures QuietName(peers[i].name) {
        assert (peers + [x])[i] == peers[i];
      }
    }
  }

  lemma QuietInOrder(rows: Table<Peer>, order: seq<Id>, id: Id)
    requires Lists(order, rows)
    ensures QuietNames(Vpn.PeersIn(order, rows, id)) <==> AllQuiet(PeersOf(rows, id))
  {
    QuietIn(order, rows, id);
    hide QuietName, QuietNames;
    assert forall k :: k in PeersOf(rows, id) <==> k in order && k in rows && rows[k].data.networkId == id;
  }

  /** The text rendered from stored rows reads as exactly these rows if and only if the names are quiet. */
  lemma AppliedReads(config: Config, networks: Table<Network>, rows: Table<Peer>, id: Id, order: seq<Id>, text: string)
    requires Installed(config) && StoredRows(networks, rows) && AppliedFrom(config, networks, rows, id, order, text)
    ensures var n, peers := networks[id].data, Vpn.PeersIn(order, rows, id);
            && IPv4.Parse(n.addressCidr).Some?
            && (ReadSections(Lines(text), []) == Sections(n, peers, config.wireguardKey) <==> AllQuiet(PeersOf(rows, id)))
            && (AllQuiet(PeersOf(rows, id)) ==> Agrees(config, n, PeersOf(rows, id), text))
  {
    hide StoredRows, ListsEnabled, Clean, CleanPeers, X25519.ValidateKey, IPv4.Parse, Render, Sections, QuietNames, AllQuiet, Lists;
    hide PeersOf, CleanPeer;
    var n, peers := networks[id].data, Vpn.PeersIn(order, rows, id);
    QuietInOrder(rows, order, id);
    ReadingsListEnabled(rows, order, id);
    RowsAreClean(networks, rows, id);
    PeersInAreRows(order, rows, id);
    RenderedSectionsIff(n, peers, config.wireguardKey);
    if AllQuiet(PeersOf(rows, id)) {
      RenderedConfigReads(n, peers, config.wireguardKey);
    }
  }

  lemma RowsAreClean(networks: Table<Network>, rows: Table<Peer>, id: Id)
    requires StoredRows(networks, rows) && id in networks
    ensures IPv4.Parse(networks[id].data.addressCidr).Some? && Clean(networks[id].data.addressCidr)
    ensures forall k :: k in rows ==> CleanPeer(rows[k].data)
  {
    hide IPv4.Parse, Clean, CleanPeer;
  }

  lemma RunningTextAgrees(config: Config, networks: Table<Network>, rows: Table<Peer>, id: Id, text: string)
    requires Installed(config) && StoredRows(networks, rows) && RunsWith(config, networks, rows, id, text)
    ensures TextAgrees(config, networks, rows, id, text)
  {
    hide StoredRows, Installed, AllQuiet, Agrees, Sections, IPv4.Parse, Lists, Render, PeersOf;
    var order :| AppliedFrom(config, networks, rows, id, order, text);
    AppliedReads(config, networks, rows, id, order, text);
    if ReadsExactly(config, networks, rows, id, text) {
      var order' :| AppliedFrom(config, networks, rows, id, order', text) && IPv4.Parse(networks[id].data.addressCidr).Some?
        && ReadSections(Lines(text), []) == Sections(networks[id].data, Vpn.PeersIn(order', rows, id), config.wireguardKey);
      AppliedReads(config, networks, rows, id, order', text);
    }
  }

  /** With a name that leaves its comment and adds a peer, the applied text does not agree with the network's one peer. */
  lemma LoudNameDisagrees(config: Config, networks: Table<Network>, rows: Table<Peer>, id: Id, text: string,
                          pid: Id, first: string, publicKey: string, address: string, last: string)
    requires Installed(config) && StoredRows(networks, rows) && RunsWith(config, networks, rows, id, text)
    requires PeersOf(rows, id).Keys == {pid} && rows[pid].data.enabled
    requires rows[pid].data.name == TwoPeerName(first, publicKey, address, last)
    requires Clean(publicKey) && Clean(address) && '\n' !in first && '\n' !in last
    ensures !Agrees(config, networks[id].data, PeersOf(rows, id), text)
  {
    var x := rows[pid].data;
    RowsAreClean(networks, rows, id);
    assert CleanPeer(x);
    hide StoredRows, Clean, TwoPeerName, X25519.ValidateKey, IPv4.Parse, ReadingOf;
    var order :| AppliedFrom(config, networks, rows, id, order, text);
    OnlyPeerIn(order, rows, id, pid);
    hide Lists;
    NameAddsPeer(networks[id].data, x, config.wireguardKey, first, publicKey, address, last);
    hide Render;
    TwoReadingsAreTwoRows(Read(text).value.peers, PeersOf(rows, id), pid);
  }

  lemma {:induction false} OnlyPeerIn(order: seq<Id>, rows: Table<Peer>, networkId: Id, pid: Id)
    requires PeersOf(rows, networkId).Keys == {pid}
    requires forall i, j :: 0 <= i < j < |order| ==> order[i] != order[j]
    ensures Vpn.PeersIn(order, rows, networkId) == if pid in order then [rows[pid].data] else []
  {
    if order == [] {
    } else {
      var init, id := order[..|order| - 1], order[|order| - 1];
      OnlyPeerIn(init, rows, networkId, pid);
      assert order == init + [id];
      assert id in PeersOf(rows, networkId).Keys <==> id == pid;
      assert id !in init;
    }
  }

  lemma TwoReadingsAreTwoRows(readings: seq<PeerReading>, rows: Table<Peer>, pid: Id)
    requires rows.Keys == {pid} && |readings| == 2
    ensures !ListsEnabled(readings, rows)
  {
    forall ids: seq<Id> | |ids| == 2 && ids[0] != ids[1] ensures ids[0] !in rows || ids[1] !in rows {
      assert ids[0] in rows.Keys ==> ids[0] == pid;
      assert ids[1] in rows.Keys ==> ids[1] == pid;
    }
    forall ids ensures !ListedAs(readings, rows, ids) {
      if |ids| == 2 {
        assert ids[0] in ids && ids[1] in ids;
      }
    }
  }

  /** The peers of a network are its tenant's. */
  lemma {:induction false} OwnPeersIn(networks: Table<Network>, rows: Table<Peer>, order: seq<Id>, id: Id)
    requires StoredRows(networks, rows) && id in networks
    ensures Vpn.PeersIn(order, Own(rows, networks[id].tenant), id) == Vpn.PeersIn(order, rows, id)
  {
    hide CleanPeer, CleanNetwork;
    if order == [] {
    } else {
      OwnPeersIn(networks, rows, order[..|order| - 1], id);
    }
  }

  /** Applying the configuration of stored rows either leaves the interface running with them, or fails. */
  lemma SyncAgrees(config: Config, networks: Table<Network>, rows: Table<Peer>, id: Id, env: Env)
    requires Installed(config) && StoredRows(networks, rows) && id in networks && Lists(env.order, rows)
    ensures var s := Vpn.SyncVpn(config, id, networks[id].data, Own(rows, networks[id].tenant), env);
            && s == Vpn.SyncVpn(config, id, networks[id].data, rows, env)
            && (s.Synced? <==> env.apply == Applied)
            && (s.Synced? ==> s.effect.Up? && RunsWith(config, networks, rows, id, s.effect.text))
            && (s.SyncFailed? ==> !s.effect.Up?)
  {
    var text := Render(networks[id].data, Vpn.PeersIn(env.order, rows, id), config.wireguardKey);
    KeyIsNotEmpty(config);
    OwnPeersIn(networks, rows, env.order, id);
    RowsAreClean(networks, rows, id);
    hide Own;
    assert text.Ok? by {
      hide IPv4.Parse, X25519.ValidateKey, StoredRows;
    }
    hide StoredRows, Render, Lists;
    assert AppliedFrom(config, networks, rows, id, env.order, text.value);
  }

  lemma KeyIsNotEmpty(config: Config)
    requires Installed(config)
    ensures config.wireguardKey != "" && config.wireguardApply
  {
    ValidKeyIsClean(config.wireguardKey);
  }

  // ---- requests

  lemma PrintedIsClean(c: IPv4.Cidr)
    requires IPv4.ValidCidr(c)
    ensures Clean(IPv4.Print(c)) && IPv4.Parse(IPv4.Print(c)).Some?
  {
    IPv4.PrintedText(c);
    IPv4.RoundTrip(c);
  }

  lemma AcceptedAddressIsClean(cidr: string, address: string)
    requires Routes.AddressBelongs(cidr, address).Ok?
    ensures Clean(Routes.AddressBelongs(cidr, address).value)
  {
    PrintedIsClean(IPv4.Parse(address).value);
  }

  lemma GeneratedKeyIsClean(env: Env)
    requires KeyPair(env)
    ensures Clean(env.publicKey)
  {
    hide X25519.PublicKeyText, X25519.ValidateKey, Clean;
    X25519.DerivedKeyIsValid(env.privateKey);
    ValidKeyIsClean(env.publicKey);
  }

  lemma ConfiguredNetworkIsClean(own: Db, p: Principal, op: Vpn.VpnOp, env: Env)
    requires op.ConfigureNetwork?
    ensures var saved := Vpn.Configure(own, p, op, env).saved; saved.SavedNetwork? ==> CleanNetwork(saved.network)
  {
    var interface := IPv4.Parse(op.addressCidr);
    hide IPv4.Parse, IPv4.Print, Clean, Strip;
    if interface.Some? {
      PrintedIsClean(interface.value);
    }
  }

  lemma CreatedPeerIsClean(config: Config, own: Db, p: Principal, op: Vpn.VpnOp, env: Env)
    requires op.CreatePeer? && KeyPair(env)
    ensures var saved := Vpn.Create(config, own, p, op, env).saved;
            saved.SavedPeer? ==> CleanPeer(saved.peer) && saved.peer.networkId in own.networks
  {
    hide Clean, X25519.ValidateKey, Routes.AddressBelongs, Vpn.RoutesOr, Vpn.PeerTaken, Vpn.ClientText, KeyPair, Vpn.OwnSaved, Strip;
    hide Vpn.TheNetwork;
    var saved := Vpn.Create(config, own, p, op, env).saved;
    GeneratedKeyIsClean(env);
    if saved.SavedPeer? {
      AcceptedAddressIsClean(own.networks[Vpn.TheNetwork(own, env).value].data.addressCidr, op.address);
      if op.publicKey.Some? && op.publicKey.value != "" {
        X25519.ValidKeyIsUnchanged(op.publicKey.value);
        ValidKeyIsClean(op.publicKey.value);
      }
    }
  }

  lemma ChangedPeer(config: Config, own: Db, p: Principal, op: Vpn.VpnOp, env: Env)
    requires op.UpdateRoutes? || op.RevokePeer?
    ensures var saved := Vpn.Decide(config, own, p, op, env).saved;
            && (saved.SavedPeer? || saved.Nothing?)
            && (saved.SavedPeer? ==>
                  && saved.id in own.peers
                  && (var was := own.peers[saved.id].data;
                      saved.peer.publicKey == was.publicKey && saved.peer.address == was.address && saved.peer.name == was.name
                      && saved.peer.networkId == was.networkId))
  {
    hide Routes.NormalizeAllowedIps, Vpn.OwnSaved;
  }

  /** A peer that is saved is clean, and of a stored network. */
  lemma SavedPeerIsClean(config: Config, own: Db, p: Principal, op: Vpn.VpnOp, env: Env)
    requires KeyPair(env)
    requires forall id :: id in own.peers ==> CleanPeer(own.peers[id].data) && own.peers[id].data.networkId in own.networks
    ensures var saved := Vpn.Decide(config, own, p, op, env).saved;
            saved.SavedPeer? ==> CleanPeer(saved.peer) && saved.peer.networkId in own.networks
  {
    hide Clean, Vpn.Create, KeyPair, Vpn.Configure;
    match op {
      case ConfigureNetwork(_, _, _, _, _) => ConfigureSavesNoPeer(own, p, op, env);
      case CreatePeer(_, _, _, _, _) => CreatedPeerIsClean(config, own, p, op, env);
      case UpdateRoutes(_, _) => ChangedPeer(config, own, p, op, env);
      case RevokePeer(_) => ChangedPeer(config, own, p, op, env);
    }
  }

  lemma ConfigureSavesNoPeer(own: Db, p: Principal, op: Vpn.VpnOp, env: Env)
    requires op.ConfigureNetwork?
    ensures !Vpn.Configure(own, p, op, env).saved.SavedPeer?
  {
    hide IPv4.Parse, Strip;
  }

  lemma SavedNetworkIsClean(config: Config, own: Db, p: Principal, op: Vpn.VpnOp, env: Env)
    ensures var saved := Vpn.Decide(config, own, p, op, env).saved; saved.SavedNetwork? ==> CleanNetwork(saved.network)
  {
    hide CleanNetwork, Vpn.Create, Vpn.Configure;
    match op {
      case ConfigureNetwork(_, _, _, _, _) => ConfiguredNetworkIsClean(own, p, op, env);
      case CreatePeer(_, _, _, _, _) => CreateSavesNoNetwork(config, own, p, op, env);
      case UpdateRoutes(_, _) => ChangedPeer(config, own, p, op, env);
      case RevokePeer(_) => ChangedPeer(config, own, p, op, env);
    }
  }

  lemma CreateSavesNoNetwork(config: Config, own: Db, p: Principal, op: Vpn.VpnOp, env: Env)
    requires op.CreatePeer?
    ensures !Vpn.Create(config, own, p, op, env).saved.SavedNetwork?
  {
    hide Vpn.RoutesOr, Routes.AddressBelongs, Vpn.ChosenKey, Vpn.PeerTaken, Vpn.ClientText;
  }

  lemma IssuedPeerIsClean(config: Config, own: Db, networkId: Id, subject: string, deviceName: string, cidr: string, given: string,
                          routes: string, env: Env)
    requires KeyPair(env) && networkId in own.networks
    requires Routes.AddressBelongs(cidr, given).Ok?
    ensures var x := Clients.ClientPeer(own, networkId, subject, deviceName, Routes.AddressBelongs(cidr, given).value, routes, env).peer;
            CleanPeer(x) && x.networkId == networkId
  {
    hide Clean, Routes.AddressBelongs, KeyPair;
    GeneratedKeyIsClean(env);
    AcceptedAddressIsClean(cidr, given);
  }

  lemma BootstrapPeerIsClean(config: Config, own: Db, user: User, deviceName: string, profile: Option<Profile>, login: bool, env: Env)
    requires KeyPair(env)
    ensures var r := Clients.BootstrapPeer(config, own, user, deviceName, profile, login, env);
            r.Some? && r.value.Issued? ==> CleanChange(own, r.value.change)
  {
    hide Clean, CleanPeer, Clients.ClientPeer, Clients.KeyTaken, Vpn.ClientText, Routes.NormalizeAllowedIps, Vpn.RoutesOr, KeyPair;
    hide Routes.AddressBelongs, Clients.WantsVpn;
    var found := Vpn.TheNetwork(own, env);
    var r := Clients.BootstrapPeer(config, own, user, deviceName, profile, login, env);
    if r.Some? && r.value.Issued? {
      var network := own.networks[found.value].data;
      var given := if user.vpnAddress.Some? then user.vpnAddress.value else "";
      var policy := Clients.PeerPolicy(network, user, profile).value;
      IssuedPeerIsClean(config, own, found.value, user.subject, deviceName, network.addressCidr, given, policy.1, env);
      ChangeNamesNetwork(own, found.value, user.subject, deviceName, policy.0, policy.1, env);
    }
  }

  /** The peer is clean, in a stored network, and the configuration to apply is that network's. */
  ghost predicate CleanChange(own: Db, c: Clients.PeerChange) {
    && CleanPeer(c.peer) && c.peer.networkId == c.networkId
    && c.networkId in own.networks && c.network == own.networks[c.networkId].data
  }

  lemma ChangeNamesNetwork(own: Db, networkId: Id, subject: string, deviceName: string, address: string, routes: string, env: Env)
    requires networkId in own.networks
    ensures var c := Clients.ClientPeer(own, networkId, subject, deviceName, address, routes, env);
            c.networkId == networkId && c.network == own.networks[networkId].data
  {
  }

  lemma EnrolledPeerIsClean(config: Config, own: Db, p: Principal, deviceName: string, env: Env)
    requires KeyPair(env)
    ensures var saved := Clients.EnrollDecision(config, own, p, deviceName, env).saved;
            saved.Changes? ==> saved.peer.Some? && CleanChange(own, saved.peer.value)
  {
    hide Clean, CleanPeer, Clients.ClientPeer, Clients.KeyTaken, Vpn.ClientText, Routes.NormalizeAllowedIps, Vpn.RoutesOr, KeyPair;
    hide Routes.AddressBelongs, Clients.OwnChanges, Clients.ActiveUser, Strip;
    var network := Vpn.TheNetwork(own, env);
    var saved := Clients.EnrollDecision(config, own, p, deviceName, env).saved;
    if saved.Changes? {
      var user := own.users[Clients.ActiveUser(own, p.subject, env).value].data;
      var policy := Clients.PeerPolicy(own.networks[network.value].data, user, None).value;
      IssuedPeerIsClean(config, own, network.value, p.subject, Strip(deviceName), own.networks[network.value].data.addressCidr,
                        user.vpnAddress.value, policy.1, env);
      ChangeNamesNetwork(own, network.value, p.subject, Strip(deviceName), policy.0, policy.1, env);
    }
  }

  lemma ClientChangeIsClean(config: Config, own: Db, p: Principal, op: Clients.ClientOp, env: Env)
    requires KeyPair(env)
    ensures var saved := Clients.Decide(config, own, p, op, env).saved;
            saved.Changes? && saved.peer.Some? ==> CleanChange(own, saved.peer.value)
  {
    hide CleanChange, KeyPair, Clients.EnrollDecision, Clients.BootstrapPeer, Clients.OwnChanges, Clients.Choose, Clients.DeviceFor;
    hide Clients.BootstrapResponse, Clients.ActiveUser;
    match op {
      case EnrollVpn(deviceName) => EnrolledPeerIsClean(config, own, p, deviceName, env);
      case Bootstrap(deviceName, code) =>
        var found, c := Clients.ActiveUser(own, p.subject, env), Clients.Choose(config, own, p.subject, code, env);
        if found.Some? && c.Chosen? {
          BootstrapPeerIsClean(config, own, own.users[found.value].data, deviceName, c.profile, Clients.IsLogin(code), env);
        }
    }
  }

  // ---- every request keeps the installation in step

  /** The text is that of the tenant's network. */
  ghost predicate RunsFor(config: Config, networks: Table<Network>, peers: Table<Peer>, tenant: string, text: string) {
    exists id :: Has(networks, tenant, id) && RunsWith(config, networks, peers, id, text)
  }

  /** Each tenant has one network, so the text that is applied for the tenant is that of a given network of its own. */
  lemma RunsWithOwn(config: Config, networks: Table<Network>, peers: Table<Peer>, tenant: string, id: Id, text: string)
    requires StoredRows(networks, peers) && RunsFor(config, networks, peers, tenant, text) && Has(networks, tenant, id)
    ensures RunsWith(config, networks, peers, id, text)
  {
    hide RunsWith, CleanNetwork, CleanPeer;
  }

  /**
   * The outcome keeps the stored rows sound; it changes networks or peers only together with the interface, which then
   * runs with the text of the caller's network.
   */
  ghost predicate KeepsStep(config: Config, tenant: string, db: Db, out: Outcome) {
    && StoredRows(out.db.networks, out.db.peers)
    && (out.effect.Up? ==> RunsFor(config, out.db.networks, out.db.peers, tenant, out.effect.text))
    && (!out.effect.Up? ==> out.db.networks == db.networks && out.db.peers == db.peers)
  }

  lemma PutPeerRows(networks: Table<Network>, peers: Table<Peer>, tenant: string, id: Id, x: Peer, order: seq<Id>)
    requires StoredRows(networks, peers) && CleanPeer(x) && Has(networks, tenant, x.networkId)
    requires Lists(order, peers) && id in order
    ensures StoredRows(networks, Put(peers, tenant, id, x)) && Lists(order, Put(peers, tenant, id, x))
  {
    hide CleanPeer, CleanNetwork;
  }

  lemma PutNetworkRows(networks: Table<Network>, peers: Table<Peer>, tenant: string, id: Id, n: Network)
    requires StoredRows(networks, peers) && CleanNetwork(n)
    requires Has(networks, tenant, id) || (id !in networks && forall k :: k in networks ==> networks[k].tenant != tenant)
    ensures StoredRows(Put(networks, tenant, id, n), peers)
  {
    hide CleanPeer, CleanNetwork;
  }

  lemma OrderLists(config: Config, db: Db, env: Env)
    requires ValidEnv(config, db, env)
    ensures Lists(env.order, db.peers) && env.newId in env.order && env.newPeerId in env.order
    ensures forall id :: id in db.networks ==> id in env.order
  {
  }

  /** The rows that a tenant sees are its own: its peers are clean and in its network, which is found if it is stored. */
  lemma TenantRows(config: Config, tenant: string, db: Db, env: Env)
    requires StoredRows(db.networks, db.peers) && ValidEnv(config, db, env)
    ensures var own := View(db, tenant);
            && (forall id :: id in own.networks <==> Has(db.networks, tenant, id))
            && (forall id :: id in own.networks ==> own.networks[id] == db.networks[id])
            && (forall id :: id in own.peers <==> Has(db.peers, tenant, id))
            && (forall id :: id in own.peers ==> own.peers[id] == db.peers[id])
            && (forall id :: id in own.peers ==> CleanPeer(own.peers[id].data) && own.peers[id].data.networkId in own.networks)
            && (Vpn.TheNetwork(own, env).None? ==>
                  env.newId !in db.networks && forall id :: id in db.networks ==> db.networks[id].tenant != tenant)
  {
    hide CleanPeer, CleanNetwork, OwnEvents;
    var own := View(db, tenant);
    if Vpn.TheNetwork(own, env).None? {
      forall id | id in db.networks ensures db.networks[id].tenant != tenant {
        assert id in env.order;
        assert id !in own.networks.Keys;
      }
    }
  }

  lemma SavedNetworkKeepsStep(config: Config, db: Db, p: Principal, d: Vpn.Decided, env: Env)
    requires Installed(config) && StoredRows(db.networks, db.peers) && Lists(env.order, db.peers)
    requires d.saved.SavedNetwork? && CleanNetwork(d.saved.network)
    requires Has(db.networks, p.tenant, d.saved.id)
             || (d.saved.id !in db.networks && forall k :: k in db.networks ==> db.networks[k].tenant != p.tenant)
    ensures var out := Vpn.Committed(config, db, p, d, env);
            && KeepsStep(config, p.tenant, db, out)
            && (env.apply == Applied ==> out.effect.Up? && out.db == Vpn.Apply(db, p, d.saved, env.now))
  {
    hide Vpn.SyncVpn, StoredRows, RunsWith, Installed, Lists, Put, Own, CleanNetwork, Vpn.Apply;
    var next := Vpn.Apply(db, p, d.saved, env.now);
    var id := d.saved.id;
    PutNetworkRows(db.networks, db.peers, p.tenant, id, d.saved.network);
    AppliedNetwork(db, p, d.saved, env.now);
    SyncAgrees(config, next.networks, next.peers, id, env);
  }

  lemma AppliedNetwork(db: Db, p: Principal, saved: Vpn.Saved, now: Time)
    requires saved.SavedNetwork?
    ensures var next := Vpn.Apply(db, p, saved, now);
            && next.networks == Put(db.networks, p.tenant, saved.id, saved.network) && next.peers == db.peers
            && Has(next.networks, p.tenant, saved.id) && next.networks[saved.id].data == saved.network
  {
  }

  lemma SavedPeerKeepsStep(config: Config, db: Db, p: Principal, d: Vpn.Decided, env: Env)
    requires Installed(config) && StoredRows(db.networks, db.peers) && Lists(env.order, db.peers)
    requires d.saved.SavedPeer? && CleanPeer(d.saved.peer) && Has(db.networks, p.tenant, d.saved.peer.networkId)
    requires d.saved.id in env.order
    requires Has(db.networks, p.tenant, d.saved.networkId) && d.saved.network == db.networks[d.saved.networkId].data
    ensures var out := Vpn.Committed(config, db, p, d, env);
            && KeepsStep(config, p.tenant, db, out)
            && (env.apply == Applied ==> out.effect.Up? && out.db == Vpn.Apply(db, p, d.saved, env.now))
  {
    var next := Vpn.Apply(db, p, d.saved, env.now);
    PutPeerRows(db.networks, db.peers, p.tenant, d.saved.id, d.saved.peer, env.order);
    assert next.networks == db.networks && next.peers == Put(db.peers, p.tenant, d.saved.id, d.saved.peer);
    hide Vpn.SyncVpn, StoredRows, RunsWith, Installed, Lists, Put, Own, CleanPeer, Vpn.Apply;
    SyncAgrees(config, next.networks, next.peers, d.saved.networkId, env);
  }

  /** A peer is saved with the tenant's stored network. */
  ghost predicate NamesNetwork(db: Db, tenant: string, saved: Vpn.Saved) {
    saved.SavedPeer? ==> Has(db.networks, tenant, saved.networkId) && saved.network == db.networks[saved.networkId].data
  }

  /** What a decision saves is clean and belongs to the rows of its tenant. */
  ghost predicate Fitting(db: Db, tenant: string, saved: Vpn.Saved, env: Env) {
    && NamesNetwork(db, tenant, saved)
    && (saved.SavedNetwork? ==>
          && CleanNetwork(saved.network)
          && (Has(db.networks, tenant, saved.id)
              || (saved.id !in db.networks && forall k :: k in db.networks ==> db.networks[k].tenant != tenant)))
    && (saved.SavedPeer? ==> CleanPeer(saved.peer) && Has(db.networks, tenant, saved.peer.networkId) && saved.id in env.order)
  }

  lemma DecisionFits(config: Config, db: Db, p: Principal, op: Vpn.VpnOp, env: Env)
    requires StoredRows(db.networks, db.peers) && Admissible(config, db, Step(Call(p, OfVpn(op)), env))
    ensures Fitting(db, p.tenant, Vpn.Decide(config, View(db, p.tenant), p, op, env).saved, env)
  {
    hide ValidEnv, KeyPair, View, Vpn.TheNetwork, Vpn.Decide, Lists, CleanPeer, CleanNetwork, StoredRows;
    var own := View(db, p.tenant);
    var saved := Vpn.Decide(config, own, p, op, env).saved;
    OrderLists(config, db, env);
    TenantRows(config, p.tenant, db, env);
    SavedPeerIsClean(config, own, p, op, env);
    SavedNetworkIsClean(config, own, p, op, env);
    if saved.SavedPeer? {
      PeerIdListed(db, saved.id, env.order);
    }
  }

  lemma VpnKeepsStep(config: Config, db: Db, p: Principal, op: Vpn.VpnOp, env: Env)
    requires Installed(config) && StoredRows(db.networks, db.peers) && Admissible(config, db, Step(Call(p, OfVpn(op)), env))
    ensures KeepsStep(config, p.tenant, db, Vpn.Exec(config, db, p, op, env))
    ensures NamesNetwork(db, p.tenant, Vpn.Decide(config, View(db, p.tenant), p, op, env).saved)
  {
    var d := Vpn.Decide(config, View(db, p.tenant), p, op, env);
    OrderLists(config, db, env);
    DecisionFits(config, db, p, op, env);
    hide ValidEnv, KeyPair, View, Vpn.Decide, Installed, Lists, CleanPeer, CleanNetwork, StoredRows;
    hide Vpn.Committed, Admissible, KeepsStep;
    match d.saved {
      case Nothing => NothingKeepsStep(config, db, p, d, env);
      case SavedNetwork(_, _) => SavedNetworkKeepsStep(config, db, p, d, env);
      case SavedPeer(_, _, _, _, _) => SavedPeerKeepsStep(config, db, p, d, env);
    }
  }

  lemma PeerIdListed(db: Db, id: Id, order: seq<Id>)
    requires Lists(order, db.peers)
    ensures id in db.peers ==> id in order
  {
  }

  lemma NothingKeepsStep(config: Config, db: Db, p: Principal, d: Vpn.Decided, env: Env)
    requires d.saved.Nothing? && StoredRows(db.networks, db.peers)
    ensures KeepsStep(config, p.tenant, db, Vpn.Committed(config, db, p, d, env))
  {
    hide StoredRows, RunsWith;
  }

  lemma IssuedPeerKeepsStep(config: Config, db: Db, p: Principal, d: Clients.Decided, env: Env)
    requires Installed(config) && StoredRows(db.networks, db.peers) && Lists(env.order, db.peers)
    requires d.saved.Changes? && d.saved.peer.Some? && CleanChange(db, d.saved.peer.value) && d.saved.peer.value.id in env.order
    requires db.networks[d.saved.peer.value.networkId].tenant == p.tenant
    ensures KeepsStep(config, p.tenant, db, Clients.Committed(config, db, p, d, env))
  {
    hide Vpn.SyncVpn, StoredRows, RunsWith, Installed, Lists, Put, Own, CleanPeer, Clients.Apply;
    var c := d.saved.peer.value;
    var next := Clients.Apply(db, p, d.saved, env.now);
    PutPeerRows(db.networks, db.peers, p.tenant, c.id, c.peer, env.order);
    AppliedPeer(db, p, d.saved, env.now);
    SyncAgrees(config, next.networks, next.peers, c.networkId, env);
  }

  lemma AppliedPeer(db: Db, p: Principal, saved: Clients.Saved, now: Time)
    requires saved.Changes? && saved.peer.Some?
    ensures var next, c := Clients.Apply(db, p, saved, now), saved.peer.value;
            next.networks == db.networks && next.peers == Put(db.peers, p.tenant, c.id, c.peer)
  {
    hide Put;
  }

  lemma NoPeerKeepsStep(config: Config, db: Db, p: Principal, d: Clients.Decided, env: Env)
    requires StoredRows(db.networks, db.peers) && (d.saved.Changes? ==> d.saved.peer.None?)
    ensures KeepsStep(config, p.tenant, db, Clients.Committed(config, db, p, d, env))
  {
    hide StoredRows, RunsWith, Own, Put;
  }

  lemma ClientsKeepStep(config: Config, db: Db, p: Principal, op: Clients.ClientOp, env: Env)
    requires Installed(config) && StoredRows(db.networks, db.peers) && Admissible(config, db, Step(Call(p, OfClients(op)), env))
    ensures KeepsStep(config, p.tenant, db, Clients.Exec(config, db, p, op, env))
    ensures var saved := Clients.Decide(config, View(db, p.tenant), p, op, env).saved;
            saved.Changes? && saved.peer.Some? ==>
              CleanChange(db, saved.peer.value) && db.networks[saved.peer.value.networkId].tenant == p.tenant
  {
    var own := View(db, p.tenant);
    var d := Clients.Decide(config, own, p, op, env);
    OrderLists(config, db, env);
    TenantRows(config, p.tenant, db, env);
    hide ValidEnv, KeyPair, View, Clients.Decide, StoredRows, RunsWith, Installed, Lists, CleanPeer, CleanNetwork, Clients.Committed;
    hide KeepsStep;
    ClientChangeIsClean(config, own, p, op, env);
    if d.saved.Changes? && d.saved.peer.Some? {
      PeerIdListed(db, d.saved.peer.value.id, env.order);
      IssuedPeerKeepsStep(config, db, p, d, env);
    } else {
      NoPeerKeepsStep(config, db, p, d, env);
    }
  }

  lemma OthersKeepStep(config: Config, tenant: string, db: Db, out: Outcome)
    requires StoredRows(db.networks, db.peers)
    requires out.db.networks == db.networks && out.db.peers == db.peers && out.effect == Unchanged
    ensures KeepsStep(config, tenant, db, out)
  {
  }

  lemma OpKeepsStep(config: Config, db: Db, p: Principal, op: Op, env: Env)
    requires Installed(config) && StoredRows(db.networks, db.peers) && Admissible(config, db, Step(Call(p, op), env))
    ensures KeepsStep(config, p.tenant, db, ExecOp(config, db, p, op, env))
  {
    hide Support.Exec, FileServers.Exec, Deployments.Exec, Accounts.Exec, Vpn.Exec, Clients.Exec;
    hide StoredRows, KeepsStep, Installed, Admissible;
    var out := ExecOp(config, db, p, op, env);
    match op {
      case OfSupport(o) =>
        Support.Frame(db, p, o, env);
        OthersKeepStep(config, p.tenant, db, out);
      case OfFileServers(o) =>
        FileServers.Frame(db, p, o, env);
        OthersKeepStep(config, p.tenant, db, out);
      case OfDeployments(o) =>
        Deployments.Frame(config, db, p, o, env);
        OthersKeepStep(config, p.tenant, db, out);
      case OfAccounts(o) =>
        Accounts.Frame(config, db, p, o, env);
        OthersKeepStep(config, p.tenant, db, out);
      case OfVpn(o) => VpnKeepsStep(config, db, p, o, env);
      case OfClients(o) => ClientsKeepStep(config, db, p, o, env);
    }
  }

  /**
   * A request changes networks or peers only together with the text that the interface runs with, which is then that of
   * its tenant's network.
   */
  lemma RequestKeepsStep(config: Config, db: Db, step: Step)
    requires Installed(config) && StoredRows(db.networks, db.peers) && Admissible(config, db, step)
    ensures KeepsStep(config, TenantOf(step.call), db, Exec(config, db, step))
  {
    hide ExecOp, Accounts.Login, Accounts.SetUp, Admissible, StoredRows, KeepsStep, Installed;
    var tenant := TenantOf(step.call);
    match step.call {
      case Call(p, op) => OpKeepsStep(config, db, p, op, step.env);
      case Login(c) => OthersKeepStep(config, tenant, db, Accounts.Login(config, db, c, step.env));
      case SetUp(c, name) => OthersKeepStep(config, tenant, db, Accounts.SetUp(config, db, c, name, step.env));
    }
  }

  // ---- restarts

  /** A restart brings up a stored network, the one updated last, unless there is none or applying fails. */
  lemma RestartAgrees(config: Config, db: Db, env: Env)
    requires Installed(config) && StoredRows(db.networks, db.peers) && ValidEnv(config, db, env)
    ensures var effect, id := Restore(config, db, env), LatestNetwork(env.order, db.networks);
            && (effect.Up? <==> db.networks != map[] && env.apply == Applied)
            && (effect.Up? ==> id.Some? && RunsWith(config, db.networks, db.peers, id.value, effect.text))
  {
    OrderLists(config, db, env);
    KeyIsNotEmpty(config);
    var id := LatestNetwork(env.order, db.networks);
    hide LatestNetwork, RunsWith, Vpn.SyncVpn, Installed, ValidEnv, StoredRows, Lists, Own;
    if id.Some? {
      SyncAgrees(config, db.networks, db.peers, id.value, env);
    } else {
      assert forall x :: x !in db.networks;
    }
  }

  // ---- histories

  lemma NextKeepsStep(config: Config, w: World, e: WorldStep)
    requires Installed(config) && InStep(config, w) && ValidNext(config, w.db, e)
    ensures InStep(config, Next(config, w, e))
  {
    hide Exec, Restore, RunsWith, StoredRows, Installed, ValidEnv, Admissible;
    match e {
      case Request(step) => RequestKeepsStep(config, w.db, step);
      case Restart(env) => RestartAgrees(config, w.db, env);
    }
  }

  lemma {:induction false} HistoryStaysInStep(config: Config, w: World, steps: seq<WorldStep>)
    requires Installed(config) && InStep(config, w) && ValidHistory(config, w, steps)
    ensures InStep(config, History(config, w, steps))
    decreases |steps|
  {
    hide InStep, Next, Installed, ValidNext;
    if steps == [] {
    } else {
      NextKeepsStep(config, w, steps[0]);
      HistoryStaysInStep(config, Next(config, w, steps[0]), steps[1..]);
    }
  }

  const FRESH := World(EMPTY, None)

  lemma FreshIsInStep(config: Config)
    ensures InStep(config, FRESH)
  {
    hide RunsWith;
  }

  lemma ReachedIsInStep(config: Config, steps: seq<WorldStep>)
    requires Installed(config) && ValidHistory(config, FRESH, steps)
    ensures InStep(config, History(config, FRESH, steps))
  {
    FreshIsInStep(config);
    hide InStep;
    HistoryStaysInStep(config, FRESH, steps);
  }

  /**
   * Whenever the interface is up, at any point of any history of any tenants, its text reads as exactly the stored network
   * of some tenant and its enabled peers if and only if the names of these peers are quiet, and then it agrees with them.
   */
  lemma InterfaceAgreesWithDatabase(config: Config, steps: seq<WorldStep>)
    requires Installed(config) && ValidHistory(config, FRESH, steps)
    ensures var w := History(config, FRESH, steps);
            w.running.Some? ==> exists id :: TextAgrees(config, w.db.networks, w.db.peers, id, w.running.value)
  {
    hide RunsWith, ValidHistory, History, Installed, TextAgrees, StoredRows;
    var w := History(config, FRESH, steps);
    ReachedIsInStep(config, steps);
    if w.running.Some? {
      var id :| RunsWith(config, w.db.networks, w.db.peers, id, w.running.value);
      RunningTextAgrees(config, w.db.networks, w.db.peers, id, w.running.value);
    }
  }

  /** The requests of a history, without its restarts. */
  function Requests(steps: seq<WorldStep>): seq<Step> {
    if steps == [] then []
    else (if steps[0].Request? then [steps[0].step] else []) + Requests(steps[1..])
  }

  /** What holds of runs holds of the database in histories: restarts do not touch it. */
  lemma {:induction false} HistoryIsRun(config: Config, w: World, steps: seq<WorldStep>)
    requires ValidHistory(config, w, steps)
    ensures ValidRun(config, w.db, Requests(steps)) && History(config, w, steps).db == Run(config, w.db, Requests(steps))
    decreases |steps|
  {
    hide Exec, ValidEnv, KeyPair, Restore;
    if steps == [] {
    } else {
      var rest := Requests(steps[1..]);
      HistoryIsRun(config, Next(config, w, steps[0]), steps[1..]);
      if steps[0].Request? {
        assert ([steps[0].step] + rest)[1..] == rest;
      } else {
        assert [] + rest == rest;
      }
    }
  }

  // ---- one tenant

  ghost predicate OnlyTenant(networks: Table<Network>, tenant: string) {
    forall id :: id in networks ==> networks[id].tenant == tenant
  }

  ghost predicate RequestsOf(steps: seq<WorldStep>, tenant: string) {
    forall i :: 0 <= i < |steps| && steps[i].Request? ==> TenantOf(steps[i].step.call) == tenant
  }

  lemma RequestKeepsTenant(config: Config, db: Db, step: Step)
    requires OnlyTenant(db.networks, TenantOf(step.call)) && ValidEnv(config, db, step.env)
    ensures OnlyTenant(Exec(config, db, step).db.networks, TenantOf(step.call))
  {
    hide Exec, ValidEnv;
    StaysInTenant(config, db, step);
  }

  lemma {:induction false} HistoryKeepsTenant(config: Config, w: World, steps: seq<WorldStep>, tenant: string)
    requires OnlyTenant(w.db.networks, tenant) && ValidHistory(config, w, steps) && RequestsOf(steps, tenant)
    ensures OnlyTenant(History(config, w, steps).db.networks, tenant)
    decreases |steps|
  {
    hide OnlyTenant, ValidEnv, KeyPair, Exec, Restore;
    if steps == [] {
    } else {
      if steps[0].Request? {
        RequestKeepsTenant(config, w.db, steps[0].step);
      }
      HistoryKeepsTenant(config, Next(config, w, steps[0]), steps[1..], tenant);
    }
  }

  /** With the requests of one tenant alone, that network is the only one, and its peers are all there are. */
  lemma OneTenantAgrees(config: Config, steps: seq<WorldStep>, tenant: string, id: Id)
    requires Installed(config) && ValidHistory(config, FRESH, steps) && RequestsOf(steps, tenant)
    ensures var w := History(config, FRESH, steps);
            w.running.Some? ==>
              && w.db.networks != map[]
              && (id in w.db.networks ==>
                    w.db.networks.Keys == {id} && PeersOf(w.db.peers, id) == w.db.peers
                    && TextAgrees(config, w.db.networks, w.db.peers, id, w.running.value))
  {
    var w := History(config, FRESH, steps);
    hide ValidHistory, History, Installed, TextAgrees, RunsWith, RequestsOf;
    HistoryKeepsTenant(config, FRESH, steps, tenant);
    InterfaceAgreesWithDatabase(config, steps);
    ReachedIsInStep(config, steps);
    if w.running.Some? {
      var k :| TextAgrees(config, w.db.networks, w.db.peers, k, w.running.value);
      AgreeingIsStored(config, w.db.networks, w.db.peers, k, w.running.value);
      OnlyNetwork(w.db.networks, w.db.peers, tenant, k);
    }
  }

  lemma AgreeingIsStored(config: Config, networks: Table<Network>, peers: Table<Peer>, id: Id, text: string)
    requires TextAgrees(config, networks, peers, id, text)
    ensures id in networks
  {
    hide ReadsExactly, Agrees, AllQuiet;
  }

  lemma OnlyNetwork(networks: Table<Network>, peers: Table<Peer>, tenant: string, id: Id)
    requires StoredRows(networks, peers) && OnlyTenant(networks, tenant) && id in networks
    ensures networks.Keys == {id} && PeersOf(peers, id) == peers
  {
    hide CleanNetwork, CleanPeer;
  }

  // ---- changes

  /**
   * A request that changes networks or peers, and a restart that applies, leave the interface up: with the text of the
   * caller's network, or of the one updated last.
   */
  ghost predicate ChangesAreRunning(config: Config, w: World, e: WorldStep, next: World) {
    match e
    case Request(step) =>
      next.db.networks != w.db.networks || next.db.peers != w.db.peers ==>
        next.running.Some? && RunsFor(config, next.db.networks, next.db.peers, TenantOf(step.call), next.running.value)
    case Restart(env) =>
      && next.db == w.db
      && (env.apply == Applied && w.db.networks != map[] ==>
            && next.running.Some? && LatestNetwork(env.order, w.db.networks).Some?
            && RunsWith(config, w.db.networks, w.db.peers, LatestNetwork(env.order, w.db.networks).value, next.running.value))
  }

  lemma RequestChangesAreRunning(config: Config, w: World, step: Step)
    requires Installed(config) && InStep(config, w) && Admissible(config, w.db, step)
    ensures ChangesAreRunning(config, w, Request(step), Next(config, w, Request(step)))
  {
    hide RunsWith, RunsFor, Installed, StoredRows, Exec, Admissible;
    RequestKeepsStep(config, w.db, step);
  }

  lemma RestartChangesAreRunning(config: Config, w: World, env: Env)
    requires Installed(config) && InStep(config, w) && ValidEnv(config, w.db, env)
    ensures ChangesAreRunning(config, w, Restart(env), Next(config, w, Restart(env)))
  {
    hide RunsWith, Installed, StoredRows, Restore, ValidEnv, LatestNetwork;
    RestartAgrees(config, w.db, env);
  }

  /** After a request that commits a change of the network or a peer, and after a restart that applies, the interface is up. */
  lemma CommittedChangesAreRunning(config: Config, steps: seq<WorldStep>, e: WorldStep)
    requires Installed(config) && ValidHistory(config, FRESH, steps)
    requires ValidNext(config, History(config, FRESH, steps).db, e)
    ensures var w := History(config, FRESH, steps); ChangesAreRunning(config, w, e, Next(config, w, e))
  {
    ReachedIsInStep(config, steps);
    hide InStep, ValidHistory, History, Installed, Next, ChangesAreRunning, Admissible, ValidEnv;
    match e {
      case Request(step) => RequestChangesAreRunning(config, History(config, FRESH, steps), step);
      case Restart(env) => RestartChangesAreRunning(config, History(config, FRESH, steps), env);
    }
  }
}
