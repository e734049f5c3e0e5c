/** A revoked peer is gone: its row stays disabled, and the running interface has no section for it. */
module Revocation {
  import opened Wrappers
  import opened Rows
  import opened Tables
  import opened ControlPlane
  import opened Runtime
  import opened ServerConfig
  import opened UniqueRows
  import AcceptedPeers
  import ProfileIntegrity
  import Vpn
  import VpnEffects

  /** No peer section has the key or the address. */
  ghost predicate NotServed(text: string, publicKey: string, address: string) {
    && Read(text).Some?
    && forall r :: r in Read(text).value.peers ==> r.publicKey != publicKey && r.address != address
  }

  /** The reading lists enabled peers only, and the keys and addresses of a network are unique. */
  lemma DisabledIsNotListed(readings: seq<PeerReading>, peers: Table<Peer>, networkId: Id, tenant: string, k: Id)
    requires UniquePeers(peers) && ListsEnabled(readings, PeersOf(peers, networkId))
    requires forall i :: i in PeersOf(peers, networkId) ==> peers[i].tenant == tenant
    requires k in PeersOf(peers, networkId) && !peers[k].data.enabled
    ensures forall r :: r in readings ==> r.publicKey != peers[k].data.publicKey && r.address != peers[k].data.address
  {
    var own := PeersOf(peers, networkId);
    var ids :| ListedAs(readings, own, ids);
    forall r | r in readings ensures r.publicKey != peers[k].data.publicKey && r.address != peers[k].data.address {
      var i :| 0 <= i < |readings| && readings[i] == r;
      assert ids[i] in ids && ids[i] != k;
      assert PeerKey(peers[ids[i]].data) != PeerKey(peers[k].data);
      assert PeerAddress(peers[ids[i]].data) != PeerAddress(peers[k].data);
    }
  }

  lemma PeersOfTenant(networks: Table<Network>, peers: Table<Peer>, tenant: string, networkId: Id)
    requires StoredRows(networks, peers) && Has(networks, tenant, networkId)
    ensures forall i :: i in PeersOf(peers, networkId) ==> peers[i].tenant == tenant
    ensures ProfileIntegrity.UniqueNetworks(networks)
  {
    hide CleanPeer, CleanNetwork;
  }

  lemma NetworkOfPeer(networks: Table<Network>, peers: Table<Peer>, k: Id)
    requires StoredRows(networks, peers) && k in peers
    ensures Has(networks, peers[k].tenant, peers[k].data.networkId) && ProfileIntegrity.UniqueNetworks(networks)
  {
    hide CleanPeer, CleanNetwork;
  }

  /** Where the interface runs with the network of a disabled peer, it has no section for that peer. */
  lemma DisabledIsNotServed(config: Config, networks: Table<Network>, peers: Table<Peer>, tenant: string, k: Id, text: string)
    requires Installed(config) && StoredRows(networks, peers) && UniquePeers(peers) && RunsFor(config, networks, peers, tenant, text)
    requires Has(peers, tenant, k) && !peers[k].data.enabled && AllQuiet(PeersOf(peers, peers[k].data.networkId))
    ensures NotServed(text, peers[k].data.publicKey, peers[k].data.address)
  {
    var id := peers[k].data.networkId;
    NetworkOfPeer(networks, peers, k);
    PeersOfTenant(networks, peers, tenant, id);
    hide StoredRows, UniquePeers, RunsFor, RunsWith, Installed, ReadsExactly, AllQuiet, ListsEnabled;
    RunsWithOwn(config, networks, peers, tenant, id, text);
    RunningTextAgrees(config, networks, peers, id, text);
    DisabledIsNotListed(Read(text).value.peers, peers, id, tenant, k);
  }

  /** In an installation that applies, a change that is answered with success is applied. */
  lemma SuccessIsApplied(config: Config, db: Db, tenant: string, next: Db, id: Id, env: Env, response: Response, out: Outcome)
    requires Installed(config) && id in next.networks && VpnEffects.AppliedThen(config, db, tenant, next, id, env, response, out)
    requires !out.response.Refused?
    ensures out.effect.Up? && out.db == next
  {
    KeyIsNotEmpty(config);
  }

  lemma RevokedRow(config: Config, db: Db, p: Principal, k: Id, env: Env)
    requires Installed(config) && StoredRows(db.networks, db.peers) && ValidEnv(config, db, env)
    requires Vpn.Exec(config, db, p, Vpn.RevokePeer(k), env).response == NoContent
    ensures Has(db.peers, p.tenant, k)
    ensures var out, was := Vpn.Exec(config, db, p, Vpn.RevokePeer(k), env), db.peers[k].data;
            && out.effect.Up? && out.db.networks == db.networks
            && out.db.peers == db.peers[k := Row(p.tenant, was.(enabled := false, revokedAt := Some(env.now)))]
  {
    hide Vpn.Exec, ValidEnv, Installed, StoredRows;
    var out := Vpn.Exec(config, db, p, Vpn.RevokePeer(k), env);
    if Has(db.peers, p.tenant, k) {
      var was := db.peers[k].data;
      var x := Peer(was.networkId, was.name, was.publicKey, was.address, was.allowedIps, was.keepalive, false, Some(env.now));
      NetworkOfPeer(db.networks, db.peers, k);
      VpnEffects.RevokedPeer(config, db, p, k, env, was.networkId);
      hide VpnEffects.AppliedThen;
      SuccessIsApplied(config, db, p.tenant, VpnEffects.PeerSaved(db, p, k, x, PeerRevoked, env.now), was.networkId, env, NoContent, out);
    } else {
      NoPeerNoRevocation(config, db, p, k, env);
    }
  }

  lemma NoPeerNoRevocation(config: Config, db: Db, p: Principal, k: Id, env: Env)
    requires !Has(db.peers, p.tenant, k)
    ensures Vpn.Exec(config, db, p, Vpn.RevokePeer(k), env).response.Refused?
  {
    OwnRow(db.peers, p.tenant, k);
    hide Own, OwnEvents, Vpn.OwnSaved;
  }

  /**
   * After any history, a revocation that is answered with success leaves that row disabled from now on, everything else of
   * the peers as it was, and the interface up; where the names of the network's peers are quiet, its text has no section
   * with the key or the address of the revoked peer.
   */
  lemma RevokedPeerIsGone(config: Config, steps: seq<WorldStep>, p: Principal, k: Id, env: Env)
    requires Installed(config) && ValidHistory(config, FRESH, steps)
    requires var db, step := History(config, FRESH, steps).db, Step(Call(p, OfVpn(Vpn.RevokePeer(k))), env);
             Admissible(config, db, step) && Exec(config, db, step).response == NoContent
    ensures var w := History(config, FRESH, steps);
            var next := Next(config, w, Request(Step(Call(p, OfVpn(Vpn.RevokePeer(k))), env)));
            && Has(w.db.peers, p.tenant, k) && next.running.Some?
            && (var was := w.db.peers[k].data;
                && next.db.peers == w.db.peers[k := Row(p.tenant, was.(enabled := false, revokedAt := Some(env.now)))]
                && (AllQuiet(PeersOf(next.db.peers, was.networkId)) ==> NotServed(next.running.value, was.publicKey, was.address)))
  {
    hide Installed, ValidHistory, History, RunsWith, StoredRows, Exec, Unique, ValidRun, Run, Vpn.Exec, ValidEnv, KeyPair, Next;
    hide AllQuiet, NotServed, PeersOf, Requests;
    var w := History(config, FRESH, steps);
    ReachedIsInStep(config, steps);
    ReachedIsUnique(config, steps);
    RequestsAreDispatched(config, w.db, p, env);
    AcceptedPeers.NextOfVpn(config, w, p, Vpn.RevokePeer(k), env);
    RevokedIsNotServed(config, w.db, p, k, env);
  }

  lemma ReachedIsUnique(config: Config, steps: seq<WorldStep>)
    requires ValidHistory(config, FRESH, steps)
    ensures Unique(History(config, FRESH, steps).db)
  {
    hide ValidHistory, History, Unique, ValidRun, Run, Requests;
    HistoryIsRun(config, FRESH, steps);
    EmptyIsUnique();
    RunKeepsUnique(config, EMPTY, Requests(steps));
  }

  lemma EmptyIsUnique()
    ensures Unique(EMPTY)
  {
  }

  lemma RevokedIsNotServed(config: Config, db: Db, p: Principal, k: Id, env: Env)
    requires Installed(config) && StoredRows(db.networks, db.peers) && Unique(db) && ValidEnv(config, db, env) && KeyPair(env)
    requires Vpn.Exec(config, db, p, Vpn.RevokePeer(k), env).response == NoContent
    ensures Has(db.peers, p.tenant, k)
    ensures var out, was := Vpn.Exec(config, db, p, Vpn.RevokePeer(k), env), db.peers[k].data;
            && out.effect.Up?
            && out.db.peers == db.peers[k := Row(p.tenant, was.(enabled := false, revokedAt := Some(env.now)))]
            && (AllQuiet(PeersOf(out.db.peers, was.networkId)) ==> NotServed(out.effect.text, was.publicKey, was.address))
  {
    hide Installed, RunsFor, StoredRows, UniqueBy, Vpn.Exec, ValidEnv, KeyPair, AllQuiet, NotServed, PeersOf;
    var out := Vpn.Exec(config, db, p, Vpn.RevokePeer(k), env);
    VpnStaysUnique(config, db, p, Vpn.RevokePeer(k), env);
    VpnKeepsStep(config, db, p, Vpn.RevokePeer(k), env);
    RevokedRow(config, db, p, k, env);
    if AllQuiet(PeersOf(out.db.peers, db.peers[k].data.networkId)) {
      DisabledIsNotServed(config, out.db.networks, out.db.peers, p.tenant, k, out.effect.text);
    }
  }
}
