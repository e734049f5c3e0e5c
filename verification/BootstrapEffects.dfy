/** What the bootstrap of an installed client does, on the stored rows themselves. */
module BootstrapEffects {
  import opened Wrappers
  import opened Rows
  import opened Tables
  import opened ClientEffects
  import opened ProfileIntegrity
  import opened UniqueRows
  import opened VpnEffects
  import ClientConfig
  import Clients
  import Handshake
  import Routes
  import Runtime
  import ServerConfig
  import ServerKey
  import Vpn
  import X25519

  // ---- the device

  ghost predicate UsableDevice(db: Db, p: Principal, name: string, id: Id) {
    && Has(db.devices, p.tenant, id) && db.devices[id].data.owner == p.subject && db.devices[id].data.name == name
    && db.devices[id].data.revokedAt.None?
  }

  /** A device of the caller under this name that is not revoked, or a new one where there is none. */
  ghost predicate DeviceIs(db: Db, p: Principal, name: string, env: Env, id: Id, device: Device) {
    || (UsableDevice(db, p, name, id) && device == db.devices[id].data)
    || (id == env.newId && device == Device(p.subject, name, true, None) && forall j :: !UsableDevice(db, p, name, j))
  }

  lemma DeviceFound(config: Config, db: Db, p: Principal, name: string, env: Env)
    requires ValidEnv(config, db, env)
    ensures var (id, device, isNew) := Clients.DeviceFor(View(db, p.tenant), p.subject, name, env);
            && DeviceIs(db, p, name, env, id, device)
            && (!isNew ==> id in db.devices && db.devices[id] == Row(p.tenant, device))
  {
    hide OwnEvents;
    var rows := View(db, p.tenant).devices;
    var ids := Clients.UsableDevices(rows, p.subject, name);
    var found := First(env.order, ids);
    forall j | UsableDevice(db, p, name, j) ensures found.Some? {
      assert j in rows && j in env.order && j in ids;
    }
    if found.Some? {
      assert found.value in ids && UsableDevice(db, p, name, found.value);
    }
  }

  // ---- what is stored

  /** The device, the code and the peer, with one event about the device. */
  function Booted(db: Db, p: Principal, id: Id, device: Device, code: Option<(Id, Enrollment)>, peer: Option<(Id, Peer)>, now: Time): Db {
    db.(devices := db.devices[id := Row(p.tenant, device)],
        enrollments := if code.Some? then db.enrollments[code.value.0 := Row(p.tenant, code.value.1)] else db.enrollments,
        peers := if peer.Some? then db.peers[peer.value.0 := Row(p.tenant, peer.value.1)] else db.peers,
        audit := db.audit + [Event(p.tenant, p.subject, ClientBootstrapped, OnDevice, id, now)])
  }

  lemma ApplyBoots(db: Db, p: Principal, id: Id, device: Device, isNew: bool, code: Option<(Id, Enrollment)>,
                   peer: Option<Clients.PeerChange>, now: Time)
    requires !isNew ==> id in db.devices && db.devices[id] == Row(p.tenant, device)
    ensures var saved := Clients.Changes(if isNew then Some((id, device)) else None, code, peer, ClientBootstrapped, OnDevice, id);
            Clients.Apply(db, p, saved, now)
            == Booted(db, p, id, device, code, if peer.Some? then Some((peer.value.id, peer.value.peer)) else None, now)
  {
    assert !isNew ==> db.devices[id := Row(p.tenant, device)] == db.devices;
  }

  // ---- what is answered

  /** All shares of the enabled file servers that the profile names, unless the profile withholds them at login. */
  ghost predicate AreShares(shares: seq<Share>, db: Db, tenant: string, profile: Option<Profile>, coded: bool) {
    if profile.None? || (!coded && !profile.value.sharesOnLogin) then shares == []
    else forall x :: x in shares <==> exists id :: ShareOfServer(x, db, tenant, profile.value.fileServerIds, id)
  }

  ghost predicate ShareOfServer(x: Share, db: Db, tenant: string, ids: seq<Id>, id: Id) {
    && Has(db.servers, tenant, id) && id in ids && db.servers[id].data.enabled
    && exists k :: 0 <= k < |db.servers[id].data.shares|
                   && x == Share(db.servers[id].data.name + " - " + db.servers[id].data.shares[k],
                                 "\\\\" + db.servers[id].data.host + "\\" + db.servers[id].data.shares[k])
  }

  lemma SharesAreDelivered(config: Config, db: Db, tenant: string, ids: seq<Id>, env: Env)
    requires ValidEnv(config, db, env)
    ensures forall x :: x in Clients.SharesIn(env.order, View(db, tenant).servers, ids) <==>
                        exists id :: ShareOfServer(x, db, tenant, ids, id)
  {
    hide OwnEvents;
    var rows := View(db, tenant).servers;
    forall x ensures x in Clients.SharesIn(env.order, rows, ids) <==> exists id :: ShareOfServer(x, db, tenant, ids, id) {
      Clients.DeliveredShares(env.order, rows, ids, x);
      forall id ensures (id in env.order && Clients.IsShareOf(x, rows, ids, id)) <==> ShareOfServer(x, db, tenant, ids, id) {
        ShareRow(config, db, tenant, ids, env, x, id);
      }
    }
  }

  lemma ShareRow(config: Config, db: Db, tenant: string, ids: seq<Id>, env: Env, x: Share, id: Id)
    requires ValidEnv(config, db, env)
    ensures (id in env.order && Clients.IsShareOf(x, View(db, tenant).servers, ids, id)) <==> ShareOfServer(x, db, tenant, ids, id)
  {
    hide OwnEvents;
    if Has(db.servers, tenant, id) {
      assert id in env.order;
    }
  }

  /** The policy version, the user, the network as it is stored, the client text, the shares and the device. */
  ghost predicate Answers(response: Response, db: Db, p: Principal, user: User, profile: Option<Profile>, coded: bool, networkId: Id,
                          text: Option<string>, id: Id, device: Device)
  {
    && response.Bootstrapped? && AreShares(response.shares, db, p.tenant, profile, coded)
    && response == Bootstrapped(user.policyVersion, user,
                                if Has(db.networks, p.tenant, networkId) then Some(db.networks[networkId].data) else None,
                                text, response.shares, id, device)
  }

  lemma ResponseAnswers(config: Config, db: Db, p: Principal, user: User, profile: Option<Profile>, login: bool,
                        issued: Option<Clients.Issued>, id: Id, device: Device, env: Env, networkId: Id)
    requires ValidEnv(config, db, env) && Settled(config, db) && NetworkId(db, p.tenant, env, networkId)
    requires issued.Some? ==> issued.value.Issued?
    ensures var response := Clients.BootstrapResponse(config, View(db, p.tenant), user, profile, login, issued, id, device, env);
            Answers(response, db, p, user, profile, !login, networkId, if issued.Some? then issued.value.text else None, id, device)
  {
    NetworkFound(config, db, p.tenant, env);
    if profile.Some? {
      SharesAreDelivered(config, db, p.tenant, profile.value.fileServerIds, env);
    }
    hide View, ValidEnv, Vpn.TheNetwork, ShareOfServer, UniqueSubjects, UniqueNetworks, Unique, X25519.ValidateKey;
  }

  // ---- the peer

  /** A VPN is delivered to a user with an address, by a server with a key, unless the profile withholds it at login. */
  ghost predicate WantsVpn(config: Config, db: Db, tenant: string, networkId: Id, user: User, profile: Option<Profile>, coded: bool) {
    && Has(db.networks, tenant, networkId) && AddressOwed(user) != "" && config.wireguardKey != ""
    && (profile.None? || coded || profile.value.vpnOnLogin)
  }

  ghost predicate PeerIssued(config: Config, db: Db, tenant: string, networkId: Id, user: User, profile: Option<Profile>,
                             deviceName: string, coded: bool, env: Env, r: Option<Clients.Issued>)
  {
    if !WantsVpn(config, db, tenant, networkId, user, profile, coded) then r.None?
    else if !MayServe(db.networks[networkId].data, user, profile) then r == Some(Clients.NotIssued(ServerError))
    else
      && r.Some?
      && exists x ::
           && IsClientPeer(x, db.networks[networkId].data, networkId, user, profile, deviceName, env)
           && IssuedAs(config, db, tenant, networkId, x, env, r.value)
  }

  lemma PeerByPolicy(config: Config, own: Db, user: User, deviceName: string, profile: Option<Profile>, login: bool, env: Env,
                     found: Option<Id>)
    requires found == Vpn.TheNetwork(own, env)
    ensures var r := Clients.BootstrapPeer(config, own, user, deviceName, profile, login, env);
            if found.None? || AddressOwed(user) == "" || config.wireguardKey == "" || !(profile.None? || !login || profile.value.vpnOnLogin)
            then r.None?
            else
              var policy := Clients.PeerPolicy(own.networks[found.value].data, user, profile);
              if policy.None? then r == Some(Clients.NotIssued(ServerError))
              else r == Some(Clients.Issue(config, own, found.value, user.subject, deviceName, policy.value.0, policy.value.1, env))
  {
    hide Vpn.TheNetwork, Clients.PeerPolicy, Clients.Issue;
  }

  lemma PeerIsIssued(config: Config, db: Db, tenant: string, networkId: Id, user: User, profile: Option<Profile>, deviceName: string,
                     login: bool, env: Env)
    requires ValidEnv(config, db, env) && Settled(config, db) && NetworkId(db, tenant, env, networkId)
    ensures PeerIssued(config, db, tenant, networkId, user, profile, deviceName, !login, env,
                       Clients.BootstrapPeer(config, View(db, tenant), user, deviceName, profile, login, env))
  {
    hide View, ValidEnv, Vpn.TheNetwork, Clients.PeerPolicy, Clients.Issue, IssuedAs, MayServe, IsClientPeer, AddressOwed;
    hide UniqueSubjects, UniqueNetworks, Unique, ServerKey.Describable, Clients.BootstrapPeer;
    var own := View(db, tenant);
    NetworkFound(config, db, tenant, env);
    PeerByPolicy(config, own, user, deviceName, profile, login, env, Vpn.TheNetwork(own, env));
    if WantsVpn(config, db, tenant, networkId, user, profile, !login) {
      var n := db.networks[networkId].data;
      PolicyServes(n, user, profile);
      if MayServe(n, user, profile) {
        ServesPeer(config, db, tenant, networkId, user, profile, deviceName, env);
      }
    }
  }

  // ---- the bootstrap

  /** With a profile chosen, and a code to mark as used or none: refused for the peer, or stored, applied and answered. */
  ghost predicate BootstrapsWith(config: Config, db: Db, p: Principal, deviceName: string, coded: bool, user: User,
                                 profile: Option<Profile>, code: Option<(Id, Enrollment)>, networkId: Id, env: Env, out: Outcome)
  {
    if !WantsVpn(config, db, p.tenant, networkId, user, profile, coded) then
      exists id, device, response ::
        && DeviceIs(db, p, deviceName, env, id, device)
        && Answers(response, db, p, user, profile, coded, networkId, None, id, device)
        && out == Outcome(Booted(db, p, id, device, code, None, env.now), response, Unchanged)
    else
      var n := db.networks[networkId].data;
      if !MayServe(n, user, profile) then out == Outcome(db, Refused(ServerError), Unchanged)
      else
        exists x, k ::
          && IsClientPeer(x, n, networkId, user, profile, deviceName, env)
          && PeerId(db, p.tenant, networkId, x.address, env, k)
          && (if KeyInUse(db, p.tenant, networkId, env.publicKey, k) then out == Outcome(db, Refused(ServerError), Unchanged)
              else BootedWithPeer(config, db, p, deviceName, coded, user, profile, code, networkId, env, x, k, out))
  }

  ghost predicate BootedWithPeer(config: Config, db: Db, p: Principal, deviceName: string, coded: bool, user: User,
                                 profile: Option<Profile>, code: Option<(Id, Enrollment)>, networkId: Id, env: Env, x: Peer, k: Id,
                                 out: Outcome)
    requires networkId in db.networks
  {
    exists id, device, text, response ::
      && DeviceIs(db, p, deviceName, env, id, device)
      && IsClientText(config, db.networks[networkId].data, x, true, env, text)
      && Answers(response, db, p, user, profile, coded, networkId, text, id, device)
      && AppliedThen(config, db, p.tenant, Booted(db, p, id, device, code, Some((k, x)), env.now), networkId, env, response, out)
  }

  lemma CommittedWithoutPeer(config: Config, db: Db, p: Principal, d: Clients.Decided, env: Env)
    requires d.saved.Changes? && d.saved.peer.None?
    ensures Clients.Committed(config, db, p, d, env) == Outcome(Clients.Apply(db, p, d.saved, env.now), d.response, Unchanged)
  {
    hide Clients.Apply, Own;
  }

  /** The decision about a chosen profile, from the peer, the device and the answer. */
  ghost predicate DecidesWith(config: Config, own: Db, p: Principal, deviceName: string, login: bool, user: User, profile: Option<Profile>,
                              code: Option<(Id, Enrollment)>, env: Env, d: Clients.Decided)
  {
    var issued := Clients.BootstrapPeer(config, own, user, deviceName, profile, login, env);
    var (id, device, isNew) := Clients.DeviceFor(own, p.subject, deviceName, env);
    d == if issued.Some? && issued.value.NotIssued? then Clients.Reject(issued.value.status)
         else
           Clients.Decided(Clients.Changes(if isNew then Some((id, device)) else None, code,
                                           if issued.Some? then Some(issued.value.change) else None, ClientBootstrapped, OnDevice, id),
                           Clients.BootstrapResponse(config, own, user, profile, login, issued, id, device, env))
  }

  lemma DecisionBootstraps(config: Config, db: Db, p: Principal, deviceName: string, login: bool, user: User, profile: Option<Profile>,
                           code: Option<(Id, Enrollment)>, env: Env, networkId: Id, d: Clients.Decided)
    requires ValidEnv(config, db, env) && Settled(config, db) && NetworkId(db, p.tenant, env, networkId)
    requires DecidesWith(config, View(db, p.tenant), p, deviceName, login, user, profile, code, env, d)
    ensures BootstrapsWith(config, db, p, deviceName, !login, user, profile, code, networkId, env, Clients.Committed(config, db, p, d, env))
  {
    var own := View(db, p.tenant);
    var issued := Clients.BootstrapPeer(config, own, user, deviceName, profile, login, env);
    var (id, device, isNew) := Clients.DeviceFor(own, p.subject, deviceName, env);
    hide View, ValidEnv, Settled, Clients.BootstrapPeer, Clients.DeviceFor, Clients.Committed, DeviceIs, PeerIssued, BootstrapsWith;
    hide Clients.BootstrapResponse, Answers, NetworkId, Booted, Clients.Apply;
    PeerIsIssued(config, db, p.tenant, networkId, user, profile, deviceName, login, env);
    DeviceFound(config, db, p, deviceName, env);
    if issued.Some? && issued.value.NotIssued? {
      NothingSaved(config, db, p, d, env);
      RefusedPeer(config, db, p, deviceName, login, user, profile, code, env, networkId, issued.value);
    } else {
      ResponseAnswers(config, db, p, user, profile, login, issued, id, device, env, networkId);
      ApplyBoots(db, p, id, device, isNew, code, if issued.Some? then Some(issued.value.change) else None, env.now);
      if issued.None? {
        CommittedWithoutPeer(config, db, p, d, env);
        WithoutPeer(config, db, p, deviceName, login, user, profile, code, env, networkId, id, device, d.response);
      } else {
        WithPeer(config, db, p, deviceName, login, user, profile, code, env, networkId, d, id, device, issued.value);
      }
    }
  }

  lemma RefusedPeer(config: Config, db: Db, p: Principal, deviceName: string, login: bool, user: User, profile: Option<Profile>,
                    code: Option<(Id, Enrollment)>, env: Env, networkId: Id, issued: Clients.Issued)
    requires issued.NotIssued? && PeerIssued(config, db, p.tenant, networkId, user, profile, deviceName, !login, env, Some(issued))
    ensures BootstrapsWith(config, db, p, deviceName, !login, user, profile, code, networkId, env,
                           Outcome(db, Refused(issued.status), Unchanged))
  {
    hide MayServe, IsClientPeer, IssuedAs, BootedWithPeer, Answers, DeviceIs, Booted, PeerId, KeyInUse;
    if WantsVpn(config, db, p.tenant, networkId, user, profile, !login) && MayServe(db.networks[networkId].data, user, profile) {
      var x :| IsClientPeer(x, db.networks[networkId].data, networkId, user, profile, deviceName, env)
               && IssuedAs(config, db, p.tenant, networkId, x, env, issued);
      KeyStopsIssue(config, db, p.tenant, networkId, x, env, issued);
    }
  }

  lemma WithoutPeer(config: Config, db: Db, p: Principal, deviceName: string, login: bool, user: User, profile: Option<Profile>,
                    code: Option<(Id, Enrollment)>, env: Env, networkId: Id, id: Id, device: Device, response: Response)
    requires PeerIssued(config, db, p.tenant, networkId, user, profile, deviceName, !login, env, None)
    requires DeviceIs(db, p, deviceName, env, id, device)
    requires Answers(response, db, p, user, profile, !login, networkId, None, id, device)
    ensures BootstrapsWith(config, db, p, deviceName, !login, user, profile, code, networkId, env,
                           Outcome(Booted(db, p, id, device, code, None, env.now), response, Unchanged))
  {
    hide WantsVpn, MayServe, IsClientPeer, IssuedAs, BootedWithPeer, Answers, DeviceIs, Booted;
  }

  lemma WithPeer(config: Config, db: Db, p: Principal, deviceName: string, login: bool, user: User, profile: Option<Profile>,
                 code: Option<(Id, Enrollment)>, env: Env, networkId: Id, d: Clients.Decided, id: Id, device: Device,
                 issued: Clients.Issued)
    requires issued.Issued? && PeerIssued(config, db, p.tenant, networkId, user, profile, deviceName, !login, env, Some(issued))
    requires d.saved.Changes? && d.saved.peer == Some(issued.change)
    requires Clients.Apply(db, p, d.saved, env.now)
          == Booted(db, p, id, device, code, Some((issued.change.id, issued.change.peer)), env.now)
    requires DeviceIs(db, p, deviceName, env, id, device)
    requires Answers(d.response, db, p, user, profile, !login, networkId, issued.text, id, device)
    ensures BootstrapsWith(config, db, p, deviceName, !login, user, profile, code, networkId, env, Clients.Committed(config, db, p, d, env))
  {
    hide MayServe, IsClientPeer, IssuedAs, BootedWithPeer, Answers, DeviceIs, Booted, Clients.Committed, Clients.Apply, KeyInUse, PeerId;
    var x :| IsClientPeer(x, db.networks[networkId].data, networkId, user, profile, deviceName, env)
             && IssuedAs(config, db, p.tenant, networkId, x, env, issued);
    IssueBoots(config, db, p, deviceName, login, user, profile, code, env, networkId, d, x, id, device, issued);
  }

  lemma KeyStopsIssue(config: Config, db: Db, tenant: string, networkId: Id, x: Peer, env: Env, r: Clients.Issued)
    requires networkId in db.networks && IssuedAs(config, db, tenant, networkId, x, env, r) && r.NotIssued?
    ensures r == Clients.NotIssued(ServerError)
    ensures exists k :: PeerId(db, tenant, networkId, x.address, env, k) && KeyInUse(db, tenant, networkId, env.publicKey, k)
  {
    hide PeerId, KeyInUse, IsClientText;
  }

  lemma IssueBoots(config: Config, db: Db, p: Principal, deviceName: string, login: bool, user: User, profile: Option<Profile>,
                   code: Option<(Id, Enrollment)>, env: Env, networkId: Id, d: Clients.Decided, x: Peer, id: Id, device: Device,
                   issued: Clients.Issued)
    requires networkId in db.networks && issued.Issued? && IssuedAs(config, db, p.tenant, networkId, x, env, issued)
    requires d.saved.Changes? && d.saved.peer == Some(issued.change)
    requires Clients.Apply(db, p, d.saved, env.now)
          == Booted(db, p, id, device, code, Some((issued.change.id, issued.change.peer)), env.now)
    requires DeviceIs(db, p, deviceName, env, id, device)
    requires Answers(d.response, db, p, user, profile, !login, networkId, issued.text, id, device)
    ensures exists k :: PeerId(db, p.tenant, networkId, x.address, env, k) && !KeyInUse(db, p.tenant, networkId, env.publicKey, k)
                        && BootedWithPeer(config, db, p, deviceName, !login, user, profile, code, networkId, env, x, k,
                                          Clients.Committed(config, db, p, d, env))
  {
    hide AppliedThen, PeerId, KeyInUse, IsClientText, Clients.Committed, Clients.Apply, Booted, DeviceIs, Answers;
    var k :| PeerId(db, p.tenant, networkId, x.address, env, k)
             && (if KeyInUse(db, p.tenant, networkId, env.publicKey, k) then issued == Clients.NotIssued(ServerError)
                 else
                   && issued.change == Clients.PeerChange(k, x, networkId, db.networks[networkId].data)
                   && IsClientText(config, db.networks[networkId].data, x, true, env, issued.text));
    CommittedWithPeer(config, db, p, d, env);
  }

  lemma ChosenDecides(config: Config, own: Db, p: Principal, deviceName: string, code: Option<string>, user: User, env: Env)
    requires Clients.Choose(config, own, p.subject, code, env).Chosen?
    ensures var c := Clients.Choose(config, own, p.subject, code, env);
            DecidesWith(config, own, p, deviceName, !Coded(code), user, c.profile, c.code, env,
                        Clients.UserDecision(config, own, p, Clients.Bootstrap(deviceName, code), user, env))
  {
    hide Clients.BootstrapPeer, Clients.DeviceFor, Clients.BootstrapResponse, Clients.Choose, Clients.OwnChanges;
  }

  lemma NotChosenDecides(config: Config, own: Db, p: Principal, deviceName: string, code: Option<string>, user: User, env: Env)
    requires Clients.Choose(config, own, p.subject, code, env).NotChosen?
    ensures Clients.UserDecision(config, own, p, Clients.Bootstrap(deviceName, code), user, env)
         == Clients.Reject(Clients.Choose(config, own, p.subject, code, env).status)
  {
    hide Clients.BootstrapPeer, Clients.DeviceFor, Clients.BootstrapResponse, Clients.Choose, Clients.OwnChanges;
  }

  lemma UserDecides(config: Config, db: Db, p: Principal, deviceName: string, code: Option<string>, env: Env, u: Id)
    requires ValidEnv(config, db, env) && UniqueSubjects(db.users) && UserRow(db, p, u)
    ensures Clients.Exec(config, db, p, Clients.Bootstrap(deviceName, code), env)
         == Clients.Committed(config, db, p, Clients.UserDecision(config, View(db, p.tenant), p, Clients.Bootstrap(deviceName, code),
                                                                  db.users[u].data, env), env)
  {
    UserFound(config, db, p, env);
    hide View, ValidEnv, UniqueSubjects, UserRow, Clients.ActiveUser, Clients.UserDecision, Clients.Committed, Clients.OwnChanges;
  }

  /** Only an active user of the tenant is served. */
  lemma NobodyBootstraps(config: Config, db: Db, p: Principal, deviceName: string, code: Option<string>, env: Env)
    requires ValidEnv(config, db, env) && UniqueSubjects(db.users) && forall u :: !UserRow(db, p, u)
    ensures Clients.Exec(config, db, p, Clients.Bootstrap(deviceName, code), env) == Outcome(db, Refused(Forbidden), Unchanged)
    ensures Clients.Exec(config, db, p, Clients.EnrollVpn(deviceName), env) == Outcome(db, Refused(Conflict), Unchanged)
  {
    UserFound(config, db, p, env);
    hide View, ValidEnv, UniqueSubjects, UserRow, Clients.ActiveUser, Clients.UserDecision, Clients.OwnChanges;
  }

  /** At login the latest profile assigned to the user is delivered, or none where none is assigned; no code is touched. */
  lemma LoggedInClient(config: Config, db: Db, p: Principal, deviceName: string, code: Option<string>, env: Env, u: Id, networkId: Id)
    requires ValidEnv(config, db, env) && Settled(config, db) && NetworkId(db, p.tenant, env, networkId)
    requires UserRow(db, p, u) && !Coded(code)
    ensures var out := Clients.Exec(config, db, p, Clients.Bootstrap(deviceName, code), env);
            exists profile :: ChosenByLogin(db, p, profile)
                              && BootstrapsWith(config, db, p, deviceName, false, db.users[u].data, profile, None, networkId, env, out)
  {
    var own, user := View(db, p.tenant), db.users[u].data;
    var d := Clients.UserDecision(config, own, p, Clients.Bootstrap(deviceName, code), user, env);
    UserDecides(config, db, p, deviceName, code, env, u);
    LoginChooses(config, db, p, code, env);
    ChosenDecides(config, own, p, deviceName, code, user, env);
    var profile := Clients.Choose(config, own, p.subject, code, env).profile;
    DecisionBootstraps(config, db, p, deviceName, true, user, profile, None, env, networkId, d);
    hide View, ValidEnv, Settled, NetworkId, UserRow, Clients.UserDecision, Clients.Choose, BootstrapsWith, ChosenByLogin, Clients.Exec;
    hide Clients.Committed, DecidesWith;
  }

  /**
   * With a code, the profile of the caller's own code is delivered, and its first use recorded, unless the code is not the
   * caller's, expired unused, or for a profile that is no longer assigned.
   */
  lemma CodedClient(config: Config, db: Db, p: Principal, deviceName: string, code: string, env: Env, u: Id, networkId: Id)
    requires ValidEnv(config, db, env) && Settled(config, db) && NetworkId(db, p.tenant, env, networkId)
    requires UserRow(db, p, u) && code != ""
    ensures var out := Clients.Exec(config, db, p, Clients.Bootstrap(deviceName, Some(code)), env);
            && ((forall e :: !CodeRow(config, db, p, code, e)) ==> out == Outcome(db, Refused(Forbidden), Unchanged))
            && forall e :: CodeRow(config, db, p, code, e) ==>
                 match CodeChoice(db, p, e, env.now)
                 case NotChosen(status) => out == Outcome(db, Refused(status), Unchanged)
                 case Chosen(profile, used) =>
                   BootstrapsWith(config, db, p, deviceName, true, db.users[u].data, profile, used, networkId, env, out)
  {
    var own, user := View(db, p.tenant), db.users[u].data;
    var d := Clients.UserDecision(config, own, p, Clients.Bootstrap(deviceName, Some(code)), user, env);
    UserDecides(config, db, p, deviceName, Some(code), env, u);
    CodeChooses(config, db, p, code, env);
    var c := Clients.Choose(config, own, p.subject, Some(code), env);
    match c {
      case NotChosen(status) =>
        NotChosenDecides(config, own, p, deviceName, Some(code), user, env);
        hide View, ValidEnv, Settled, NetworkId, UserRow, Clients.UserDecision, Clients.Choose, Clients.Committed, CodeRow, Clients.Exec;
        NothingSaved(config, db, p, d, env);
      case Chosen(profile, used) =>
        ChosenDecides(config, own, p, deviceName, Some(code), user, env);
        hide View, ValidEnv, Settled, NetworkId, UserRow, Clients.UserDecision, Clients.Choose, BootstrapsWith, Clients.Exec;
        hide Clients.Committed, DecidesWith, CodeRow;
        DecisionBootstraps(config, db, p, deviceName, false, user, profile, used, env, networkId, d);
    }
  }

  // ---- the routes that a client is given

  /**
   * A configuration that a bootstrap hands out is that of a stored peer whose routes are the profile's, normalized, and
   * without a profile the user's own, or the whole block of the network. Where its lines carry the endpoint and the DNS
   * server, the text reads with exactly these routes.
   */
  lemma DeliveredRoutes(config: Config, db: Db, p: Principal, deviceName: string, coded: bool, user: User, profile: Option<Profile>,
                        code: Option<(Id, Enrollment)>, networkId: Id, env: Env, out: Outcome)
    requires BootstrapsWith(config, db, p, deviceName, coded, user, profile, code, networkId, env, out)
    requires out.response.Bootstrapped? && out.response.vpnProfile.Some? && Runtime.Installed(config) && Runtime.KeyPair(env)
    ensures Has(db.networks, p.tenant, networkId)
    ensures var n := db.networks[networkId].data;
            exists k :: Has(out.db.peers, p.tenant, k)
              && Routes.NormalizeAllowedIps(RoutesOwed(n, user, profile)) == Ok(out.db.peers[k].data.allowedIps)
              && (ClientConfig.FieldsCarried(n) ==>
                    Handshake.ClientSide(config, n, env.privateKey, out.db.peers[k].data.address, out.db.peers[k].data.allowedIps,
                                         out.response.vpnProfile.value))
  {
    hide DeviceIs, AreShares, Routes.NormalizeAllowedIps, Routes.AddressBelongs, X25519.ValidateKey, X25519.PublicKeyText, PeerId;
    hide ClientConfig.FieldsCarried, Handshake.ClientSide, ClientConfig.RenderClient, KeyInUse, IsTextOf, IsClientText, RoutesOwed;
    hide AddressOwed;
    var n := db.networks[networkId].data;
    var x, k :| IsClientPeer(x, n, networkId, user, profile, deviceName, env)
                && PeerId(db, p.tenant, networkId, x.address, env, k)
                && (if KeyInUse(db, p.tenant, networkId, env.publicKey, k) then out == Outcome(db, Refused(ServerError), Unchanged)
                    else BootedWithPeer(config, db, p, deviceName, coded, user, profile, code, networkId, env, x, k, out));
    StoredWithPeer(config, db, p, deviceName, coded, user, profile, code, networkId, env, x, k, out);
    CleanFields(n, user, profile, x, networkId, deviceName, env);
    TextReads(config, n, x, env, out.response.vpnProfile.value);
  }

  lemma StoredWithPeer(config: Config, db: Db, p: Principal, deviceName: string, coded: bool, user: User, profile: Option<Profile>,
                       code: Option<(Id, Enrollment)>, networkId: Id, env: Env, x: Peer, k: Id, out: Outcome)
    requires networkId in db.networks && out.response.Bootstrapped?
    requires BootedWithPeer(config, db, p, deviceName, coded, user, profile, code, networkId, env, x, k, out)
    ensures Has(out.db.peers, p.tenant, k) && out.db.peers[k].data == x
    ensures IsClientText(config, db.networks[networkId].data, x, true, env, out.response.vpnProfile)
  {
    hide DeviceIs, AreShares, IsClientText, IsTextOf, X25519.ValidateKey;
  }

  lemma CleanFields(n: Network, user: User, profile: Option<Profile>, x: Peer, networkId: Id, deviceName: string, env: Env)
    requires IsClientPeer(x, n, networkId, user, profile, deviceName, env)
    ensures ServerConfig.Clean(x.address) && ServerConfig.Clean(x.allowedIps)
  {
    hide Routes.NormalizeAllowedIps, Routes.AddressBelongs, ServerConfig.Clean, RoutesOwed, AddressOwed;
    Runtime.AcceptedAddressIsClean(n.addressCidr, AddressOwed(user));
    Handshake.NormalizedIsClean(RoutesOwed(n, user, profile));
  }

  lemma TextReads(config: Config, n: Network, x: Peer, env: Env, text: string)
    requires Runtime.Installed(config) && Runtime.KeyPair(env) && ServerConfig.Clean(x.address) && ServerConfig.Clean(x.allowedIps)
    requires IsClientText(config, n, x, true, env, Some(text))
    ensures ClientConfig.FieldsCarried(n) ==> Handshake.ClientSide(config, n, env.privateKey, x.address, x.allowedIps, text)
  {
    hide ClientConfig.FieldsCarried, Handshake.ClientSide, ClientConfig.RenderClient, X25519.ValidateKey, X25519.PublicKeyText;
    Handshake.ClientTextReads(config, n, env, x.address, x.allowedIps);
  }
}
