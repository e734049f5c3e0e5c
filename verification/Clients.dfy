/** What an installed client asks for: its bootstrap at login or with an enrollment code, and a rotated VPN profile. */
module Clients {
  import opened Wrappers
  import opened Rows
  import opened Tables
  import opened Session
  import opened Text
  import Accounts
  import Deployments
  import Routes
  import StringOrder
  import Vpn
  import X25519

  datatype ClientOp =
    | Bootstrap(deviceName: string, enrollmentCode: Option<string>)
    | EnrollVpn(deviceName: string)

  // ---- queries

  function ActiveUser(own: Db, subject: string, env: Env): (id: Option<Id>)
    ensures id.Some? ==> id.value in own.users
  {
    First(env.order, Accounts.Active(own.users, subject))
  }

  function UsableDevices(rows: Table<Device>, owner: string, name: string): set<Id> {
    set id | id in rows && rows[id].data.owner == owner && rows[id].data.name == name && rows[id].data.revokedAt.None?
  }

  function Codes(rows: Table<Enrollment>, hash: string, subject: string): set<Id> {
    set id | id in rows && rows[id].data.tokenHash == hash && rows[id].data.subject == subject
  }

  predicate Assigned(rows: Table<Profile>, id: Id, subject: string) {
    id in rows && rows[id].data.enabled && subject in rows[id].data.targetSubjects
  }

  /** Listed by latest update, then by name. */
  predicate ListedBefore(a: Profile, b: Profile) {
    a.updatedAt > b.updatedAt || (a.updatedAt == b.updatedAt && StringOrder.Less(a.name, b.name))
  }

  /** The first assigned profile of the listing. */
  function LatestAssigned(order: seq<Id>, rows: Table<Profile>, subject: string): (id: Option<Id>)
    ensures id.Some? ==> Assigned(rows, id.value, subject)
  {
    if order == [] then None
    else
      var later := LatestAssigned(order[1..], rows, subject);
      if Assigned(rows, order[0], subject) && (later.None? || !ListedBefore(rows[later.value].data, rows[order[0]].data))
      then Some(order[0]) else later
  }

  lemma {:induction false} LatestIsFirst(order: seq<Id>, rows: Table<Profile>, subject: string, id: Id)
    requires id in order && Assigned(rows, id, subject)
    ensures var chosen := LatestAssigned(order, rows, subject);
            chosen.Some? && !ListedBefore(rows[id].data, rows[chosen.value].data)
  {
    var later := LatestAssigned(order[1..], rows, subject);
    if id == order[0] {
      StringOrder.LessIrreflexive(rows[id].data.name);
      if later.Some? {
        LessAsymmetric(rows[id].data.name, rows[later.value].data.name);
      }
    } else {
      LatestIsFirst(order[1..], rows, subject, id);
      if Assigned(rows, order[0], subject) && !ListedBefore(rows[later.value].data, rows[order[0]].data) {
        NotBeforeTransitive(rows[id].data, rows[later.value].data, rows[order[0]].data);
      }
    }
  }

  lemma LessAsymmetric(a: string, b: string)
    ensures !(StringOrder.Less(a, b) && StringOrder.Less(b, a))
  {
    if StringOrder.Less(a, b) && StringOrder.Less(b, a) {
      StringOrder.LessTransitive(a, b, a);
      StringOrder.LessIrreflexive(a);
    }
  }

  lemma NotBeforeTransitive(a: Profile, b: Profile, c: Profile)
    requires !ListedBefore(a, b) && !ListedBefore(b, c)
    ensures !ListedBefore(a, c)
  {
    if ListedBefore(a, c) {
      StringOrder.LessTotal(b.name, c.name);
      if StringOrder.Less(c.name, b.name) {
        StringOrder.LessTransitive(a.name, c.name, b.name);
      }
    }
  }

  function AtAddress(rows: Table<Peer>, networkId: Id, address: string): set<Id> {
    set id | id in rows && rows[id].data.networkId == networkId && rows[id].data.address == address
  }

  /** Another peer of the network with the same key. */
  predicate KeyTaken(rows: Table<Peer>, networkId: Id, publicKey: string, except: Id) {
    exists id :: id in rows && id != except && rows[id].data.networkId == networkId && rows[id].data.publicKey == publicKey
  }

  // ---- what is saved

  datatype PeerChange = PeerChange(id: Id, peer: Peer, networkId: Id, network: Network)

  /** Rows that one request saves, and the event it logs. */
  datatype Saved =
    | Nothing
    | Changes(device: Option<(Id, Device)>, code: Option<(Id, Enrollment)>, peer: Option<PeerChange>,
              action: Action, targetType: TargetType, targetId: Id)

  datatype Decided = Decided(saved: Saved, response: Response)

  function PutOption<D>(t: Table<D>, tenant: string, o: Option<(Id, D)>): Table<D> {
    match o
    case None => t
    case Some((id, d)) => Put(t, tenant, id, d)
  }

  function PeerPair(c: Option<PeerChange>): Option<(Id, Peer)> {
    if c.None? then None else Some((c.value.id, c.value.peer))
  }

  /** Only devices, enrollment codes, peers and the log change. */
  ghost predicate Untouched(a: Db, b: Db) {
    && b.initialized == a.initialized && b.users == a.users && b.requests == a.requests && b.servers == a.servers
    && b.networks == a.networks && b.profiles == a.profiles
  }

  function Apply(db: Db, p: Principal, saved: Saved, now: Time): (next: Db)
    ensures Untouched(db, next)
  {
    match saved
    case Nothing => db
    case Changes(device, code, peer, action, targetType, targetId) =>
      Audit(db.(devices := PutOption(db.devices, p.tenant, device), enrollments := PutOption(db.enrollments, p.tenant, code),
                peers := PutOption(db.peers, p.tenant, PeerPair(peer))),
            p, action, targetType, targetId, now)
  }

  /** The tables that no client endpoint changes. */
  function Rest(db: Db): Db {
    db.(devices := map[], enrollments := map[], peers := map[])
  }

  function Reject(status: Status): Decided {
    Decided(Nothing, Refused(status))
  }

  // ---- which profile a bootstrap delivers

  datatype Choice = NotChosen(status: Status) | Chosen(profile: Option<Profile>, code: Option<(Id, Enrollment)>)

  /** A code is good until its expiry, and for ever once it was used before that, for its own tenant and subject. */
  function ByCode(own: Db, subject: string, hash: string, env: Env): Choice {
    var found := First(env.order, Codes(own.enrollments, hash, subject));
    if found.None? then NotChosen(Forbidden)
    else
      var code := own.enrollments[found.value].data;
      if code.usedAt.None? && code.expiresAt <= env.now then NotChosen(Gone)
      else if !Assigned(own.profiles, code.profileId, subject) then NotChosen(Conflict)
      else
        Chosen(Some(own.profiles[code.profileId].data),
               if code.usedAt.None? then Some((found.value, code.(usedAt := Some(env.now)))) else None)
  }

  function ByLogin(own: Db, subject: string, env: Env): Choice {
    var id := LatestAssigned(env.order, own.profiles, subject);
    Chosen(if id.Some? then Some(own.profiles[id.value].data) else None, None)
  }

  predicate IsLogin(enrollmentCode: Option<string>) {
    enrollmentCode.None? || enrollmentCode.value == ""
  }

  function Choose(config: Config, own: Db, subject: string, enrollmentCode: Option<string>, env: Env): (c: Choice)
    ensures c.Chosen? && c.code.Some? ==> c.code.value.0 in own.enrollments
  {
    if IsLogin(enrollmentCode) then ByLogin(own, subject, env)
    else ByCode(own, subject, config.hash(enrollmentCode.value), env)
  }

  // ---- the peer of a client

  /** The peer at the address, or a new one, takes the device's name and the fresh key, and is enabled. */
  function ClientPeer(own: Db, networkId: Id, subject: string, deviceName: string, address: string, routes: string, env: Env): PeerChange
    requires networkId in own.networks
  {
    var found := First(env.order, AtAddress(own.peers, networkId, address));
    var peer := Peer(networkId, "client:" + subject + ":" + deviceName, env.publicKey, address, routes, 25, true, None);
    PeerChange(if found.Some? then found.value else env.newPeerId, peer, networkId, own.networks[networkId].data)
  }

  datatype Issued = NotIssued(status: Status) | Issued(change: PeerChange, text: Option<string>)

  function Issue(config: Config, own: Db, networkId: Id, subject: string, deviceName: string, address: string, routes: string, env: Env)
    : (r: Issued)
    requires networkId in own.networks
    ensures r.Issued? ==> r.change.id == env.newPeerId || r.change.id in own.peers
    ensures r.Issued? ==> r.change.networkId == networkId
  {
    var change := ClientPeer(own, networkId, subject, deviceName, address, routes, env);
    if KeyTaken(own.peers, networkId, env.publicKey, change.id) then NotIssued(ServerError)
    else Issued(change, Vpn.ClientText(config, change.network, env.privateKey, address, routes))
  }

  // ---- what each endpoint decides, from the rows its tenant owns

  /** The address and the routes of a user's peer. */
  function PeerPolicy(network: Network, user: User, profile: Option<Profile>): Option<(string, string)> {
    var address := Routes.AddressBelongs(network.addressCidr, if user.vpnAddress.Some? then user.vpnAddress.value else "");
    var routes := if profile.Some? then Routes.NormalizeAllowedIps(profile.value.allowedIps)
                  else Vpn.RoutesOr(network, Some(user.allowedIps));
    if address.Err? || routes.Err? then None else Some((address.value, routes.value))
  }

  predicate HasAddress(user: User) {
    user.vpnAddress.Some? && user.vpnAddress.value != ""
  }

  predicate WantsVpn(config: Config, user: User, profile: Option<Profile>, login: bool) {
    HasAddress(user) && config.wireguardKey != "" && (profile.None? || !login || profile.value.vpnOnLogin)
  }

  /** None: no VPN in this bootstrap. Rejected addresses or routes of stored rows are not handled: a server error. */
  function BootstrapPeer(config: Config, own: Db, user: User, deviceName: string, profile: Option<Profile>, login: bool, env: Env)
    : (r: Option<Issued>)
    ensures r.Some? && r.value.Issued? ==> r.value.change.id == env.newPeerId || r.value.change.id in own.peers
    ensures r.Some? && r.value.Issued? ==> Vpn.TheNetwork(own, env) == Some(r.value.change.networkId)
  {
    var found := Vpn.TheNetwork(own, env);
    if found.None? || !WantsVpn(config, user, profile, login) then None
    else
      match PeerPolicy(own.networks[found.value].data, user, profile)
      case None => Some(NotIssued(ServerError))
      case Some((address, routes)) => Some(Issue(config, own, found.value, user.subject, deviceName, address, routes, env))
  }

  function DeviceFor(own: Db, owner: string, name: string, env: Env): (r: (Id, Device, bool))
    ensures r.2 ==> r.0 == env.newId && r.1 == Device(owner, name, true, None)
  {
    var found := First(env.order, UsableDevices(own.devices, owner, name));
    if found.Some? then (found.value, own.devices[found.value].data, false)
    else (env.newId, Device(owner, name, true, None), true)
  }

  /** The network description needs the server's public key, even where no VPN is delivered. */
  predicate NetworkReadable(config: Config, network: Option<Id>) {
    network.None? || config.wireguardKey == "" || X25519.ValidateKey(config.wireguardKey).Ok?
  }

  function BootstrapDecision(config: Config, own: Db, p: Principal, op: ClientOp, env: Env): (d: Decided)
    requires op.Bootstrap?
    ensures OwnChanges(own, d.saved, env)
  {
    var found := ActiveUser(own, p.subject, env);
    if found.None? then Reject(Forbidden) else UserDecision(config, own, p, op, own.users[found.value].data, env)
  }

  function UserDecision(config: Config, own: Db, p: Principal, op: ClientOp, user: User, env: Env): (d: Decided)
    requires op.Bootstrap?
    ensures OwnChanges(own, d.saved, env)
  {
    var login := IsLogin(op.enrollmentCode);
    match Choose(config, own, p.subject, op.enrollmentCode, env)
    case NotChosen(status) => Reject(status)
    case Chosen(profile, code) =>
      var issued := BootstrapPeer(config, own, user, op.deviceName, profile, login, env);
      if issued.Some? && issued.value.NotIssued? then Reject(issued.value.status)
      else
        var (id, device, isNew) := DeviceFor(own, p.subject, op.deviceName, env);
        var saved := Changes(if isNew then Some((id, device)) else None, code,
                             if issued.Some? then Some(issued.value.change) else None, ClientBootstrapped, OnDevice, id);
        Decided(saved, BootstrapResponse(config, own, user, profile, login, issued, id, device, env))
  }

  function SharesOf(server: FileServer, shares: seq<string>): seq<Share> {
    if shares == [] then []
    else
      var n := |shares| - 1;
      SharesOf(server, shares[..n]) + [ShareOf(server, shares[n])]
  }

  function ShareOf(server: FileServer, share: string): Share {
    Share(server.name + " - " + share, "\\\\" + server.host + "\\" + share)
  }

  /** The shares of the enabled servers among the given ids, server by server. */
  function SharesIn(order: seq<Id>, rows: Table<FileServer>, ids: seq<Id>): seq<Share> {
    if order == [] then []
    else
      var init, id := SharesIn(order[..|order| - 1], rows, ids), order[|order| - 1];
      if id in Deployments.EnabledServers(rows, ids) then init + SharesOf(rows[id].data, rows[id].data.shares) else init
  }

  lemma {:induction false} SharesOfServer(server: FileServer, shares: seq<string>)
    ensures forall x :: x in SharesOf(server, shares) <==> exists k :: 0 <= k < |shares| && x == ShareOf(server, shares[k])
  {
    if shares == [] {
    } else {
      var n := |shares| - 1;
      SharesOfServer(server, shares[..n]);
      hide ShareOf;
      forall k, x | 0 <= k < |shares| && x == ShareOf(server, shares[k]) ensures x in SharesOf(server, shares) {
        if k < n {
          assert shares[..n][k] == shares[k];
        }
      }
    }
  }

  /** A share of a row that the profile names. */
  ghost predicate IsShareOf(x: Share, rows: Table<FileServer>, ids: seq<Id>, id: Id) {
    && id in ids && id in rows && rows[id].data.enabled
    && exists k :: 0 <= k < |rows[id].data.shares| && x == ShareOf(rows[id].data, rows[id].data.shares[k])
  }

  /** A client is told of exactly the shares of the enabled file servers that its profile names. */
  lemma {:induction false} DeliveredShares(order: seq<Id>, rows: Table<FileServer>, ids: seq<Id>, x: Share)
    ensures x in SharesIn(order, rows, ids) <==> exists id :: id in order && IsShareOf(x, rows, ids, id)
  {
    if order == [] {
    } else {
      var init, last := order[..|order| - 1], order[|order| - 1];
      DeliveredShares(init, rows, ids, x);
      if last in rows {
        SharesOfServer(rows[last].data, rows[last].data.shares);
      }
      hide ShareOf;
      assert IsShareOf(x, rows, ids, last) <==>
          last in Deployments.EnabledServers(rows, ids) && x in SharesOf(rows[last].data, rows[last].data.shares);
      hide IsShareOf;
      assert order == init + [last];
    }
  }

  function BootstrapResponse(config: Config, own: Db, user: User, profile: Option<Profile>, login: bool, issued: Option<Issued>,
                             id: Id, device: Device, env: Env): Response
    requires issued.Some? ==> issued.value.Issued?
  {
    var network := Vpn.TheNetwork(own, env);
    var shares := if profile.Some? && (!login || profile.value.sharesOnLogin)
                  then SharesIn(env.order, own.servers, profile.value.fileServerIds) else [];
    if !NetworkReadable(config, network) then Refused(ServerError)
    else
      Bootstrapped(user.policyVersion, user, if network.Some? then Some(own.networks[network.value].data) else None,
                   if issued.Some? then issued.value.text else None, shares, id, device)
  }

  function EnrollDecision(config: Config, own: Db, p: Principal, deviceName: string, env: Env): (d: Decided)
    ensures OwnChanges(own, d.saved, env)
  {
    var found, network := ActiveUser(own, p.subject, env), Vpn.TheNetwork(own, env);
    if found.None? || !HasAddress(own.users[found.value].data) then Reject(Conflict)
    else if network.None? then Reject(NotFound)
    else if config.wireguardKey == "" then Reject(Unavailable)
    else
      match PeerPolicy(own.networks[network.value].data, own.users[found.value].data, None)
      case None => Reject(Unprocessable)
      case Some((address, routes)) =>
        match Issue(config, own, network.value, p.subject, Strip(deviceName), address, routes, env)
        case NotIssued(status) => Reject(status)
        case Issued(change, text) =>
          Decided(Changes(None, None, Some(change), VpnClientEnrolled, OnPeer, change.id), PeerRead(change.id, change.peer, text))
  }

  /** New rows take the drawn ids, changed rows are the tenant's own, and the peer is in the tenant's network. */
  ghost predicate OwnChanges(own: Db, saved: Saved, env: Env) {
    saved.Changes? ==>
      && (saved.device.Some? ==> saved.device.value.0 == env.newId)
      && (saved.code.Some? ==> saved.code.value.0 in own.enrollments)
      && (saved.peer.Some? ==> saved.peer.value.id == env.newPeerId || saved.peer.value.id in own.peers)
      && (saved.peer.Some? ==> Vpn.TheNetwork(own, env) == Some(saved.peer.value.networkId))
      && saved.targetType != OnSupportRequest
  }

  function Decide(config: Config, own: Db, p: Principal, op: ClientOp, env: Env): (d: Decided)
    ensures OwnChanges(own, d.saved, env)
  {
    match op
    case Bootstrap(_, _) => BootstrapDecision(config, own, p, op, env)
    case EnrollVpn(deviceName) => EnrollDecision(config, own, p, deviceName, env)
  }

  function SyncPeer(config: Config, peers: Table<Peer>, change: Option<PeerChange>, env: Env): Vpn.Sync {
    if change.None? then Vpn.Synced(Unchanged)
    else Vpn.SyncVpn(config, change.value.networkId, change.value.network, peers, env)
  }

  /** Nothing is committed unless the configuration with the client's peer is applied. */
  function Committed(config: Config, db: Db, p: Principal, d: Decided, env: Env): (out: Outcome)
    ensures Untouched(db, out.db)
  {
    if d.saved.Nothing? then Reply(db, d.response)
    else
      var next := Apply(db, p, d.saved, env.now);
      match SyncPeer(config, Own(next.peers, p.tenant), d.saved.peer, env)
      case Synced(effect) => Outcome(next, d.response, effect)
      case SyncFailed(status, effect) => Outcome(db, Refused(status), effect)
  }

  function Exec(config: Config, db: Db, p: Principal, op: ClientOp, env: Env): Outcome {
    Committed(config, db, p, Decide(config, View(db, p.tenant), p, op, env), env)
  }

  // ---- the endpoints as written, on a session

  method ChooseProfile(config: Config, s: Session, tenant: string, subject: string, enrollmentCode: Option<string>, env: Env)
    returns (refusal: Option<Status>, profile: Option<Profile>, used: Option<(Id, Enrollment)>)
    requires s.enrollments == s.stored.enrollments && s.profiles == s.stored.profiles
    modifies s`enrollments
    ensures var c := Choose(config, View(s.stored, tenant), subject, enrollmentCode, env);
            refusal == (if c.NotChosen? then Some(c.status) else None)
            && (c.Chosen? ==> profile == c.profile && used == c.code && s.enrollments == PutOption(old(s.enrollments), tenant, used))
  {
    hide Own, OwnEvents, LatestAssigned;
    refusal, profile, used := None, None, None;
    var profiles := Own(s.profiles, tenant);
    if enrollmentCode.Some? && enrollmentCode.value != "" {
      var codes := Own(s.enrollments, tenant);
      var found := First(env.order, Codes(codes, config.hash(enrollmentCode.value), subject));
      if found.None? {
        refusal := Some(Forbidden);
        return;
      }
      var code := codes[found.value].data;
      if code.usedAt.None? {
        if code.expiresAt <= env.now {
          refusal := Some(Gone);
          return;
        }
        code := code.(usedAt := Some(env.now));
        s.enrollments := s.enrollments[found.value := Row(tenant, code)];
        used := Some((found.value, code));
      }
      if !Assigned(profiles, code.profileId, subject) {
        refusal := Some(Conflict);
        return;
      }
      profile := Some(profiles[code.profileId].data);
    } else {
      var latest := LatestAssigned(env.order, profiles, subject);
      if latest.Some? {
        profile := Some(profiles[latest.value].data);
      }
    }
  }

  /** A new key for the peer at the address. */
  method RotatePeer(config: Config, s: Session, tenant: string, networkId: Id, subject: string, deviceName: string,
                    address: string, routes: string, env: Env) returns (r: Issued)
    requires s.peers == s.stored.peers && s.networks == s.stored.networks && networkId in View(s.stored, tenant).networks
    modifies s`peers
    ensures r == Issue(config, View(s.stored, tenant), networkId, subject, deviceName, address, routes, env)
    ensures r.Issued? ==> s.peers == Put(old(s.peers), tenant, r.change.id, r.change.peer)
  {
    hide Own, OwnEvents, AtAddress, KeyTaken, Vpn.ClientText;
    var network := Own(s.networks, tenant)[networkId].data;
    var rows := Own(s.peers, tenant);
    var found := First(env.order, AtAddress(rows, networkId, address));
    var id := if found.Some? then found.value else env.newPeerId;
    var peer := Peer(networkId, "client:" + subject + ":" + deviceName, env.publicKey, address, routes, 25, true, None);
    var taken := KeyTaken(rows, networkId, peer.publicKey, id);
    s.peers := s.peers[id := Row(tenant, peer)];
    if taken {
      return NotIssued(ServerError);
    }
    var text := Vpn.MakeClientText(config, network, env.privateKey, address, routes);
    r := Issued(PeerChange(id, peer, networkId, network), text);
  }

  /** The VPN part of a bootstrap. */
  method IssueBootstrapPeer(config: Config, s: Session, tenant: string, user: User, deviceName: string, profile: Option<Profile>,
                            login: bool, env: Env) returns (r: Option<Issued>)
    requires s.peers == s.stored.peers && s.networks == s.stored.networks
    modifies s`peers
    ensures r == BootstrapPeer(config, View(s.stored, tenant), user, deviceName, profile, login, env)
    ensures r.None? || r.value.Issued? ==>
              s.peers == PutOption(old(s.peers), tenant, PeerPair(if r.Some? then Some(r.value.change) else None))
  {
    hide Own, OwnEvents, PeerPolicy, WantsVpn, Issue;
    var networks := Own(s.networks, tenant);
    var found := First(env.order, networks.Keys);
    if found.None? || !WantsVpn(config, user, profile, login) {
      return None;
    }
    var policy := PeerPolicy(networks[found.value].data, user, profile);
    if policy.None? {
      return Some(NotIssued(ServerError));
    }
    var issued := RotatePeer(config, s, tenant, found.value, user.subject, deviceName, policy.value.0, policy.value.1, env);
    r := Some(issued);
  }

  /** Applies the configuration if a peer changed, then logs and commits, or rolls back. */
  method CommitChanges(config: Config, s: Session, p: Principal, saved: Saved, response: Response, env: Env)
    returns (r: Response, effect: Effect)
    requires saved.Changes? && Rest(s.Working()) == Rest(s.stored)
    requires s.devices == PutOption(s.stored.devices, p.tenant, saved.device)
    requires s.enrollments == PutOption(s.stored.enrollments, p.tenant, saved.code)
    requires s.peers == PutOption(s.stored.peers, p.tenant, PeerPair(saved.peer))
    modifies s
    ensures s.Clean()
    ensures Outcome(s.stored, r, effect) == Committed(config, old(s.stored), p, Decided(saved, response), env)
  {
    ghost var next := Apply(s.stored, p, saved, env.now);
    assert next.peers == s.peers;
    var sync := SyncChange(config, s, p.tenant, saved.peer, env);
    hide Own, SyncPeer, Apply;
    effect := sync.effect;
    if sync.SyncFailed? {
      s.Rollback();
      r := Refused(sync.status);
      return;
    }
    s.Audit(p, saved.action, saved.targetType, saved.targetId, env.now);
    s.Commit();
    r := response;
  }

  method SyncChange(config: Config, s: Session, tenant: string, change: Option<PeerChange>, env: Env) returns (r: Vpn.Sync)
    ensures r == SyncPeer(config, Own(s.peers, tenant), change, env)
  {
    hide Own, Vpn.SyncVpn;
    if change.None? {
      return Vpn.Synced(Unchanged);
    }
    r := Vpn.SyncSession(config, s, tenant, change.value.networkId, change.value.network, env);
  }

  lemma RejectionSavesNothing(config: Config, db: Db, p: Principal, env: Env)
    ensures forall status :: Committed(config, db, p, Reject(status), env) == Refuse(db, status)
  {
  }

  /** The device of that name that the owner still uses, or a new one. */
  method FindOrAddDevice(s: Session, tenant: string, owner: string, name: string, env: Env)
    returns (id: Id, device: Device, isNew: bool)
    requires s.devices == s.stored.devices
    modifies s`devices
    ensures (id, device, isNew) == DeviceFor(View(s.stored, tenant), owner, name, env)
    ensures s.devices == PutOption(old(s.devices), tenant, if isNew then Some((id, device)) else None)
  {
    hide Own, OwnEvents;
    var rows := Own(s.devices, tenant);
    var found := First(env.order, UsableDevices(rows, owner, name));
    if found.Some? {
      id, device, isNew := found.value, rows[found.value].data, false;
    } else {
      id, device, isNew := env.newId, Device(owner, name, true, None), true;
      s.devices := s.devices[id := Row(tenant, device)];
    }
  }

  /** The shares of the enabled servers, in the order in which the engine returns the rows. */
  method ListShares(rows: Table<FileServer>, ids: seq<Id>, order: seq<Id>) returns (shares: seq<Share>)
    ensures shares == SharesIn(order, rows, ids)
  {
    hide ShareOf;
    shares := [];
    var i := 0;
    while i < |order|
      invariant 0 <= i <= |order|
      invariant shares == SharesIn(order[..i], rows, ids)
    {
      assert order[..i + 1][..i] == order[..i];
      if order[i] in Deployments.EnabledServers(rows, ids) {
        var server := rows[order[i]].data;
        ghost var before := shares;
        var j := 0;
        while j < |server.shares|
          invariant 0 <= j <= |server.shares|
          invariant shares == before + SharesOf(server, server.shares[..j])
        {
          assert server.shares[..j + 1][..j] == server.shares[..j];
          shares := shares + [ShareOf(server, server.shares[j])];
          j := j + 1;
        }
        assert server.shares[..j] == server.shares;
      }
      i := i + 1;
    }
    assert order[..i] == order;
  }

  /** The answer to a bootstrap: the policy, the network, the configuration and the shares. */
  method AnswerBootstrap(config: Config, s: Session, tenant: string, user: User, profile: Option<Profile>, login: bool,
                         issued: Option<Issued>, id: Id, device: Device, env: Env) returns (r: Response)
    requires s.networks == s.stored.networks && s.servers == s.stored.servers && (issued.Some? ==> issued.value.Issued?)
    ensures r == BootstrapResponse(config, View(s.stored, tenant), user, profile, login, issued, id, device, env)
  {
    hide Own, OwnEvents, X25519.ValidateKey;
    var networks := Own(s.networks, tenant);
    var found := First(env.order, networks.Keys);
    if found.Some? && config.wireguardKey != "" && X25519.ValidateKey(config.wireguardKey).Err? {
      return Refused(ServerError);
    }
    var shares: seq<Share> := [];
    if profile.Some? && (!login || profile.value.sharesOnLogin) {
      shares := ListShares(Own(s.servers, tenant), profile.value.fileServerIds, env.order);
    }
    r := Bootstrapped(user.policyVersion, user, if found.Some? then Some(networks[found.value].data) else None,
                      if issued.Some? then issued.value.text else None, shares, id, device);
  }

  /** The bootstrap of an active user. */
  method BootstrapUser(config: Config, s: Session, p: Principal, op: ClientOp, user: User, env: Env)
    returns (r: Response, effect: Effect)
    requires s.Clean() && op.Bootstrap?
    modifies s
    ensures s.Clean()
    ensures Outcome(s.stored, r, effect)
         == Committed(config, old(s.stored), p, UserDecision(config, View(old(s.stored), p.tenant), p, op, user, env), env)
  {
    hide Own, OwnEvents, View, DeviceFor, Choose, BootstrapPeer, SyncPeer, BootstrapResponse, OwnChanges, PutOption, Apply;
    RejectionSavesNothing(config, s.stored, p, env);
    hide Committed;
    effect := Unchanged;
    var id, device, isNew := FindOrAddDevice(s, p.tenant, p.subject, op.deviceName, env);
    var login := IsLogin(op.enrollmentCode);
    var refusal, profile, code := ChooseProfile(config, s, p.tenant, p.subject, op.enrollmentCode, env);
    if refusal.Some? {
      s.Rollback();
      r := Refused(refusal.value);
      return;
    }
    var issued := IssueBootstrapPeer(config, s, p.tenant, user, op.deviceName, profile, login, env);
    if issued.Some? && issued.value.NotIssued? {
      s.Rollback();
      r := Refused(issued.value.status);
      return;
    }
    var saved := Changes(if isNew then Some((id, device)) else None, code, if issued.Some? then Some(issued.value.change) else None,
                         ClientBootstrapped, OnDevice, id);
    var answer := AnswerBootstrap(config, s, p.tenant, user, profile, login, issued, id, device, env);
    r, effect := CommitChanges(config, s, p, saved, answer, env);
  }

  method BootstrapClient(config: Config, s: Session, p: Principal, op: ClientOp, env: Env) returns (r: Response, effect: Effect)
    requires s.Clean() && op.Bootstrap?
    modifies s
    ensures s.Clean()
    ensures Outcome(s.stored, r, effect)
         == Committed(config, old(s.stored), p, BootstrapDecision(config, View(old(s.stored), p.tenant), p, op, env), env)
  {
    hide Own, OwnEvents, UserDecision, OwnChanges;
    RejectionSavesNothing(config, s.stored, p, env);
    hide Committed;
    effect := Unchanged;
    var users := Own(s.users, p.tenant);
    var found := First(env.order, Accounts.Active(users, p.subject));
    if found.None? {
      r := Refused(Forbidden);
      return;
    }
    r, effect := BootstrapUser(config, s, p, op, users[found.value].data, env);
  }

  method EnrollClientVpn(config: Config, s: Session, p: Principal, deviceName: string, env: Env) returns (r: Response, effect: Effect)
    requires s.Clean()
    modifies s
    ensures s.Clean()
    ensures Outcome(s.stored, r, effect)
         == Committed(config, old(s.stored), p, EnrollDecision(config, View(old(s.stored), p.tenant), p, deviceName, env), env)
  {
    hide Own, OwnEvents, PeerPolicy, Issue, SyncPeer, OwnChanges;
    effect := Unchanged;
    var users := Own(s.users, p.tenant);
    var found := First(env.order, Accounts.Active(users, p.subject));
    if found.None? || !HasAddress(users[found.value].data) {
      r := Refused(Conflict);
      return;
    }
    var networks := Own(s.networks, p.tenant);
    var network := First(env.order, networks.Keys);
    if network.None? {
      r := Refused(NotFound);
      return;
    }
    if config.wireguardKey == "" {
      r := Refused(Unavailable);
      return;
    }
    var policy := PeerPolicy(networks[network.value].data, users[found.value].data, None);
    if policy.None? {
      r := Refused(Unprocessable);
      return;
    }
    var issued := RotatePeer(config, s, p.tenant, network.value, p.subject, Strip(deviceName), policy.value.0, policy.value.1, env);
    if issued.NotIssued? {
      s.Rollback();
      r := Refused(issued.status);
      return;
    }
    var change := issued.change;
    r, effect := CommitChanges(config, s, p, Changes(None, None, Some(change), VpnClientEnrolled, OnPeer, change.id),
                               PeerRead(change.id, change.peer, issued.text), env);
  }

  /** Codes change by the one that is saved. */
  lemma CodesAfter(config: Config, db: Db, p: Principal, d: Decided, env: Env)
    ensures var codes := Committed(config, db, p, d, env).db.enrollments;
            codes != db.enrollments ==>
              && d.saved.Changes? && d.saved.code.Some?
              && codes == Put(db.enrollments, p.tenant, d.saved.code.value.0, d.saved.code.value.1)
  {
    hide Own, SyncPeer, Put;
  }

  lemma Frame(config: Config, db: Db, p: Principal, op: ClientOp, env: Env)
    ensures Untouched(db, Exec(config, db, p, op, env).db)
  {
    hide Untouched, Committed, Decide, View;
  }

  // ---- tenants

  lemma PutOptionStep<D(!new)>(t: Table<D>, tenant: string, o: Option<(Id, D)>)
    requires o.Some? && o.value.0 in t ==> t[o.value.0].tenant == tenant
    ensures TableStep(t, PutOption(t, tenant, o), tenant)
  {
  }

  lemma ApplyStep(db: Db, p: Principal, saved: Saved, now: Time)
    requires saved.Changes? && saved.device.Some? ==> saved.device.value.0 !in db.devices
    requires saved.Changes? && saved.code.Some? ==> Has(db.enrollments, p.tenant, saved.code.value.0)
    requires saved.Changes? && saved.peer.Some? && saved.peer.value.id in db.peers ==> db.peers[saved.peer.value.id].tenant == p.tenant
    ensures TenantStep(db, Apply(db, p, saved, now), p.tenant)
  {
    UnchangedStep(db, p.tenant);
    if saved.Changes? {
      PutOptionStep(db.devices, p.tenant, saved.device);
      PutOptionStep(db.enrollments, p.tenant, saved.code);
      PutOptionStep(db.peers, p.tenant, PeerPair(saved.peer));
      AppendStep(db.audit, Event(p.tenant, p.subject, saved.action, saved.targetType, saved.targetId, now));
    }
    hide TableStep, AuditStep, PutOption;
  }

  lemma PutOptionSame<D(!new)>(a: Table<D>, b: Table<D>, tenant: string, o: Option<(Id, D)>)
    requires SameRows(a, b, tenant)
    ensures SameRows(PutOption(a, tenant, o), PutOption(b, tenant, o), tenant)
  {
    hide SameRows;
    if o.Some? {
      PutSame(a, b, tenant, o.value.0, o.value.1);
    }
  }

  lemma ApplySame(a: Db, b: Db, p: Principal, saved: Saved, now: Time)
    requires SameView(a, b, p.tenant)
    ensures SameView(Apply(a, p, saved, now), Apply(b, p, saved, now), p.tenant)
  {
    hide SameRows, PutOption;
    if saved.Changes? {
      PutOptionSame(a.devices, b.devices, p.tenant, saved.device);
      PutOptionSame(a.enrollments, b.enrollments, p.tenant, saved.code);
      PutOptionSame(a.peers, b.peers, p.tenant, PeerPair(saved.peer));
      AppendSame(a.audit, b.audit, Event(p.tenant, p.subject, saved.action, saved.targetType, saved.targetId, now));
    }
  }

  lemma CommittedOrNot(config: Config, db: Db, p: Principal, d: Decided, env: Env)
    ensures var out := Committed(config, db, p, d, env); out.db == db || out.db == Apply(db, p, d.saved, env.now)
  {
    hide Apply, SyncPeer, Own;
  }

  lemma StaysInTenant(config: Config, db: Db, p: Principal, op: ClientOp, env: Env)
    requires ValidEnv(config, db, env)
    ensures TenantStep(db, Exec(config, db, p, op, env).db, p.tenant)
  {
    var d := Decide(config, View(db, p.tenant), p, op, env);
    assert FreshId(db, env.newId) && FreshId(db, env.newPeerId);
    CommittedOrNot(config, db, p, d, env);
    hide TenantStep, Apply, Decide, Committed, Own, OwnEvents, ValidEnv;
    UnchangedStep(db, p.tenant);
    if d.saved.Changes? && d.saved.code.Some? {
      OwnRow(db.enrollments, p.tenant, d.saved.code.value.0);
    }
    if d.saved.Changes? && d.saved.peer.Some? {
      OwnRow(db.peers, p.tenant, d.saved.peer.value.id);
    }
    ApplyStep(db, p, d.saved, env.now);
  }

  /** The endpoints read, and apply, nothing but their tenant's rows. */
  lemma DependsOnView(config: Config, a: Db, b: Db, p: Principal, op: ClientOp, env: Env)
    requires SameView(a, b, p.tenant)
    ensures SameView(Exec(config, a, p, op, env).db, Exec(config, b, p, op, env).db, p.tenant)
    ensures Exec(config, a, p, op, env).response == Exec(config, b, p, op, env).response
    ensures Exec(config, a, p, op, env).effect == Exec(config, b, p, op, env).effect
  {
    hide SameView, Apply, Decide, SyncPeer, View, Own;
    SameViewIsView(a, b, p.tenant);
    var d := Decide(config, View(a, p.tenant), p, op, env);
    ApplySame(a, b, p, d.saved, env.now);
    SameViewOwns(Apply(a, p, d.saved, env.now), Apply(b, p, d.saved, env.now), p.tenant);
  }
}
