/**
 * What the requests of an installed client do, on the stored rows themselves: which profile a bootstrap delivers, which
 * device, code and peer it writes, and what it answers.
 */
module ClientEffects {
  import opened Wrappers
  import opened Rows
  import opened Tables
  import opened ControlPlane
  import opened ProfileIntegrity
  import opened Text
  import opened UniqueRows
  import opened VpnEffects
  import Accounts
  import Clients
  import Routes
  import ServerKey
  import StringOrder
  import Vpn

  /** What holds of the tables in every reachable state. */
  ghost predicate Settled(config: Config, db: Db) {
    UniqueSubjects(db.users) && UniqueNetworks(db.networks) && Unique(db) && ServerKey.Describable(config, db)
  }

  lemma ReachableIsSettled(config: Config, steps: seq<Step>)
    requires ValidRun(config, EMPTY, steps)
    ensures Settled(config, Run(config, EMPTY, steps))
  {
    hide ValidRun, Run, Unique, AllSound, ServerKey.Describable;
    EmptyIsSettled();
    RunKeepsIntegrity(config, EMPTY, steps);
    RunKeepsUnique(config, EMPTY, steps);
    ServerKey.ReachableIsDescribable(config, steps);
  }

  lemma EmptyIsSettled()
    ensures Integrity(EMPTY) && Unique(EMPTY)
  {
  }

  // ---- the user

  ghost predicate UserRow(db: Db, p: Principal, id: Id) {
    Has(db.users, p.tenant, id) && db.users[id].data.active && db.users[id].data.subject == p.subject
  }

  lemma UserFound(config: Config, db: Db, p: Principal, env: Env)
    requires ValidEnv(config, db, env) && UniqueSubjects(db.users)
    ensures var own := View(db, p.tenant); var found := Clients.ActiveUser(own, p.subject, env);
            && (found.Some? <==> exists id :: UserRow(db, p, id))
            && (forall id :: UserRow(db, p, id) ==> found == Some(id) && own.users[id] == db.users[id])
  {
    hide OwnEvents;
    var own := View(db, p.tenant);
    var found := Clients.ActiveUser(own, p.subject, env);
    forall id | UserRow(db, p, id) ensures found == Some(id) && own.users[id] == db.users[id] {
      assert id in own.users && id in env.order && id in Accounts.Active(own.users, p.subject);
      assert found.value in Accounts.Active(own.users, p.subject);
    }
    if found.Some? {
      assert found.value in Accounts.Active(own.users, p.subject);
      assert UserRow(db, p, found.value);
    }
  }

  // ---- the profile

  ghost predicate ProfileRow(db: Db, p: Principal, k: Id) {
    Has(db.profiles, p.tenant, k) && db.profiles[k].data.enabled && p.subject in db.profiles[k].data.targetSubjects
  }

  /** Updated later, or at the same time with a smaller name. */
  predicate ComesFirst(a: Profile, b: Profile) {
    a.updatedAt > b.updatedAt || (a.updatedAt == b.updatedAt && StringOrder.Less(a.name, b.name))
  }

  predicate Coded(code: Option<string>) {
    code.Some? && code.value != ""
  }

  /** Without a code: none if none is assigned to the caller, and otherwise one that no assigned profile comes before. */
  ghost predicate ChosenByLogin(db: Db, p: Principal, profile: Option<Profile>) {
    if profile.None? then forall k :: !ProfileRow(db, p, k)
    else
      && (exists k :: ProfileRow(db, p, k) && db.profiles[k].data == profile.value)
      && forall k :: ProfileRow(db, p, k) ==> !ComesFirst(db.profiles[k].data, profile.value)
  }

  lemma LoginChooses(config: Config, db: Db, p: Principal, code: Option<string>, env: Env)
    requires ValidEnv(config, db, env) && !Coded(code)
    ensures var c := Clients.Choose(config, View(db, p.tenant), p.subject, code, env);
            c.Chosen? && c.code.None? && ChosenByLogin(db, p, c.profile)
  {
    hide OwnEvents;
    var rows := View(db, p.tenant).profiles;
    var chosen := Clients.LatestAssigned(env.order, rows, p.subject);
    forall k | ProfileRow(db, p, k) ensures chosen.Some? && !ComesFirst(db.profiles[k].data, rows[chosen.value].data) {
      assert k in rows && k in env.order && Clients.Assigned(rows, k, p.subject);
      Clients.LatestIsFirst(env.order, rows, p.subject, k);
    }
    if chosen.Some? {
      assert ProfileRow(db, p, chosen.value);
    }
  }

  ghost predicate CodeRow(config: Config, db: Db, p: Principal, code: string, e: Id) {
    && Has(db.enrollments, p.tenant, e) && db.enrollments[e].data.tokenHash == config.hash(code)
    && db.enrollments[e].data.subject == p.subject
  }

  lemma CodeFound(config: Config, db: Db, p: Principal, code: string, env: Env)
    requires ValidEnv(config, db, env) && UniqueHashes(db.enrollments)
    ensures var own := View(db, p.tenant);
            var found := First(env.order, Clients.Codes(own.enrollments, config.hash(code), p.subject));
            && (found.Some? <==> exists e :: CodeRow(config, db, p, code, e))
            && (forall e :: CodeRow(config, db, p, code, e) ==> found == Some(e) && own.enrollments[e] == db.enrollments[e])
  {
    hide OwnEvents;
    var rows := View(db, p.tenant).enrollments;
    var ids := Clients.Codes(rows, config.hash(code), p.subject);
    var found := First(env.order, ids);
    forall e | CodeRow(config, db, p, code, e) ensures found == Some(e) && rows[e] == db.enrollments[e] {
      assert e in rows && e in env.order && e in ids;
      assert found.value in ids;
    }
    if found.Some? {
      assert found.value in ids && CodeRow(config, db, p, code, found.value);
    }
  }

  lemma OwnProfile(db: Db, p: Principal, k: Id)
    ensures var rows := View(db, p.tenant).profiles;
            && (Clients.Assigned(rows, k, p.subject) <==> ProfileRow(db, p, k))
            && (ProfileRow(db, p, k) ==> rows[k] == db.profiles[k])
  {
    hide OwnEvents;
  }

  /** With a code: it must be the caller's, unexpired or used before, and its profile still assigned; a first use is recorded. */
  lemma CodeChooses(config: Config, db: Db, p: Principal, code: string, env: Env)
    requires ValidEnv(config, db, env) && UniqueHashes(db.enrollments) && code != ""
    ensures var c := Clients.Choose(config, View(db, p.tenant), p.subject, Some(code), env);
            && ((forall e :: !CodeRow(config, db, p, code, e)) ==> c == Clients.NotChosen(Forbidden))
            && (forall e :: CodeRow(config, db, p, code, e) ==> c == CodeChoice(db, p, e, env.now))
  {
    CodeFound(config, db, p, code, env);
    forall e | CodeRow(config, db, p, code, e)
      ensures Clients.Choose(config, View(db, p.tenant), p.subject, Some(code), env) == CodeChoice(db, p, e, env.now)
    {
      OwnProfile(db, p, db.enrollments[e].data.profileId);
      hide View, ValidEnv, UniqueHashes, Clients.Assigned, ProfileRow, CodeRow, Clients.Codes;
    }
    hide View, ValidEnv, UniqueHashes, CodeRow, Clients.Codes;
  }

  ghost function CodeChoice(db: Db, p: Principal, e: Id, now: Time): Clients.Choice
    requires e in db.enrollments
  {
    var x := db.enrollments[e].data;
    if x.usedAt.None? && x.expiresAt <= now then Clients.NotChosen(Gone)
    else if !ProfileRow(db, p, x.profileId) then Clients.NotChosen(Conflict)
    else
      Clients.Chosen(Some(db.profiles[x.profileId].data),
                     if x.usedAt.None? then Some((e, Enrollment(x.profileId, x.subject, x.tokenHash, x.expiresAt, x.createdBy, Some(now))))
                     else None)
  }

  // ---- the peer

  /** The routes of the profile, or else the user's own, or else the whole block of the network. */
  function RoutesOwed(n: Network, user: User, profile: Option<Profile>): string {
    if profile.Some? then profile.value.allowedIps else RoutesAsked(n, Some(user.allowedIps))
  }

  function AddressOwed(user: User): string {
    if user.vpnAddress.Some? then user.vpnAddress.value else ""
  }

  ghost predicate MayServe(n: Network, user: User, profile: Option<Profile>) {
    && Routes.AddressBelongs(n.addressCidr, AddressOwed(user)).Ok?
    && Routes.NormalizeAllowedIps(RoutesOwed(n, user, profile)).Ok?
  }

  lemma PolicyServes(n: Network, user: User, profile: Option<Profile>)
    ensures var policy := Clients.PeerPolicy(n, user, profile);
            && (policy.Some? <==> MayServe(n, user, profile))
            && (policy.Some? ==>
                  && Routes.AddressBelongs(n.addressCidr, AddressOwed(user)) == Ok(policy.value.0)
                  && Routes.NormalizeAllowedIps(RoutesOwed(n, user, profile)) == Ok(policy.value.1))
  {
    RoutesOfPeer(n, AddressOwed(user), Some(user.allowedIps));
    hide Routes.AddressBelongs, Routes.NormalizeAllowedIps, Vpn.RoutesOr, RoutesAsked;
  }

  /** The peer at the address, or a fresh id where there is none. */
  ghost predicate PeerId(db: Db, tenant: string, networkId: Id, address: string, env: Env, k: Id) {
    || AtAddress(db, tenant, networkId, address, k)
    || (k == env.newPeerId && forall j :: !AtAddress(db, tenant, networkId, address, j))
  }

  ghost predicate AtAddress(db: Db, tenant: string, networkId: Id, address: string, k: Id) {
    Has(db.peers, tenant, k) && db.peers[k].data.networkId == networkId && db.peers[k].data.address == address
  }

  ghost predicate KeyInUse(db: Db, tenant: string, networkId: Id, publicKey: string, except: Id) {
    exists k :: k != except && Has(db.peers, tenant, k) && db.peers[k].data.networkId == networkId
                && db.peers[k].data.publicKey == publicKey
  }

  lemma KeyIsInUse(db: Db, tenant: string, networkId: Id, publicKey: string, except: Id)
    ensures Clients.KeyTaken(View(db, tenant).peers, networkId, publicKey, except) <==> KeyInUse(db, tenant, networkId, publicKey, except)
  {
    hide OwnEvents;
    var rows := View(db, tenant).peers;
    if KeyInUse(db, tenant, networkId, publicKey, except) {
      var k :| k != except && Has(db.peers, tenant, k) && db.peers[k].data.networkId == networkId
               && db.peers[k].data.publicKey == publicKey;
      assert k in rows;
    }
    if k :| k in rows && k != except && rows[k].data.networkId == networkId && rows[k].data.publicKey == publicKey {
      assert Has(db.peers, tenant, k);
    }
  }

  lemma PeerFound(config: Config, db: Db, tenant: string, networkId: Id, address: string, env: Env)
    requires ValidEnv(config, db, env)
    ensures var rows := View(db, tenant).peers;
            var found := First(env.order, Clients.AtAddress(rows, networkId, address));
            PeerId(db, tenant, networkId, address, env, if found.Some? then found.value else env.newPeerId)
  {
    hide OwnEvents;
    var rows := View(db, tenant).peers;
    var ids := Clients.AtAddress(rows, networkId, address);
    var found := First(env.order, ids);
    forall j | AtAddress(db, tenant, networkId, address, j) ensures found.Some? {
      assert j in rows && j in env.order && j in ids;
    }
    if found.Some? {
      assert found.value in ids;
    }
  }

  /** The client's peer: its name says whose it is, its key is fresh, and it is enabled whatever stood there before. */
  ghost predicate IsClientPeer(x: Peer, n: Network, networkId: Id, user: User, profile: Option<Profile>, deviceName: string, env: Env) {
    && Routes.AddressBelongs(n.addressCidr, AddressOwed(user)) == Ok(x.address)
    && Routes.NormalizeAllowedIps(RoutesOwed(n, user, profile)) == Ok(x.allowedIps)
    && x == Peer(networkId, "client:" + user.subject + ":" + deviceName, env.publicKey, x.address, x.allowedIps, 25, true, None)
  }

  /** What issuing the peer comes to: a server error for a key in use, or the row with its text. */
  ghost predicate IssuedAs(config: Config, db: Db, tenant: string, networkId: Id, x: Peer, env: Env, r: Clients.Issued)
    requires networkId in db.networks
  {
    exists k ::
      && PeerId(db, tenant, networkId, x.address, env, k)
      && (if KeyInUse(db, tenant, networkId, env.publicKey, k) then r == Clients.NotIssued(ServerError)
          else
            && r.Issued? && r.change == Clients.PeerChange(k, x, networkId, db.networks[networkId].data)
            && IsClientText(config, db.networks[networkId].data, x, true, env, r.text))
  }

  lemma IssuesExactly(config: Config, db: Db, tenant: string, networkId: Id, user: User, profile: Option<Profile>, deviceName: string,
                      x: Peer, env: Env)
    requires ValidEnv(config, db, env) && Has(db.networks, tenant, networkId)
    requires IsClientPeer(x, db.networks[networkId].data, networkId, user, profile, deviceName, env)
    ensures networkId in View(db, tenant).networks
    ensures IssuedAs(config, db, tenant, networkId, x, env,
                     Clients.Issue(config, View(db, tenant), networkId, user.subject, deviceName, x.address, x.allowedIps, env))
  {
    hide View, Clients.KeyTaken, KeyInUse, Vpn.ClientText, IsClientText, PeerId, ValidEnv, Clients.AtAddress, RoutesOwed;
    hide Routes.AddressBelongs, Routes.NormalizeAllowedIps, AddressOwed;
    var own := View(db, tenant);
    var found := First(env.order, Clients.AtAddress(own.peers, networkId, x.address));
    var k := if found.Some? then found.value else env.newPeerId;
    ViewRow(db, tenant, networkId);
    PeerFound(config, db, tenant, networkId, x.address, env);
    KeyIsInUse(db, tenant, networkId, env.publicKey, k);
    NormalizedIsNotEmpty(RoutesOwed(db.networks[networkId].data, user, profile));
    TextOfPeer(config, db.networks[networkId].data, x, env);
    assert Clients.ClientPeer(own, networkId, user.subject, deviceName, x.address, x.allowedIps, env).peer == x;
  }

  // ---- the enrollment of a VPN profile

  /** The client's peer is written and applied, and answered with its configuration. */
  ghost predicate Enrolled(config: Config, db: Db, p: Principal, x: Peer, networkId: Id, env: Env, out: Outcome)
    requires networkId in db.networks
  {
    exists k ::
      && PeerId(db, p.tenant, networkId, x.address, env, k)
      && (if KeyInUse(db, p.tenant, networkId, env.publicKey, k) then out == Outcome(db, Refused(ServerError), Unchanged)
          else
            exists text ::
              && IsClientText(config, db.networks[networkId].data, x, true, env, text)
              && AppliedThen(config, db, p.tenant, PeerSaved(db, p, k, x, VpnClientEnrolled, env.now), networkId, env,
                             PeerRead(k, x, text), out))
  }

  lemma EnrolledClient(config: Config, db: Db, p: Principal, deviceName: string, env: Env, u: Id, networkId: Id)
    requires ValidEnv(config, db, env) && Settled(config, db) && NetworkId(db, p.tenant, env, networkId)
    requires UserRow(db, p, u)
    ensures var out, user := Clients.Exec(config, db, p, Clients.EnrollVpn(deviceName), env), db.users[u].data;
            if AddressOwed(user) == "" then out == Outcome(db, Refused(Conflict), Unchanged)
            else if !Has(db.networks, p.tenant, networkId) then out == Outcome(db, Refused(NotFound), Unchanged)
            else if config.wireguardKey == "" then out == Outcome(db, Refused(Unavailable), Unchanged)
            else
              var n := db.networks[networkId].data;
              if !MayServe(n, user, None) then out == Outcome(db, Refused(Unprocessable), Unchanged)
              else
                exists x :: IsClientPeer(x, n, networkId, user, None, Strip(deviceName), env)
                            && Enrolled(config, db, p, x, networkId, env, out)
  {
    hide View, ValidEnv, Settled, Clients.EnrollDecision, Clients.Committed, MayServe, IsClientPeer, Enrolled, Strip, NetworkId;
    hide EnrollsWith, IssuedAs;
    EnrollDecides(config, db, p, deviceName, env, u, networkId);
    var d, user := Clients.EnrollDecision(config, View(db, p.tenant), p, deviceName, env), db.users[u].data;
    if AddressOwed(user) == "" || !Has(db.networks, p.tenant, networkId) || config.wireguardKey == ""
       || !MayServe(db.networks[networkId].data, user, None)
    {
      NothingSaved(config, db, p, d, env);
    } else {
      var x, r :| IsClientPeer(x, db.networks[networkId].data, networkId, user, None, Strip(deviceName), env)
                  && IssuedAs(config, db, p.tenant, networkId, x, env, r) && EnrollsWith(r, d);
      EnrollmentCommits(config, db, p, d, x, networkId, r, env);
    }
  }

  /** The decision that an issued peer, or one that was not issued, comes to. */
  ghost predicate EnrollsWith(r: Clients.Issued, d: Clients.Decided) {
    d == if r.NotIssued? then Clients.Reject(r.status)
         else
           Clients.Decided(Clients.Changes(None, None, Some(r.change), VpnClientEnrolled, OnPeer, r.change.id),
                           PeerRead(r.change.id, r.change.peer, r.text))
  }

  ghost predicate EnrollmentIssues(config: Config, db: Db, p: Principal, deviceName: string, env: Env, user: User, networkId: Id,
                                   d: Clients.Decided)
    requires networkId in db.networks
  {
    exists x, r ::
      && IsClientPeer(x, db.networks[networkId].data, networkId, user, None, Strip(deviceName), env)
      && IssuedAs(config, db, p.tenant, networkId, x, env, r) && EnrollsWith(r, d)
  }

  lemma NothingSaved(config: Config, db: Db, p: Principal, d: Clients.Decided, env: Env)
    requires d.saved.Nothing?
    ensures Clients.Committed(config, db, p, d, env) == Outcome(db, d.response, Unchanged)
  {
  }

  lemma EnrollDecides(config: Config, db: Db, p: Principal, deviceName: string, env: Env, u: Id, networkId: Id)
    requires ValidEnv(config, db, env) && Settled(config, db) && NetworkId(db, p.tenant, env, networkId) && UserRow(db, p, u)
    ensures var d, user := Clients.EnrollDecision(config, View(db, p.tenant), p, deviceName, env), db.users[u].data;
            if AddressOwed(user) == "" then d == Clients.Reject(Conflict)
            else if !Has(db.networks, p.tenant, networkId) then d == Clients.Reject(NotFound)
            else if config.wireguardKey == "" then d == Clients.Reject(Unavailable)
            else if !MayServe(db.networks[networkId].data, user, None) then d == Clients.Reject(Unprocessable)
            else EnrollmentIssues(config, db, p, deviceName, env, user, networkId, d)
  {
    hide View, ValidEnv, Clients.ActiveUser, Vpn.TheNetwork, Clients.PeerPolicy, Clients.Issue, Strip, IssuedAs;
    hide UniqueSubjects, UniqueNetworks, Unique, ServerKey.Describable, MayServe, IsClientPeer, Clients.EnrollDecision, AddressOwed;
    hide EnrollsWith;
    var own, user := View(db, p.tenant), db.users[u].data;
    UserFound(config, db, p, env);
    NetworkFound(config, db, p.tenant, env);
    EnrollmentByPolicy(config, own, p, deviceName, env, user, Vpn.TheNetwork(own, env));
    if Has(db.networks, p.tenant, networkId) {
      var n := db.networks[networkId].data;
      PolicyServes(n, user, None);
      if MayServe(n, user, None) {
        ServesPeer(config, db, p.tenant, networkId, user, None, Strip(deviceName), env);
      }
    }
  }

  lemma EnrollmentByPolicy(config: Config, own: Db, p: Principal, deviceName: string, env: Env, user: User, network: Option<Id>)
    requires var found := Clients.ActiveUser(own, p.subject, env);
             found.Some? && own.users[found.value].data == user && user.subject == p.subject
    requires network == Vpn.TheNetwork(own, env)
    ensures var d := Clients.EnrollDecision(config, own, p, deviceName, env);
            if AddressOwed(user) == "" then d == Clients.Reject(Conflict)
            else if network.None? then d == Clients.Reject(NotFound)
            else if config.wireguardKey == "" then d == Clients.Reject(Unavailable)
            else
              var policy := Clients.PeerPolicy(own.networks[network.value].data, user, None);
              if policy.None? then d == Clients.Reject(Unprocessable)
              else
                var r := Clients.Issue(config, own, network.value, user.subject, Strip(deviceName), policy.value.0, policy.value.1, env);
                EnrollsWith(r, d)
  {
    hide Vpn.TheNetwork, Clients.PeerPolicy, Clients.Issue, Clients.ActiveUser, Strip, Clients.OwnChanges;
  }

  /** A user who may be served is issued a peer by the policy. */
  lemma ServesPeer(config: Config, db: Db, tenant: string, networkId: Id, user: User, profile: Option<Profile>, deviceName: string,
                   env: Env)
    requires ValidEnv(config, db, env) && Has(db.networks, tenant, networkId) && MayServe(db.networks[networkId].data, user, profile)
    ensures networkId in View(db, tenant).networks
    ensures var n := db.networks[networkId].data; var policy := Clients.PeerPolicy(n, user, profile);
            && policy.Some?
            && exists x :: IsClientPeer(x, n, networkId, user, profile, deviceName, env)
                 && IssuedAs(config, db, tenant, networkId, x, env,
                             Clients.Issue(config, View(db, tenant), networkId, user.subject, deviceName, policy.value.0,
                                           policy.value.1, env))
  {
    hide View, ValidEnv, Clients.PeerPolicy, Clients.Issue, IssuedAs, IsClientPeer, MayServe, RoutesOwed, AddressOwed;
    hide Routes.AddressBelongs, Routes.NormalizeAllowedIps;
    var n := db.networks[networkId].data;
    PolicyServes(n, user, profile);
    var policy := Clients.PeerPolicy(n, user, profile).value;
    var x := Peer(networkId, "client:" + user.subject + ":" + deviceName, env.publicKey, policy.0, policy.1, 25, true, None);
    PeerIsClients(x, n, networkId, user, profile, deviceName, env);
    IssuesExactly(config, db, tenant, networkId, user, profile, deviceName, x, env);
  }

  lemma PeerIsClients(x: Peer, n: Network, networkId: Id, user: User, profile: Option<Profile>, deviceName: string, env: Env)
    requires Routes.AddressBelongs(n.addressCidr, AddressOwed(user)) == Ok(x.address)
    requires Routes.NormalizeAllowedIps(RoutesOwed(n, user, profile)) == Ok(x.allowedIps)
    requires x == Peer(networkId, "client:" + user.subject + ":" + deviceName, env.publicKey, x.address, x.allowedIps, 25, true, None)
    ensures IsClientPeer(x, n, networkId, user, profile, deviceName, env)
  {
    hide Routes.AddressBelongs, Routes.NormalizeAllowedIps, RoutesOwed;
  }

  /** A decision with a peer is committed once the peer's network is applied. */
  lemma CommittedWithPeer(config: Config, db: Db, p: Principal, d: Clients.Decided, env: Env)
    requires d.saved.Changes? && d.saved.peer.Some?
    requires d.saved.peer.value.networkId in db.networks
             && d.saved.peer.value.network == db.networks[d.saved.peer.value.networkId].data
    ensures AppliedThen(config, db, p.tenant, Clients.Apply(db, p, d.saved, env.now), d.saved.peer.value.networkId, env, d.response,
                        Clients.Committed(config, db, p, d, env))
  {
    hide Vpn.SyncVpn, AppliedThen, Own, Clients.Apply;
    SyncedOrNot(config, db, p.tenant, Clients.Apply(db, p, d.saved, env.now), d.saved.peer.value.networkId, env, d.response);
  }

  lemma EnrollmentCommits(config: Config, db: Db, p: Principal, d: Clients.Decided, x: Peer, networkId: Id, r: Clients.Issued, env: Env)
    requires networkId in db.networks && IssuedAs(config, db, p.tenant, networkId, x, env, r) && EnrollsWith(r, d)
    ensures Enrolled(config, db, p, x, networkId, env, Clients.Committed(config, db, p, d, env))
  {
    hide AppliedThen, PeerId, KeyInUse, IsClientText, Clients.Committed;
    var k :| PeerId(db, p.tenant, networkId, x.address, env, k)
             && (if KeyInUse(db, p.tenant, networkId, env.publicKey, k) then r == Clients.NotIssued(ServerError)
                 else
                   && r.Issued? && r.change == Clients.PeerChange(k, x, networkId, db.networks[networkId].data)
                   && IsClientText(config, db.networks[networkId].data, x, true, env, r.text));
    if KeyInUse(db, p.tenant, networkId, env.publicKey, k) {
      NothingSaved(config, db, p, d, env);
    } else {
      CommittedWithPeer(config, db, p, d, env);
    }
  }
}
