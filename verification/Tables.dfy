/** Queries and updates that every endpoint shares, and the part of the database a tenant can see. */
module Tables {
  import opened Wrappers
  import opened Rows
  import Token

  type Principal = Token.Principal

  // ---- rows of one tenant

  /** where(id == ..., tenant_id == ...) */
  predicate Has<D>(t: Table<D>, tenant: string, id: Id) {
    id in t && t[id].tenant == tenant
  }

  function Put<D>(t: Table<D>, tenant: string, id: Id, d: D): Table<D> {
    t[id := Row(tenant, d)]
  }

  /** The first of the matching ids in the engine's row order. */
  function First(order: seq<Id>, ids: set<Id>): (id: Option<Id>)
    ensures id.Some? ==> id.value in ids
    ensures id.None? ==> forall x :: x in order ==> x !in ids
  {
    if order == [] then None else if order[0] in ids then Some(order[0]) else First(order[1..], ids)
  }

  function Own<D>(t: Table<D>, tenant: string): Table<D> {
    map id | id in t && t[id].tenant == tenant :: t[id]
  }

  function OwnEvents(audit: seq<Event>, tenant: string): seq<Event> {
    if audit == [] then []
    else OwnEvents(audit[..|audit| - 1], tenant) + (if audit[|audit| - 1].tenant == tenant then [audit[|audit| - 1]] else [])
  }

  /** Everything a tenant owns, as a database of its own. */
  function View(db: Db, tenant: string): Db {
    Db(false, Own(db.users, tenant), Own(db.devices, tenant), Own(db.requests, tenant), Own(db.servers, tenant),
       Own(db.networks, tenant), Own(db.peers, tenant), Own(db.profiles, tenant), Own(db.enrollments, tenant),
       OwnEvents(db.audit, tenant))
  }

  // ---- steps

  datatype Apply = Applied | WriteFailed | UpFailed

  /** What a step draws from outside: the clock, fresh row ids, the engine's row order, the outcome of applying a
      configuration, a key pair and an enrollment code. */
  datatype Env = Env(
    now: Time, newId: Id, newPeerId: Id, order: seq<Id>, apply: Apply, privateKey: string, publicKey: string, code: string)

  datatype Config = Config(
    wireguardKey: string, wireguardApply: bool, artifactPublished: bool,
    hash: string -> string, hashPassword: string -> string, verifyPassword: (string, string) -> bool)

  datatype Status = Unauthorized | Forbidden | NotFound | Conflict | Gone | Unprocessable | ServerError | Unavailable

  /** A share as a client mounts it. */
  datatype Share = Share(name: string, uncPath: string)

  datatype Response =
    | Refused(status: Status)
    | NoContent
    | SignedIn(principal: Principal)
    | UserRead(id: Id, user: User)
    | DeviceRead(id: Id, device: Device)
    | RequestRead(id: Id, request: SupportRequest)
    | ServerRead(id: Id, server: FileServer)
    | ProfileRead(id: Id, profile: Profile)
    | Bundle(code: string, target: string, id: Id, profile: Profile, expiresAt: Time, servers: map<Id, FileServer>)
    | NetworkRead(id: Id, network: Network)
    | PeerRead(id: Id, peer: Peer, clientConfig: Option<string>)
    | Bootstrapped(version: int, user: User, vpn: Option<Network>, vpnProfile: Option<string>,
                   shares: seq<Share>, id: Id, device: Device)

  /** What the step did to the running interface. */
  datatype Effect = Unchanged | Up(text: string) | Down

  datatype Outcome = Outcome(db: Db, response: Response, effect: Effect)

  function Refuse(db: Db, status: Status): Outcome {
    Outcome(db, Refused(status), Unchanged)
  }

  function Reply(db: Db, response: Response): Outcome {
    Outcome(db, response, Unchanged)
  }

  function Audit(db: Db, p: Principal, action: Action, targetType: TargetType, id: Id, now: Time): Db {
    db.(audit := db.audit + [Event(p.tenant, p.subject, action, targetType, id, now)])
  }

  ghost predicate FreshId(db: Db, id: Id) {
    && id !in db.users && id !in db.devices && id !in db.requests && id !in db.servers && id !in db.networks
    && id !in db.peers && id !in db.profiles && id !in db.enrollments
  }

  /** Drawn ids and codes are new, and the engine's row order lists every row once. */
  ghost predicate ValidEnv(config: Config, db: Db, env: Env) {
    && FreshId(db, env.newId) && FreshId(db, env.newPeerId) && env.newId != env.newPeerId
    && (forall id :: id in db.enrollments ==> db.enrollments[id].data.tokenHash != config.hash(env.code))
    && (forall i, j :: 0 <= i < j < |env.order| ==> env.order[i] != env.order[j])
    && (forall id :: !FreshId(db, id) || id == env.newPeerId || id == env.newId ==> id in env.order)
  }

  // ---- changes that stay within a tenant

  ghost predicate TableStep<D(!new)>(a: Table<D>, b: Table<D>, tenant: string) {
    && (forall id :: id in a && a[id].tenant != tenant ==> id in b && b[id] == a[id])
    && (forall id :: id in b && b[id].tenant != tenant ==> id in a && a[id] == b[id])
  }

  ghost predicate AuditStep(a: seq<Event>, b: seq<Event>, tenant: string) {
    a <= b && forall i :: |a| <= i < |b| ==> b[i].tenant == tenant
  }

  /** b differs from a in rows of the tenant only, and the log grew by the tenant's events only. */
  ghost predicate TenantStep(a: Db, b: Db, tenant: string) {
    && TableStep(a.users, b.users, tenant) && TableStep(a.devices, b.devices, tenant)
    && TableStep(a.requests, b.requests, tenant) && TableStep(a.servers, b.servers, tenant)
    && TableStep(a.networks, b.networks, tenant) && TableStep(a.peers, b.peers, tenant)
    && TableStep(a.profiles, b.profiles, tenant) && TableStep(a.enrollments, b.enrollments, tenant)
    && AuditStep(a.audit, b.audit, tenant)
  }

  lemma {:induction false} OwnEventsStep(a: seq<Event>, b: seq<Event>, tenant: string, other: string)
    requires AuditStep(a, b, tenant) && other != tenant
    ensures OwnEvents(b, other) == OwnEvents(a, other)
    decreases |b|
  {
    if a == b {
    } else {
      var init := b[..|b| - 1];
      OwnEventsStep(a, init, tenant, other);
      assert OwnEvents(b, other) == OwnEvents(init, other) + [];
    }
  }

  lemma TableStepIsInvisible<D(!new)>(a: Table<D>, b: Table<D>, tenant: string, other: string)
    requires TableStep(a, b, tenant) && other != tenant
    ensures Own(b, other) == Own(a, other)
  {
    var x, y := Own(a, other), Own(b, other);
    forall id ensures id in x <==> id in y {
    }
    forall id | id in x ensures x[id] == y[id] {
    }
  }

  /** A step within one tenant is invisible to every other. */
  lemma TenantStepIsInvisible(a: Db, b: Db, tenant: string, other: string)
    requires TenantStep(a, b, tenant) && other != tenant
    ensures View(b, other) == View(a, other)
  {
    hide Own, TableStep;
    OwnEventsStep(a.audit, b.audit, tenant, other);
    TableStepIsInvisible(a.users, b.users, tenant, other);
    TableStepIsInvisible(a.devices, b.devices, tenant, other);
    TableStepIsInvisible(a.requests, b.requests, tenant, other);
    TableStepIsInvisible(a.servers, b.servers, tenant, other);
    TableStepIsInvisible(a.networks, b.networks, tenant, other);
    TableStepIsInvisible(a.peers, b.peers, tenant, other);
    TableStepIsInvisible(a.profiles, b.profiles, tenant, other);
    TableStepIsInvisible(a.enrollments, b.enrollments, tenant, other);
  }

  // ---- the tenant's own view

  /** Two tables with the same rows of the tenant. */
  ghost predicate SameRows<D(!new)>(a: Table<D>, b: Table<D>, tenant: string) {
    && (forall id :: Has(a, tenant, id) <==> Has(b, tenant, id))
    && (forall id :: Has(a, tenant, id) ==> a[id].data == b[id].data)
  }

  ghost predicate SameView(a: Db, b: Db, tenant: string) {
    && SameRows(a.users, b.users, tenant) && SameRows(a.devices, b.devices, tenant)
    && SameRows(a.requests, b.requests, tenant) && SameRows(a.servers, b.servers, tenant)
    && SameRows(a.networks, b.networks, tenant) && SameRows(a.peers, b.peers, tenant)
    && SameRows(a.profiles, b.profiles, tenant) && SameRows(a.enrollments, b.enrollments, tenant)
    && OwnEvents(a.audit, tenant) == OwnEvents(b.audit, tenant)
  }

  lemma SameRowsOwn<D(!new)>(a: Table<D>, b: Table<D>, tenant: string)
    ensures SameRows(a, b, tenant) <==> Own(a, tenant) == Own(b, tenant)
  {
    var x, y := Own(a, tenant), Own(b, tenant);
    if SameRows(a, b, tenant) {
      forall id ensures id in x <==> id in y {
        assert Has(a, tenant, id) <==> Has(b, tenant, id);
      }
      forall id | id in x ensures x[id] == y[id] {
        assert Has(a, tenant, id);
      }
      assert x == y;
    } else if x == y {
      forall id ensures Has(a, tenant, id) <==> Has(b, tenant, id) {
        assert id in x <==> id in y;
      }
      forall id | Has(a, tenant, id) ensures a[id].data == b[id].data {
        assert id in x && x[id] == y[id];
      }
    }
  }

  lemma SameViewIsView(a: Db, b: Db, tenant: string)
    ensures SameView(a, b, tenant) <==> View(a, tenant) == View(b, tenant)
  {
    SameRowsOwn(a.users, b.users, tenant);
    SameRowsOwn(a.devices, b.devices, tenant);
    SameRowsOwn(a.requests, b.requests, tenant);
    SameRowsOwn(a.servers, b.servers, tenant);
    SameRowsOwn(a.networks, b.networks, tenant);
    SameRowsOwn(a.peers, b.peers, tenant);
    SameRowsOwn(a.profiles, b.profiles, tenant);
    SameRowsOwn(a.enrollments, b.enrollments, tenant);
  }

  /** Queries over a tenant's rows have the same answers. */
  lemma SameViewOwns(a: Db, b: Db, tenant: string)
    requires SameView(a, b, tenant)
    ensures Own(a.users, tenant) == Own(b.users, tenant) && Own(a.devices, tenant) == Own(b.devices, tenant)
    ensures Own(a.servers, tenant) == Own(b.servers, tenant) && Own(a.networks, tenant) == Own(b.networks, tenant)
    ensures Own(a.peers, tenant) == Own(b.peers, tenant) && Own(a.profiles, tenant) == Own(b.profiles, tenant)
    ensures Own(a.enrollments, tenant) == Own(b.enrollments, tenant)
  {
    hide SameRows;
    SameRowsOwn(a.users, b.users, tenant);
    SameRowsOwn(a.devices, b.devices, tenant);
    SameRowsOwn(a.servers, b.servers, tenant);
    SameRowsOwn(a.networks, b.networks, tenant);
    SameRowsOwn(a.peers, b.peers, tenant);
    SameRowsOwn(a.profiles, b.profiles, tenant);
    SameRowsOwn(a.enrollments, b.enrollments, tenant);
  }

  lemma OwnEventsAppend(audit: seq<Event>, e: Event)
    ensures OwnEvents(audit + [e], e.tenant) == OwnEvents(audit, e.tenant) + [e]
  {
    assert (audit + [e])[..|audit|] == audit;
  }

  /** A row seen by its tenant is the stored row. */
  lemma OwnRow<D(!new)>(t: Table<D>, tenant: string, id: Id)
    ensures id in Own(t, tenant) <==> Has(t, tenant, id)
    ensures id in Own(t, tenant) ==> Own(t, tenant)[id] == t[id]
  {
  }

  /** A tenant sees exactly its own rows, as they are stored. */
  lemma ViewRow(db: Db, tenant: string, id: Id)
    ensures var own := View(db, tenant);
            && (id in own.users <==> Has(db.users, tenant, id)) && (id in own.users ==> own.users[id] == db.users[id])
            && (id in own.networks <==> Has(db.networks, tenant, id)) && (id in own.networks ==> own.networks[id] == db.networks[id])
            && (id in own.enrollments <==> Has(db.enrollments, tenant, id))
            && (id in own.enrollments ==> own.enrollments[id] == db.enrollments[id])
  {
    hide OwnEvents;
  }

  // ---- one update at a time

  lemma PutStep<D(!new)>(t: Table<D>, tenant: string, id: Id, d: D)
    requires id in t ==> t[id].tenant == tenant
    ensures TableStep(t, Put(t, tenant, id, d), tenant)
  {
  }

  lemma UnchangedStep(db: Db, tenant: string)
    ensures TenantStep(db, db, tenant)
  {
  }

  lemma AppendStep(audit: seq<Event>, e: Event)
    ensures AuditStep(audit, audit + [e], e.tenant)
  {
  }

  lemma SameRow<D(!new)>(a: Table<D>, b: Table<D>, tenant: string, id: Id)
    requires SameRows(a, b, tenant)
    ensures Has(a, tenant, id) <==> Has(b, tenant, id)
    ensures Has(a, tenant, id) ==> a[id].data == b[id].data
  {
  }

  lemma PutSame<D(!new)>(a: Table<D>, b: Table<D>, tenant: string, id: Id, d: D)
    requires SameRows(a, b, tenant)
    ensures SameRows(Put(a, tenant, id, d), Put(b, tenant, id, d), tenant)
  {
    var x, y := Put(a, tenant, id, d), Put(b, tenant, id, d);
    forall k ensures Has(x, tenant, k) <==> Has(y, tenant, k) {
      SameRow(a, b, tenant, k);
    }
    forall k | Has(x, tenant, k) ensures x[k].data == y[k].data {
      SameRow(a, b, tenant, k);
    }
  }

  lemma AppendSame(a: seq<Event>, b: seq<Event>, e: Event)
    requires OwnEvents(a, e.tenant) == OwnEvents(b, e.tenant)
    ensures OwnEvents(a + [e], e.tenant) == OwnEvents(b + [e], e.tenant)
  {
    OwnEventsAppend(a, e);
    OwnEventsAppend(b, e);
  }
}
