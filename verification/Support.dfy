/** Devices and the lifecycle of support requests. */
module Support {
  import opened Wrappers
  import opened Rows
  import opened Tables
  import opened Session
  import StringOrder

  datatype SupportOp =
    | RegisterDevice(name: string)
    | RevokeDevice(id: Id)
    | CreateRequest(device: Id, purpose: string, permissions: set<string>, lifetime: Time)
    | Decide(id: Id, accept: bool)
    | EndRequest(id: Id)

  // ---- what is saved

  datatype Saved =
    | Nothing
    | SavedDevice(id: Id, device: Device, action: Action)
    | SavedRequest(id: Id, request: SupportRequest, action: Action)

  datatype Decided = Decided(saved: Saved, response: Response)

  function SaveRequest(db: Db, p: Principal, id: Id, request: SupportRequest, action: Action, now: Time): Db {
    Audit(db.(requests := Put(db.requests, p.tenant, id, request)), p, action, OnSupportRequest, id, now)
  }

  /** Only devices, support requests and the log change. */
  ghost predicate Untouched(a: Db, b: Db) {
    && b.initialized == a.initialized && b.users == a.users && b.servers == a.servers && b.networks == a.networks
    && b.peers == a.peers && b.profiles == a.profiles && b.enrollments == a.enrollments
  }

  function Apply(db: Db, p: Principal, saved: Saved, now: Time): (next: Db)
    ensures Untouched(db, next)
  {
    match saved
    case Nothing => db
    case SavedDevice(id, device, action) =>
      Audit(db.(devices := Put(db.devices, p.tenant, id, device)), p, action, OnDevice, id, now)
    case SavedRequest(id, request, action) => SaveRequest(db, p, id, request, action, now)
  }

  function Committed(db: Db, p: Principal, d: Decided, now: Time): (out: Outcome)
    ensures Untouched(db, out.db)
    ensures out.effect == Unchanged
  {
    Reply(Apply(db, p, d.saved, now), d.response)
  }

  function Reject(status: Status): Decided {
    Decided(Nothing, Refused(status))
  }

  // ---- what each endpoint decides, from the rows its tenant owns

  function Register(p: Principal, name: string, env: Env): Decided {
    var device := Device(p.subject, name, true, None);
    Decided(SavedDevice(env.newId, device, DeviceRegistered), DeviceRead(env.newId, device))
  }

  function Revoke(own: Db, p: Principal, id: Id, env: Env): Decided {
    if id !in own.devices then Reject(NotFound)
    else
      var device := own.devices[id].data;
      if device.owner != p.subject && "tenant_admin" !in p.roles then Reject(Forbidden)
      else if !device.registered then Decided(Nothing, NoContent)
      else Decided(SavedDevice(id, device.(registered := false, revokedAt := Some(env.now)), DeviceRevoked), NoContent)
  }

  function Request(own: Db, p: Principal, op: SupportOp, env: Env): Decided
    requires op.CreateRequest?
  {
    if "support" !in p.roles && "tenant_admin" !in p.roles then Reject(Forbidden)
    else if op.device !in own.devices || !own.devices[op.device].data.registered then Reject(NotFound)
    else
      var request := SupportRequest(p.subject, op.device, op.purpose, StringOrder.Sorted(op.permissions), Pending,
                                    env.now + op.lifetime, None, None);
      Decided(SavedRequest(env.newId, request, SupportRequested), RequestRead(env.newId, request))
  }

  predicate Owns(own: Db, p: Principal, device: Id) {
    device in own.devices && own.devices[device].data.owner == p.subject
  }

  /** An overdue decision commits the expiry and still answers an error. */
  function Decision(own: Db, p: Principal, id: Id, accept: bool, env: Env): Decided {
    if id !in own.requests then Reject(NotFound)
    else
      var request := own.requests[id].data;
      if !Owns(own, p, request.device) then Reject(Forbidden)
      else if request.state != Pending then Reject(Conflict)
      else if request.expiresAt <= env.now then
        Decided(SavedRequest(id, request.(state := Expired), SupportExpired), Refused(Gone))
      else
        var decided := request.(state := if accept then Accepted else Denied, decidedAt := Some(env.now));
        Decided(SavedRequest(id, decided, if accept then SupportAccepted else SupportDenied), RequestRead(id, decided))
  }

  function End(own: Db, p: Principal, id: Id, env: Env): Decided {
    if id !in own.requests then Reject(NotFound)
    else
      var request := own.requests[id].data;
      if p.subject != request.requester && !Owns(own, p, request.device) then Reject(Forbidden)
      else if request.state != Accepted then Reject(Conflict)
      else
        var ended := request.(state := Ended, endedAt := Some(env.now));
        Decided(SavedRequest(id, ended, SupportEnded), RequestRead(id, ended))
  }

  function DecideOp(own: Db, p: Principal, op: SupportOp, env: Env): (d: Decided)
    ensures d.saved.SavedDevice? ==> d.saved.id == env.newId || d.saved.id in own.devices
    ensures d.saved.SavedRequest? ==> d.saved.id == env.newId || d.saved.id in own.requests
  {
    match op
    case RegisterDevice(name) => Register(p, name, env)
    case RevokeDevice(id) => Revoke(own, p, id, env)
    case CreateRequest(_, _, _, _) => Request(own, p, op, env)
    case Decide(id, accept) => Decision(own, p, id, accept, env)
    case EndRequest(id) => End(own, p, id, env)
  }

  function Exec(db: Db, p: Principal, op: SupportOp, env: Env): Outcome {
    Committed(db, p, DecideOp(View(db, p.tenant), p, op, env), env.now)
  }

  // ---- the endpoints as written, on a session

  method CreateDevice(s: Session, p: Principal, name: string, env: Env) returns (r: Response)
    requires s.Clean()
    modifies s
    ensures s.Clean() && Outcome(s.stored, r, Unchanged) == Committed(old(s.stored), p, Register(p, name, env), env.now)
  {
    var device := Device(p.subject, name, true, None);
    s.devices := s.devices[env.newId := Row(p.tenant, device)];
    s.Audit(p, DeviceRegistered, OnDevice, env.newId, env.now);
    s.Commit();
    r := DeviceRead(env.newId, device);
  }

  method DeleteDevice(s: Session, p: Principal, id: Id, env: Env) returns (r: Response)
    requires s.Clean()
    modifies s
    ensures s.Clean()
    ensures Outcome(s.stored, r, Unchanged) == Committed(old(s.stored), p, Revoke(View(old(s.stored), p.tenant), p, id, env), env.now)
  {
    hide Own, OwnEvents;
    var rows := Own(s.devices, p.tenant);
    if id !in rows {
      return Refused(NotFound);
    }
    var device := rows[id].data;
    if device.owner != p.subject && "tenant_admin" !in p.roles {
      return Refused(Forbidden);
    }
    if device.registered {
      device := device.(registered := false);
      device := device.(revokedAt := Some(env.now));
      s.devices := s.devices[id := Row(p.tenant, device)];
      s.Audit(p, DeviceRevoked, OnDevice, id, env.now);
      s.Commit();
    }
    r := NoContent;
  }

  method CreateSupportRequest(s: Session, p: Principal, op: SupportOp, env: Env) returns (r: Response)
    requires s.Clean() && op.CreateRequest?
    modifies s
    ensures s.Clean()
    ensures Outcome(s.stored, r, Unchanged) == Committed(old(s.stored), p, Request(View(old(s.stored), p.tenant), p, op, env), env.now)
  {
    hide Own, OwnEvents;
    if p.roles !! {"support", "tenant_admin"} {
      return Refused(Forbidden);
    }
    var devices := Own(s.devices, p.tenant);
    if !(op.device in devices && devices[op.device].data.registered) {
      return Refused(NotFound);
    }
    var request := SupportRequest(p.subject, op.device, op.purpose, StringOrder.Sorted(op.permissions), Pending,
                                  env.now + op.lifetime, None, None);
    s.requests := s.requests[env.newId := Row(p.tenant, request)];
    s.Audit(p, SupportRequested, OnSupportRequest, env.newId, env.now);
    s.Commit();
    r := RequestRead(env.newId, request);
  }

  method DecideSupportRequest(s: Session, p: Principal, id: Id, accept: bool, env: Env) returns (r: Response)
    requires s.Clean()
    modifies s
    ensures s.Clean()
    ensures Outcome(s.stored, r, Unchanged)
         == Committed(old(s.stored), p, Decision(View(old(s.stored), p.tenant), p, id, accept, env), env.now)
  {
    hide Own, OwnEvents;
    var requests, devices := Own(s.requests, p.tenant), Own(s.devices, p.tenant);
    if id !in requests {
      return Refused(NotFound);
    }
    var request := requests[id].data;
    if request.device !in devices || devices[request.device].data.owner != p.subject {
      return Refused(Forbidden);
    }
    if request.state != Pending {
      return Refused(Conflict);
    }
    if request.expiresAt <= env.now {
      s.requests := s.requests[id := Row(p.tenant, request.(state := Expired))];
      s.Audit(p, SupportExpired, OnSupportRequest, id, env.now);
      s.Commit();
      return Refused(Gone);
    }
    request := request.(state := if accept then Accepted else Denied);
    request := request.(decidedAt := Some(env.now));
    s.requests := s.requests[id := Row(p.tenant, request)];
    s.Audit(p, if accept then SupportAccepted else SupportDenied, OnSupportRequest, id, env.now);
    s.Commit();
    r := RequestRead(id, request);
  }

  method EndSupportRequest(s: Session, p: Principal, id: Id, env: Env) returns (r: Response)
    requires s.Clean()
    modifies s
    ensures s.Clean()
    ensures Outcome(s.stored, r, Unchanged) == Committed(old(s.stored), p, End(View(old(s.stored), p.tenant), p, id, env), env.now)
  {
    hide Own, OwnEvents;
    var requests, devices := Own(s.requests, p.tenant), Own(s.devices, p.tenant);
    if id !in requests {
      return Refused(NotFound);
    }
    var request := requests[id].data;
    var isTarget := request.device in devices && devices[request.device].data.owner == p.subject;
    if p.subject != request.requester && !isTarget {
      return Refused(Forbidden);
    }
    if request.state != Accepted {
      return Refused(Conflict);
    }
    request := request.(state := Ended);
    request := request.(endedAt := Some(env.now));
    s.requests := s.requests[id := Row(p.tenant, request)];
    s.Audit(p, SupportEnded, OnSupportRequest, id, env.now);
    s.Commit();
    r := RequestRead(id, request);
  }

  lemma Frame(db: Db, p: Principal, op: SupportOp, env: Env)
    ensures Untouched(db, Exec(db, p, op, env).db)
    ensures Exec(db, p, op, env).effect == Unchanged
  {
    hide Untouched, Committed, DecideOp, View;
  }

  // ---- tenants

  lemma ApplyStep(db: Db, p: Principal, saved: Saved, now: Time)
    requires saved.SavedDevice? && saved.id in db.devices ==> db.devices[saved.id].tenant == p.tenant
    requires saved.SavedRequest? && saved.id in db.requests ==> db.requests[saved.id].tenant == p.tenant
    ensures TenantStep(db, Apply(db, p, saved, now), p.tenant)
  {
    UnchangedStep(db, p.tenant);
    match saved {
      case Nothing =>
      case SavedDevice(id, device, action) =>
        PutStep(db.devices, p.tenant, id, device);
        AppendStep(db.audit, Event(p.tenant, p.subject, action, OnDevice, id, now));
      case SavedRequest(id, request, action) =>
        PutStep(db.requests, p.tenant, id, request);
        AppendStep(db.audit, Event(p.tenant, p.subject, action, OnSupportRequest, id, now));
    }
    hide TableStep, AuditStep;
  }

  lemma ApplySame(a: Db, b: Db, p: Principal, saved: Saved, now: Time)
    requires SameView(a, b, p.tenant)
    ensures SameView(Apply(a, p, saved, now), Apply(b, p, saved, now), p.tenant)
  {
    hide SameRows;
    match saved {
      case Nothing =>
      case SavedDevice(id, device, action) =>
        PutSame(a.devices, b.devices, p.tenant, id, device);
        AppendSame(a.audit, b.audit, Event(p.tenant, p.subject, action, OnDevice, id, now));
      case SavedRequest(id, request, action) =>
        PutSame(a.requests, b.requests, p.tenant, id, request);
        AppendSame(a.audit, b.audit, Event(p.tenant, p.subject, action, OnSupportRequest, id, now));
    }
  }

  lemma StaysInTenant(config: Config, db: Db, p: Principal, op: SupportOp, env: Env)
    requires ValidEnv(config, db, env)
    ensures TenantStep(db, Exec(db, p, op, env).db, p.tenant)
  {
    ApplyStep(db, p, DecideOp(View(db, p.tenant), p, op, env).saved, env.now);
  }

  /** The endpoints read nothing but their tenant's rows. */
  lemma DependsOnView(a: Db, b: Db, p: Principal, op: SupportOp, env: Env)
    requires SameView(a, b, p.tenant)
    ensures SameView(Exec(a, p, op, env).db, Exec(b, p, op, env).db, p.tenant)
    ensures Exec(a, p, op, env).response == Exec(b, p, op, env).response
  {
    SameViewIsView(a, b, p.tenant);
    hide SameView, Apply, DecideOp;
    ApplySame(a, b, p, DecideOp(View(a, p.tenant), p, op, env).saved, env.now);
  }
}
