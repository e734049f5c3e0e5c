/**
 * What requests about devices and support sessions do, on the stored rows themselves: when each is accepted, the one row
 * and the one event it adds, and that everything else stays.
 */
module SupportEffects {
  import opened Wrappers
  import opened Rows
  import opened Tables
  import StringOrder
  import Support

  ghost predicate OwnsDevice(db: Db, p: Principal, device: Id) {
    Has(db.devices, p.tenant, device) && db.devices[device].data.owner == p.subject
  }

  /** Anybody may register a device, which is then theirs. */
  lemma RegisteredDevice(db: Db, p: Principal, name: string, env: Env)
    ensures var x := Device(p.subject, name, true, None);
            Support.Exec(db, p, Support.RegisterDevice(name), env)
            == Outcome(db.(devices := db.devices[env.newId := Row(p.tenant, x)],
                           audit := db.audit + [Event(p.tenant, p.subject, DeviceRegistered, OnDevice, env.newId, env.now)]),
                       DeviceRead(env.newId, x), Unchanged)
  {
    hide View;
  }

  /** The owner or an administrator revokes a device; revoking it again succeeds and changes nothing. */
  lemma RevokedDevice(db: Db, p: Principal, id: Id, env: Env)
    ensures var out := Support.Exec(db, p, Support.RevokeDevice(id), env);
            && (out.response == NoContent <==> OwnsDevice(db, p, id) || (Has(db.devices, p.tenant, id) && "tenant_admin" in p.roles))
            && (out.response != NoContent ==>
                  out == Outcome(db, Refused(if Has(db.devices, p.tenant, id) then Forbidden else NotFound), Unchanged))
            && (out.response == NoContent && !db.devices[id].data.registered ==> out.db == db)
            && (out.response == NoContent && db.devices[id].data.registered ==>
                  var x := db.devices[id].data;
                  out.db == db.(devices := db.devices[id := Row(p.tenant, Device(x.owner, x.name, false, Some(env.now)))],
                                audit := db.audit + [Event(p.tenant, p.subject, DeviceRevoked, OnDevice, id, env.now)]))
  {
    OwnRow(db.devices, p.tenant, id);
    hide Own, OwnEvents;
  }

  /** Support staff and administrators ask for a session on a registered device of their tenant. */
  lemma RequestedSession(db: Db, p: Principal, device: Id, purpose: string, permissions: set<string>, lifetime: Time, env: Env)
    ensures var out := Support.Exec(db, p, Support.CreateRequest(device, purpose, permissions, lifetime), env);
            && (out.response.RequestRead? <==>
                  && ("support" in p.roles || "tenant_admin" in p.roles)
                  && Has(db.devices, p.tenant, device) && db.devices[device].data.registered)
            && (!out.response.RequestRead? ==>
                  out == Outcome(db, Refused(if "support" in p.roles || "tenant_admin" in p.roles then NotFound else Forbidden), Unchanged))
            && (out.response.RequestRead? ==>
                  && Asked(out.response.request, p, device, purpose, permissions, env.now + lifetime)
                  && out == Outcome(db.(requests := db.requests[env.newId := Row(p.tenant, out.response.request)],
                                        audit := db.audit + [RequestEvent(p, SupportRequested, env.newId, env.now)]),
                                    RequestRead(env.newId, out.response.request), Unchanged))
  {
    OwnRow(db.devices, p.tenant, device);
    hide Own, OwnEvents, StringOrder.StrictlySorted;
  }

  /** A pending request of the caller, with the permissions asked for in order, until the time given. */
  ghost predicate Asked(r: SupportRequest, p: Principal, device: Id, purpose: string, permissions: set<string>, until: Time) {
    && r == SupportRequest(p.subject, device, purpose, r.permissions, Pending, until, None, None)
    && StringOrder.StrictlySorted(r.permissions) && forall x :: x in r.permissions <==> x in permissions
  }

  function RequestEvent(p: Principal, action: Action, id: Id, now: Time): Event {
    Event(p.tenant, p.subject, action, OnSupportRequest, id, now)
  }

  /** The owner of the device decides a pending request; too late a decision expires it. */
  lemma DecidedRequest(db: Db, p: Principal, id: Id, accept: bool, env: Env)
    ensures var out := Support.Exec(db, p, Support.Decide(id, accept), env);
            if !Has(db.requests, p.tenant, id) then out == Outcome(db, Refused(NotFound), Unchanged)
            else
              var r := db.requests[id].data;
              if !OwnsDevice(db, p, r.device) then out == Outcome(db, Refused(Forbidden), Unchanged)
              else if r.state != Pending then out == Outcome(db, Refused(Conflict), Unchanged)
              else
                var next := if r.expiresAt <= env.now then r.(state := SupportState.Expired)
                            else if accept then r.(state := Accepted, decidedAt := Some(env.now))
                            else r.(state := Denied, decidedAt := Some(env.now));
                var action := if r.expiresAt <= env.now then SupportExpired else if accept then SupportAccepted else SupportDenied;
                out == Outcome(db.(requests := db.requests[id := Row(p.tenant, next)],
                                   audit := db.audit + [RequestEvent(p, action, id, env.now)]),
                               if r.expiresAt <= env.now then Refused(Gone) else RequestRead(id, next), Unchanged)
  {
    OwnRow(db.requests, p.tenant, id);
    if Has(db.requests, p.tenant, id) {
      OwnRow(db.devices, p.tenant, db.requests[id].data.device);
    }
    hide Own, OwnEvents;
  }

  /** The requester or the owner of the device ends an accepted session. */
  lemma EndedSession(db: Db, p: Principal, id: Id, env: Env)
    ensures var out := Support.Exec(db, p, Support.EndRequest(id), env);
            if !Has(db.requests, p.tenant, id) then out == Outcome(db, Refused(NotFound), Unchanged)
            else
              var r := db.requests[id].data;
              if p.subject != r.requester && !OwnsDevice(db, p, r.device) then out == Outcome(db, Refused(Forbidden), Unchanged)
              else if r.state != Accepted then out == Outcome(db, Refused(Conflict), Unchanged)
              else
                var next := r.(state := Ended, endedAt := Some(env.now));
                out == Outcome(db.(requests := db.requests[id := Row(p.tenant, next)],
                                   audit := db.audit + [RequestEvent(p, SupportEnded, id, env.now)]),
                               RequestRead(id, next), Unchanged)
  {
    OwnRow(db.requests, p.tenant, id);
    if Has(db.requests, p.tenant, id) {
      OwnRow(db.devices, p.tenant, db.requests[id].data.device);
    }
    hide Own, OwnEvents;
  }
}
