/** The audit log determines the state of every support request. */
module SupportLog {
  import opened Wrappers
  import opened Rows
  import opened Tables
  import Support

  /** The events of one request, in order. */
  function EventsOf(audit: seq<Event>, id: Id): seq<Event> {
    if audit == [] then []
    else
      var e := audit[|audit| - 1];
      EventsOf(audit[..|audit| - 1], id) + (if e.targetType == OnSupportRequest && e.targetId == id then [e] else [])
  }

  /** The state that a request's events stand for; any other sequence of actions stands for none. */
  function StateOf(log: seq<Event>): Option<SupportState> {
    if |log| == 0 || log[0].action != SupportRequested then None
    else if |log| == 1 then Some(Pending)
    else if |log| == 2 && log[1].action == SupportAccepted then Some(Accepted)
    else if |log| == 2 && log[1].action == SupportDenied then Some(Denied)
    else if |log| == 2 && log[1].action == SupportExpired then Some(SupportState.Expired)
    else if |log| == 3 && log[1].action == SupportAccepted && log[2].action == SupportEnded then Some(Ended)
    else None
  }

  /** A log names who acted and when, in agreement with the row of its request and the owner of the device. */
  ghost predicate LogOf(tenant: string, r: SupportRequest, owner: string, log: seq<Event>) {
    && StateOf(log) == Some(r.state)
    && (forall i :: 0 <= i < |log| ==> log[i].tenant == tenant)
    && log[0].actor == r.requester
    && (|log| >= 2 ==> log[1].actor == owner)
    && (|log| >= 2 ==> (log[1].at < r.expiresAt <==> log[1].action != SupportExpired))
    && (|log| == 3 ==> log[2].actor == r.requester || log[2].actor == owner)
    && r.decidedAt == (if |log| >= 2 && log[1].action != SupportExpired then Some(log[1].at) else None)
    && r.endedAt == (if |log| == 3 then Some(log[2].at) else None)
  }

  /** The device of a stored request is registered with its tenant, and the request has its log. */
  ghost predicate Logged(db: Db, id: Id)
    requires id in db.requests
  {
    var tenant, r := db.requests[id].tenant, db.requests[id].data;
    Has(db.devices, tenant, r.device) && LogOf(tenant, r, db.devices[r.device].data.owner, EventsOf(db.audit, id))
  }

  ghost predicate LogInvariant(db: Db) {
    && (forall id :: id in db.requests ==> Logged(db, id))
    && (forall i :: 0 <= i < |db.audit| && db.audit[i].targetType == OnSupportRequest ==> db.audit[i].targetId in db.requests)
  }

  // ---- steps

  lemma EventsAppend(audit: seq<Event>, e: Event, id: Id)
    ensures EventsOf(audit + [e], id)
         == EventsOf(audit, id) + (if e.targetType == OnSupportRequest && e.targetId == id then [e] else [])
  {
    assert (audit + [e])[..|audit|] == audit;
  }

  lemma {:induction false} NoEventsYet(audit: seq<Event>, id: Id)
    requires forall i :: 0 <= i < |audit| && audit[i].targetType == OnSupportRequest ==> audit[i].targetId != id
    ensures EventsOf(audit, id) == []
  {
    if audit == [] {
    } else {
      NoEventsYet(audit[..|audit| - 1], id);
    }
  }

  /** Steps that leave requests and device ownership alone and log no support event keep every request's log. */
  ghost predicate Neutral(a: Db, b: Db) {
    && b.requests == a.requests
    && (forall id :: id in a.devices ==>
          id in b.devices && b.devices[id].tenant == a.devices[id].tenant && b.devices[id].data.owner == a.devices[id].data.owner)
    && Quiet(a.audit, b.audit)
  }

  /** At most one more event, about something other than a support request. */
  ghost predicate Quiet(a: seq<Event>, b: seq<Event>) {
    b == a || (|b| == |a| + 1 && b[..|a|] == a && b[|a|].targetType != OnSupportRequest)
  }

  lemma AuditIsQuiet(audit: seq<Event>, e: Event)
    requires e.targetType != OnSupportRequest
    ensures Quiet(audit, audit + [e])
  {
    assert (audit + [e])[..|audit|] == audit;
  }

  lemma NeutralKeepsLog(a: Db, b: Db)
    requires LogInvariant(a) && Neutral(a, b)
    ensures LogInvariant(b)
  {
    if b.audit != a.audit {
      var e := b.audit[|a.audit|];
      assert b.audit == a.audit + [e];
      forall id | id in b.requests ensures Logged(b, id) {
        EventsAppend(a.audit, e, id);
        assert EventsOf(a.audit, id) + [] == EventsOf(a.audit, id);
        assert Logged(a, id);
      }
    } else {
      forall id | id in b.requests ensures Logged(b, id) {
        assert Logged(a, id);
      }
    }
  }

  /** A step on one request keeps the logs of all others. */
  lemma SaveKeepsOthers(db: Db, p: Principal, id: Id, request: SupportRequest, action: Action, now: Time)
    requires LogInvariant(db)
    requires var next := Support.SaveRequest(db, p, id, request, action, now); Logged(next, id)
    ensures LogInvariant(Support.SaveRequest(db, p, id, request, action, now))
  {
    var next := Support.SaveRequest(db, p, id, request, action, now);
    var e := Event(p.tenant, p.subject, action, OnSupportRequest, id, now);
    forall other | other in next.requests && other != id ensures Logged(next, other) {
      EventsAppend(db.audit, e, other);
      assert EventsOf(db.audit, other) + [] == EventsOf(db.audit, other);
      assert Logged(db, other);
    }
  }

  lemma NewRowIsLogged(db: Db, p: Principal, id: Id, request: SupportRequest, now: Time)
    requires EventsOf(db.audit, id) == [] && Has(db.devices, p.tenant, request.device)
    requires request.requester == p.subject && request.state == Pending && request.decidedAt.None? && request.endedAt.None?
    ensures Logged(Support.SaveRequest(db, p, id, request, SupportRequested, now), id)
  {
    OneMoreEvent(db, p, id, request, SupportRequested, now);
    var next := Support.SaveRequest(db, p, id, request, SupportRequested, now);
    var e := Event(p.tenant, p.subject, SupportRequested, OnSupportRequest, id, now);
    assert EventsOf(next.audit, id) == [e];
    hide EventsOf;
    assert StateOf([e]) == Some(Pending);
  }

  lemma RequestIsLogged(db: Db, p: Principal, op: Support.SupportOp, env: Env)
    requires LogInvariant(db) && op.CreateRequest? && env.newId !in db.requests
    ensures var saved := Support.Request(View(db, p.tenant), p, op, env).saved; LogInvariant(Support.Apply(db, p, saved, env.now))
  {
    var saved := Support.Request(View(db, p.tenant), p, op, env).saved;
    if saved.SavedRequest? {
      NoEventsYet(db.audit, env.newId);
      NewRowIsLogged(db, p, env.newId, saved.request, env.now);
      hide Logged, LogInvariant;
      SaveKeepsOthers(db, p, env.newId, saved.request, SupportRequested, env.now);
    }
  }

  /** One more event on a request that has a row. */
  lemma OneMoreEvent(db: Db, p: Principal, id: Id, request: SupportRequest, action: Action, now: Time)
    ensures EventsOf(Support.SaveRequest(db, p, id, request, action, now).audit, id)
         == EventsOf(db.audit, id) + [Event(p.tenant, p.subject, action, OnSupportRequest, id, now)]
  {
    EventsAppend(db.audit, Event(p.tenant, p.subject, action, OnSupportRequest, id, now), id);
  }

  predicate Owner(db: Db, p: Principal, device: Id) {
    Has(db.devices, p.tenant, device) && db.devices[device].data.owner == p.subject
  }

  lemma DecidedRowIsLogged(db: Db, p: Principal, id: Id, action: Action, now: Time)
    requires Has(db.requests, p.tenant, id) && Logged(db, id) && db.requests[id].data.state == Pending
    requires Owner(db, p, db.requests[id].data.device)
    requires action == SupportAccepted || action == SupportDenied || action == SupportExpired
    requires action == SupportExpired <==> db.requests[id].data.expiresAt <= now
    ensures Logged(Support.SaveRequest(db, p, id, DecidedRow(db.requests[id].data, action, now), action, now), id)
  {
    var r := db.requests[id].data;
    OneMoreEvent(db, p, id, r, action, now);
    DecidedLog(p.tenant, r, db.devices[r.device].data.owner, EventsOf(db.audit, id),
               Event(p.tenant, p.subject, action, OnSupportRequest, id, now));
    hide LogOf, EventsOf;
  }

  /** The row of a request after its owner's decision, or after one that came too late. */
  function DecidedRow(r: SupportRequest, action: Action, now: Time): SupportRequest {
    if action == SupportExpired then r.(state := SupportState.Expired)
    else r.(state := if action == SupportAccepted then Accepted else Denied, decidedAt := Some(now))
  }

  lemma DecidedLog(tenant: string, r: SupportRequest, owner: string, log: seq<Event>, e: Event)
    requires LogOf(tenant, r, owner, log) && r.state == Pending
    requires e.tenant == tenant && e.actor == owner
    requires e.action == SupportAccepted || e.action == SupportDenied || e.action == SupportExpired
    requires e.action == SupportExpired <==> r.expiresAt <= e.at
    ensures LogOf(tenant, DecidedRow(r, e.action, e.at), owner, log + [e])
  {
  }

  lemma AppliedRequest(db: Db, p: Principal, saved: Support.Saved, now: Time)
    requires !saved.SavedDevice?
    ensures Support.Apply(db, p, saved, now)
         == if saved.SavedRequest? then Support.SaveRequest(db, p, saved.id, saved.request, saved.action, now) else db
  {
  }

  lemma LoggedRow(db: Db, id: Id)
    requires LogInvariant(db)
    ensures id in db.requests ==> Logged(db, id)
  {
    hide Logged;
  }

  lemma DecisionIsLogged(db: Db, p: Principal, id: Id, accept: bool, env: Env)
    requires LogInvariant(db)
    ensures var saved := Support.Decision(View(db, p.tenant), p, id, accept, env).saved;
            LogInvariant(Support.Apply(db, p, saved, env.now))
  {
    var own := View(db, p.tenant);
    var saved := Support.Decision(own, p, id, accept, env).saved;
    DecisionSaves(own, p, id, accept, env);
    OwnRequest(db, p, id);
    LoggedRow(db, id);
    AppliedRequest(db, p, saved, env.now);
    hide Support.Decision, View, Logged, LogInvariant, Owner, Support.Apply, Support.SaveRequest;
    if saved.SavedRequest? {
      DecidedRowIsLogged(db, p, id, saved.action, env.now);
      SaveKeepsOthers(db, p, id, saved.request, saved.action, env.now);
    }
  }

  /** A request seen by its tenant is the stored row, and so is the device it names. */
  lemma OwnRequest(db: Db, p: Principal, id: Id)
    ensures var own := View(db, p.tenant);
            && (id in own.requests <==> Has(db.requests, p.tenant, id))
            && (id in own.requests ==>
                  && own.requests[id] == db.requests[id]
                  && (Support.Owns(own, p, own.requests[id].data.device) <==> Owner(db, p, own.requests[id].data.device)))
  {
    hide OwnEvents;
  }

  lemma DecisionSaves(own: Db, p: Principal, id: Id, accept: bool, env: Env)
    ensures var saved := Support.Decision(own, p, id, accept, env).saved;
            saved != Support.Nothing ==>
              && id in own.requests && own.requests[id].data.state == Pending && Support.Owns(own, p, own.requests[id].data.device)
              && saved.SavedRequest? && saved.id == id
              && (var r := own.requests[id].data;
                  if r.expiresAt <= env.now then saved.action == SupportExpired && saved.request == r.(state := SupportState.Expired)
                  else
                    && saved.action == (if accept then SupportAccepted else SupportDenied)
                    && saved.request == r.(state := if accept then Accepted else Denied, decidedAt := Some(env.now)))
  {
  }

  lemma EndSaves(own: Db, p: Principal, id: Id, env: Env)
    ensures var saved := Support.End(own, p, id, env).saved;
            saved != Support.Nothing ==>
              && id in own.requests && own.requests[id].data.state == Accepted
              && (p.subject == own.requests[id].data.requester || Support.Owns(own, p, own.requests[id].data.device))
              && saved == Support.SavedRequest(id, own.requests[id].data.(state := Ended, endedAt := Some(env.now)), SupportEnded)
  {
  }

  lemma EndedRowIsLogged(db: Db, p: Principal, id: Id, now: Time)
    requires Has(db.requests, p.tenant, id) && Logged(db, id) && db.requests[id].data.state == Accepted
    requires p.subject == db.requests[id].data.requester || Owner(db, p, db.requests[id].data.device)
    ensures Logged(Support.SaveRequest(db, p, id, db.requests[id].data.(state := Ended, endedAt := Some(now)), SupportEnded, now), id)
  {
    var r := db.requests[id].data;
    OneMoreEvent(db, p, id, r, SupportEnded, now);
    EndedLog(p.tenant, r, db.devices[r.device].data.owner, EventsOf(db.audit, id),
             Event(p.tenant, p.subject, SupportEnded, OnSupportRequest, id, now));
    hide LogOf, EventsOf;
  }

  lemma EndedLog(tenant: string, r: SupportRequest, owner: string, log: seq<Event>, e: Event)
    requires LogOf(tenant, r, owner, log) && r.state == Accepted
    requires e.tenant == tenant && e.action == SupportEnded && (e.actor == r.requester || e.actor == owner)
    ensures LogOf(tenant, r.(state := Ended, endedAt := Some(e.at)), owner, log + [e])
  {
  }

  lemma EndIsLogged(db: Db, p: Principal, id: Id, env: Env)
    requires LogInvariant(db)
    ensures var saved := Support.End(View(db, p.tenant), p, id, env).saved; LogInvariant(Support.Apply(db, p, saved, env.now))
  {
    var own := View(db, p.tenant);
    var saved := Support.End(own, p, id, env).saved;
    EndSaves(own, p, id, env);
    OwnRequest(db, p, id);
    LoggedRow(db, id);
    AppliedRequest(db, p, saved, env.now);
    hide Support.End, View, Logged, LogInvariant, Owner, Support.Apply, Support.SaveRequest;
    if saved.SavedRequest? {
      EndedRowIsLogged(db, p, id, env.now);
      SaveKeepsOthers(db, p, id, saved.request, SupportEnded, env.now);
    }
  }

  /** Every support endpoint keeps the agreement of rows and log, the expiry that answers an error included. */
  lemma SupportKeepsLog(db: Db, p: Principal, op: Support.SupportOp, env: Env)
    requires LogInvariant(db) && env.newId !in db.requests && env.newId !in db.devices
    ensures LogInvariant(Support.Exec(db, p, op, env).db)
  {
    var saved := Support.DecideOp(View(db, p.tenant), p, op, env).saved;
    hide LogInvariant, Neutral, Support.Apply, Support.Register, Support.Revoke, Support.Request, Support.Decision, Support.End, View;
    match op {
      case RegisterDevice(_) =>
        DeviceStepIsNeutral(db, p, op, env);
        NeutralKeepsLog(db, Support.Apply(db, p, saved, env.now));
      case RevokeDevice(_) =>
        DeviceStepIsNeutral(db, p, op, env);
        NeutralKeepsLog(db, Support.Apply(db, p, saved, env.now));
      case CreateRequest(_, _, _, _) => RequestIsLogged(db, p, op, env);
      case Decide(id, accept) => DecisionIsLogged(db, p, id, accept, env);
      case EndRequest(id) => EndIsLogged(db, p, id, env);
    }
  }

  lemma DeviceSaveIsNeutral(db: Db, p: Principal, id: Id, device: Device, action: Action, now: Time)
    requires id in db.devices ==> db.devices[id].tenant == p.tenant && db.devices[id].data.owner == device.owner
    ensures Neutral(db, Audit(db.(devices := Put(db.devices, p.tenant, id, device)), p, action, OnDevice, id, now))
  {
    var e := Event(p.tenant, p.subject, action, OnDevice, id, now);
    assert (db.audit + [e])[..|db.audit|] == db.audit;
  }

  lemma DeviceStepIsNeutral(db: Db, p: Principal, op: Support.SupportOp, env: Env)
    requires env.newId !in db.devices && (op.RegisterDevice? || op.RevokeDevice?)
    ensures var saved := Support.DecideOp(View(db, p.tenant), p, op, env).saved; Neutral(db, Support.Apply(db, p, saved, env.now))
  {
    var saved := Support.DecideOp(View(db, p.tenant), p, op, env).saved;
    if saved.SavedDevice? {
      DeviceSaveIsNeutral(db, p, saved.id, saved.device, saved.action, env.now);
    }
  }

  /** In a state with the invariant, the events of a request are exactly one of the five lifecycles, the one its state names. */
  lemma LogDeterminesState(db: Db, id: Id)
    requires LogInvariant(db) && id in db.requests
    ensures var log, state := EventsOf(db.audit, id), db.requests[id].data.state;
            && StateOf(log) == Some(state)
            && |log| == (if state == Pending then 1 else if state == Ended then 3 else 2)
            && log[0].action == SupportRequested
            && (state == Accepted || state == Ended ==> log[1].action == SupportAccepted)
            && (state == Denied ==> log[1].action == SupportDenied)
            && (state == SupportState.Expired ==> log[1].action == SupportExpired)
            && (state == Ended ==> log[2].action == SupportEnded)
  {
    assert Logged(db, id);
    hide EventsOf;
  }
}
