/** A request that is refused changes nothing in the database, with one exception: the decision that comes too late. */
module Refusals {
  import opened Rows
  import opened Tables
  import opened ControlPlane
  import opened ServerKey
  import Accounts
  import Clients
  import Deployments
  import EnrollmentCodes
  import FileServers
  import Support
  import Vpn

  /** The owner of the device decides a pending request after it has expired. */
  ghost predicate Overdue(db: Db, step: Step) {
    && step.call.Call? && step.call.op.OfSupport? && step.call.op.support.Decide?
    && (var p, own, id := step.call.principal, View(db, step.call.principal.tenant), step.call.op.support.id;
        && id in own.requests && Support.Owns(own, p, own.requests[id].data.device)
        && own.requests[id].data.state == Pending && own.requests[id].data.expiresAt <= step.env.now)
  }

  lemma SupportRefusals(db: Db, p: Principal, op: Support.SupportOp, env: Env)
    ensures var d, step := Support.DecideOp(View(db, p.tenant), p, op, env), Step(Call(p, OfSupport(op)), env);
            d.response.Refused? ==> if Overdue(db, step) then d.response == Refused(Gone) else d.saved.Nothing?
  {
    var own := View(db, p.tenant);
    hide View, Support.Request, Support.Revoke;
    if op.Decide? {
    } else if op.CreateRequest? {
      RequestRefusal(own, p, op, env);
    } else if op.RevokeDevice? {
      RevokeRefusal(own, p, op.id, env);
    }
  }

  lemma RequestRefusal(own: Db, p: Principal, op: Support.SupportOp, env: Env)
    requires op.CreateRequest?
    ensures var d := Support.Request(own, p, op, env); d.response.Refused? ==> d.saved.Nothing?
  {
  }

  lemma RevokeRefusal(own: Db, p: Principal, id: Id, env: Env)
    ensures var d := Support.Revoke(own, p, id, env); d.response.Refused? ==> d.saved.Nothing?
  {
  }

  lemma FileServerRefusals(own: Db, p: Principal, op: FileServers.FileServerOp, env: Env)
    ensures var d := FileServers.Decide(own, p, op, env); d.response.Refused? ==> d.saved.Nothing?
  {
    hide FileServers.HostOf, FileServers.Normalized, FileServers.NameTaken, FileServers.IsEnabled;
  }

  lemma DeploymentRefusals(config: Config, own: Db, p: Principal, op: Deployments.DeploymentOp, env: Env)
    ensures var d := Deployments.Decide(config, own, p, op, env); d.response.Refused? ==> d.saved.Nothing?
  {
    hide Deployments.Validate, Deployments.ProfileNameTaken, Deployments.Delivered;
  }

  lemma AccountRefusals(config: Config, own: Db, p: Principal, op: Accounts.AccountOp, env: Env)
    ensures var d := Accounts.Decide(config, own, p, op, env); d.response.Refused? ==> d.saved.Nothing?
  {
    hide Accounts.Grant, Accounts.WithSubject, Accounts.OtherAdministrator;
  }

  lemma VpnRefusals(config: Config, own: Db, p: Principal, op: Vpn.VpnOp, env: Env)
    ensures var d := Vpn.Decide(config, own, p, op, env); d.response.Refused? ==> d.saved.Nothing?
  {
    hide Vpn.RoutesOr, Vpn.ChosenKey, Vpn.PeerTaken, Vpn.ClientText, Vpn.OwnSaved, Vpn.TheNetwork;
  }

  lemma VpnChangesNothing(config: Config, db: Db, p: Principal, op: Vpn.VpnOp, env: Env)
    ensures var out := Vpn.Exec(config, db, p, op, env); out.response.Refused? ==> out.db == db
  {
    VpnRefusals(config, View(db, p.tenant), p, op, env);
    hide Vpn.Decide, View, Vpn.Apply, Vpn.SyncSaved, Own;
  }

  lemma EnrollmentRefusals(config: Config, own: Db, p: Principal, deviceName: string, env: Env)
    ensures var d := Clients.EnrollDecision(config, own, p, deviceName, env); d.response.Refused? ==> d.saved.Nothing?
  {
    hide Clients.ActiveUser, Clients.PeerPolicy, Clients.Issue, Clients.OwnChanges, Vpn.TheNetwork;
  }

  lemma ClientsChangeNothing(config: Config, db: Db, p: Principal, op: Clients.ClientOp, env: Env)
    requires Describable(config, db)
    ensures var out := Clients.Exec(config, db, p, op, env); out.response.Refused? ==> out.db == db
  {
    if op.Bootstrap? {
      hide Clients.Exec, Describable;
      EnrollmentCodes.ChangesAreAnswered(config, db, p, op, env);
    } else {
      EnrollmentRefusals(config, View(db, p.tenant), p, op.deviceName, env);
      hide Clients.EnrollDecision, View, Clients.Apply, Clients.SyncPeer, Own;
    }
  }

  lemma SavedNothing(db: Db, p: Principal, now: Time)
    ensures Support.Apply(db, p, Support.Nothing, now) == db && FileServers.Apply(db, p, FileServers.Nothing, now) == db
    ensures Deployments.Apply(db, p, Deployments.Nothing, now) == db && Accounts.Apply(db, p, Accounts.Nothing, now) == db
  {
  }

  lemma OpRefusals(config: Config, db: Db, p: Principal, op: Op, env: Env)
    requires Describable(config, db)
    ensures var out, step := ExecOp(config, db, p, op, env), Step(Call(p, op), env);
            out.response.Refused? && !Overdue(db, step) ==> out.db == db
  {
    var own := View(db, p.tenant);
    SavedNothing(db, p, env.now);
    hide Support.DecideOp, FileServers.Decide, Deployments.Decide, Accounts.Decide, Vpn.Exec, Clients.Exec, View, Overdue, Describable;
    hide Support.Apply, FileServers.Apply, Deployments.Apply, Accounts.Apply;
    match op {
      case OfSupport(o) => SupportRefusals(db, p, o, env);
      case OfFileServers(o) => FileServerRefusals(own, p, o, env);
      case OfDeployments(o) => DeploymentRefusals(config, own, p, o, env);
      case OfAccounts(o) => AccountRefusals(config, own, p, o, env);
      case OfVpn(o) => VpnChangesNothing(config, db, p, o, env);
      case OfClients(o) => ClientsChangeNothing(config, db, p, o, env);
    }
  }

  /** The late decision is answered 410, and commits the expiry with its event. */
  lemma OverdueDecision(config: Config, db: Db, step: Step)
    requires Overdue(db, step)
    ensures var p, id := step.call.principal, step.call.op.support.id;
            && Has(db.requests, p.tenant, id)
            && Exec(config, db, step).response == Refused(Gone)
            && Exec(config, db, step).db
               == Support.SaveRequest(db, p, id, db.requests[id].data.(state := SupportState.Expired), SupportExpired, step.env.now)
  {
    OwnRow(db.requests, step.call.principal.tenant, step.call.op.support.id);
    hide Own, OwnEvents, Support.SaveRequest;
  }

  /** In every reachable state a refused request leaves the database as it was, unless it is an overdue decision. */
  lemma RefusedRequestsChangeNothing(config: Config, steps: seq<Step>, step: Step)
    ensures var db := Run(config, EMPTY, steps);
            Exec(config, db, step).response.Refused? && !Overdue(db, step) ==> Exec(config, db, step).db == db
  {
    var db := Run(config, EMPTY, steps);
    ReachableIsDescribable(config, steps);
    hide Run, Overdue, Describable, ExecOp;
    if step.call.Call? {
      OpRefusals(config, db, step.call.principal, step.call.op, step.env);
    } else {
      hide View, Accounts.Apply;
    }
  }
}
