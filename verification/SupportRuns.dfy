/** In every reachable state the audit log determines the state of every support request. */
module SupportRuns {
  import opened Wrappers
  import opened Rows
  import opened Tables
  import opened ControlPlane
  import opened SupportLog
  import opened Text
  import Accounts
  import Clients
  import Deployments
  import FileServers
  import Support
  import Vpn

  lemma FileServersAreQuiet(db: Db, p: Principal, op: FileServers.FileServerOp, env: Env)
    ensures Quiet(db.audit, FileServers.Exec(db, p, op, env).db.audit)
  {
    var saved := FileServers.Decide(View(db, p.tenant), p, op, env).saved;
    hide FileServers.Decide, Quiet, View;
    SameIsQuiet(db.audit);
    if saved.SavedServer? {
      AuditIsQuiet(db.audit, Event(p.tenant, p.subject, saved.action, OnFileServer, saved.id, env.now));
    }
  }

  lemma SameIsQuiet(audit: seq<Event>)
    ensures Quiet(audit, audit)
  {
  }

  lemma DeploymentsAreQuiet(config: Config, db: Db, p: Principal, op: Deployments.DeploymentOp, env: Env)
    ensures Quiet(db.audit, Deployments.Exec(config, db, p, op, env).db.audit)
  {
    var saved := Deployments.Decide(config, View(db, p.tenant), p, op, env).saved;
    hide Deployments.Decide, Quiet, View;
    SameIsQuiet(db.audit);
    if saved.SavedProfile? {
      AuditIsQuiet(db.audit, Event(p.tenant, p.subject, saved.action, OnDeployment, saved.id, env.now));
    } else if saved.SavedCode? {
      AuditIsQuiet(db.audit, Event(p.tenant, p.subject, DeploymentDownloaded, OnDeployment, saved.code.profileId, env.now));
    }
  }

  lemma AccountSaveIsQuiet(db: Db, p: Principal, saved: Accounts.Saved, now: Time)
    ensures Quiet(db.audit, Accounts.Apply(db, p, saved, now).audit)
  {
    hide Quiet, Accounts.Cascade;
    SameIsQuiet(db.audit);
    if saved.SavedUser? {
      AuditIsQuiet(db.audit, Event(p.tenant, p.subject, saved.action, OnUser, saved.id, now));
    } else if saved.RemovedUser? {
      AuditIsQuiet(db.audit, Event(p.tenant, p.subject, UserDeleted, OnUser, saved.id, now));
    }
  }

  lemma VpnIsQuiet(config: Config, db: Db, p: Principal, op: Vpn.VpnOp, env: Env)
    ensures Quiet(db.audit, Vpn.Exec(config, db, p, op, env).db.audit)
  {
    var saved := Vpn.Decide(config, View(db, p.tenant), p, op, env).saved;
    hide Vpn.Decide, Vpn.SyncSaved, Quiet, View;
    SameIsQuiet(db.audit);
    if saved.SavedNetwork? {
      AuditIsQuiet(db.audit, Event(p.tenant, p.subject, NetworkConfigured, OnNetwork, saved.id, env.now));
    } else if saved.SavedPeer? {
      AuditIsQuiet(db.audit, Event(p.tenant, p.subject, saved.action, OnPeer, saved.id, env.now));
    }
  }

  lemma ClientsAreNeutral(config: Config, db: Db, p: Principal, op: Clients.ClientOp, env: Env)
    requires ValidEnv(config, db, env)
    ensures Neutral(db, Clients.Exec(config, db, p, op, env).db)
  {
    var saved := Clients.Decide(config, View(db, p.tenant), p, op, env).saved;
    hide Clients.Decide, Clients.SyncPeer, Quiet, View;
    SameIsQuiet(db.audit);
    if saved.Changes? {
      AuditIsQuiet(db.audit, Event(p.tenant, p.subject, saved.action, saved.targetType, saved.targetId, env.now));
    }
  }

  lemma NeutralWhereOthersUnchanged(a: Db, b: Db)
    requires b.requests == a.requests && b.devices == a.devices && Quiet(a.audit, b.audit)
    ensures Neutral(a, b)
  {
  }

  lemma OpKeepsLog(config: Config, db: Db, p: Principal, op: Op, env: Env)
    requires LogInvariant(db) && ValidEnv(config, db, env)
    ensures LogInvariant(ExecOp(config, db, p, op, env).db)
  {
    hide Support.Exec, FileServers.Exec, Deployments.Exec, Accounts.Exec, Vpn.Exec, Clients.Exec, LogInvariant, Quiet, Neutral;
    var out := ExecOp(config, db, p, op, env);
    match op {
      case OfSupport(o) => SupportEndpointsKeepLog(config, db, p, o, env);
      case OfFileServers(o) =>
        FileServers.Frame(db, p, o, env);
        FileServersAreQuiet(db, p, o, env);
        UnchangedKeepsLog(db, out.db);
      case OfDeployments(o) =>
        Deployments.Frame(config, db, p, o, env);
        DeploymentsAreQuiet(config, db, p, o, env);
        UnchangedKeepsLog(db, out.db);
      case OfAccounts(o) =>
        Accounts.Frame(config, db, p, o, env);
        AccountsAreQuiet(config, db, p, o, env);
        UnchangedKeepsLog(db, out.db);
      case OfVpn(o) =>
        Vpn.Frame(config, db, p, o, env);
        VpnIsQuiet(config, db, p, o, env);
        UnchangedKeepsLog(db, out.db);
      case OfClients(o) =>
        ClientsAreNeutral(config, db, p, o, env);
        NeutralKeepsLog(db, out.db);
    }
  }

  lemma SupportEndpointsKeepLog(config: Config, db: Db, p: Principal, op: Support.SupportOp, env: Env)
    requires LogInvariant(db) && ValidEnv(config, db, env)
    ensures LogInvariant(Support.Exec(db, p, op, env).db)
  {
    hide LogInvariant, Support.Exec;
    SupportKeepsLog(db, p, op, env);
  }

  lemma AccountsAreQuiet(config: Config, db: Db, p: Principal, op: Accounts.AccountOp, env: Env)
    ensures Quiet(db.audit, Accounts.Exec(config, db, p, op, env).db.audit)
  {
    hide Accounts.Decide, Quiet, View, Accounts.Apply;
    AccountSaveIsQuiet(db, p, Accounts.Decide(config, View(db, p.tenant), p, op, env).saved, env.now);
  }

  lemma UnchangedKeepsLog(a: Db, b: Db)
    requires LogInvariant(a) && b.requests == a.requests && b.devices == a.devices && Quiet(a.audit, b.audit)
    ensures LogInvariant(b)
  {
    hide LogInvariant, Quiet;
    NeutralWhereOthersUnchanged(a, b);
    NeutralKeepsLog(a, b);
  }

  lemma LoginIsQuiet(config: Config, db: Db, c: Accounts.Credentials, env: Env)
    ensures Quiet(db.audit, Accounts.Login(config, db, c, env).db.audit)
  {
    var tenant := Strip(c.tenant);
    var id := Accounts.LoginDecision(config, View(db, tenant), c, env);
    hide Quiet, Accounts.LoginDecision;
    SameIsQuiet(db.audit);
    if id.Some? {
      var p := Accounts.PrincipalOf(tenant, View(db, tenant).users[id.value].data);
      AuditIsQuiet(db.audit, Event(p.tenant, p.subject, SessionLogin, OnUser, id.value, env.now));
    }
  }

  lemma SetUpIsQuiet(config: Config, db: Db, c: Accounts.Credentials, displayName: string, env: Env)
    ensures Quiet(db.audit, Accounts.SetUp(config, db, c, displayName, env).db.audit)
  {
    var user := Accounts.FirstAdministrator(config, c, displayName, env.now);
    hide Quiet, View, Accounts.Apply;
    SameIsQuiet(db.audit);
    AccountSaveIsQuiet(db, Accounts.PrincipalOf(Strip(c.tenant), user), Accounts.SavedUser(env.newId, user, InstallationAdminCreated),
                       env.now);
  }

  /** Every request keeps the agreement of support requests with their logs. */
  lemma StepKeepsLog(config: Config, db: Db, step: Step)
    requires LogInvariant(db) && ValidEnv(config, db, step.env)
    ensures LogInvariant(Exec(config, db, step).db)
  {
    hide LogInvariant, Quiet, ExecOp, Accounts.Login, Accounts.SetUp;
    var out := Exec(config, db, step);
    match step.call {
      case Call(p, op) => OpKeepsLog(config, db, p, op, step.env);
      case Login(c) =>
        LoginIsQuiet(config, db, c, step.env);
        UnchangedKeepsLog(db, out.db);
      case SetUp(c, displayName) =>
        SetUpIsQuiet(config, db, c, displayName, step.env);
        UnchangedKeepsLog(db, out.db);
    }
  }

  lemma {:induction false} RunKeepsLog(config: Config, db: Db, steps: seq<Step>)
    requires LogInvariant(db) && ValidRun(config, db, steps)
    ensures LogInvariant(Run(config, db, steps))
    decreases |steps|
  {
    hide LogInvariant, Exec, ValidEnv;
    if steps == [] {
    } else {
      StepKeepsLog(config, db, steps[0]);
      RunKeepsLog(config, Exec(config, db, steps[0]).db, steps[1..]);
    }
  }

  /**
   * In every reachable state the events of a support request are exactly one of the five lifecycles, the one that its
   * state names. A decision is an event of the device owner, and an acceptance or denial comes before the expiry; an ending
   * is an event of the requester or the owner. The times in the row are those of the events.
   */
  lemma LogDeterminesEveryState(config: Config, steps: seq<Step>, id: Id)
    requires ValidRun(config, EMPTY, steps)
    ensures var db := Run(config, EMPTY, steps);
            id in db.requests ==>
              var log, r := EventsOf(db.audit, id), db.requests[id].data;
              && StateOf(log) == Some(r.state)
              && log[0].actor == r.requester
              && (|log| >= 2 ==> r.device in db.devices && log[1].actor == db.devices[r.device].data.owner)
              && (|log| == 3 ==> log[2].actor == r.requester || log[2].actor == db.devices[r.device].data.owner)
              && (|log| >= 2 ==> (log[1].at < r.expiresAt <==> log[1].action != SupportExpired))
              && r.decidedAt == (if |log| >= 2 && log[1].action != SupportExpired then Some(log[1].at) else None)
              && r.endedAt == (if |log| == 3 then Some(log[2].at) else None)
  {
    RunKeepsLog(config, EMPTY, steps);
    var db := Run(config, EMPTY, steps);
    if id in db.requests {
      assert Logged(db, id);
    }
  }
}
