/** Enrollment codes over whole runs: issued for ten minutes, activated at most once, good for ever after a timely activation. */
module EnrollmentCodes {
  import opened Wrappers
  import opened Rows
  import opened Tables
  import opened ControlPlane
  import opened ServerKey
  import Accounts
  import Clients
  import Deployments
  import FileServers
  import Support
  import Vpn
  import X25519

  // ---- what a step may do to a code

  /** A bootstrap with the code that has the given hash, by the given user. */
  ghost predicate Presents(config: Config, step: Step, tenant: string, subject: string, hash: string) {
    && step.call.Call? && step.call.principal.tenant == tenant && step.call.principal.subject == subject
    && step.call.op.OfClients? && step.call.op.client.Bootstrap?
    && !Clients.IsLogin(step.call.op.client.enrollmentCode)
    && config.hash(step.call.op.client.enrollmentCode.value) == hash
  }

  /** The row is what a download in this step creates. */
  ghost predicate IssuedIn(config: Config, step: Step, row: Row<Enrollment>) {
    && step.call.Call? && step.call.principal.tenant == row.tenant
    && step.call.op.OfDeployments? && step.call.op.deployment.Download?
    && step.call.op.deployment.id == row.data.profileId
    && row.data.tokenHash == config.hash(step.env.code)
    && row.data.expiresAt == step.env.now + Deployments.CODE_LIFETIME
  }

  /** The row is presented before its expiry, and takes the time of the step. */
  ghost predicate ActivatedIn(config: Config, step: Step, row: Row<Enrollment>) {
    && Presents(config, step, row.tenant, row.data.subject, row.data.tokenHash)
    && row.data.usedAt == Some(step.env.now) && step.env.now < row.data.expiresAt
  }

  /** Codes are never removed; the only change of a code is its one activation. */
  ghost predicate CodeStep(config: Config, step: Step, a: Table<Enrollment>, b: Table<Enrollment>) {
    && (forall id :: id in a ==> id in b && (b[id] == a[id] || Activated(config, step, a[id], b[id])))
    && (forall id :: id in b && id !in a ==> IssuedIn(config, step, b[id]) && b[id].data.usedAt.None?)
  }

  ghost predicate Activated(config: Config, step: Step, a: Row<Enrollment>, b: Row<Enrollment>) {
    a.data.usedAt.None? && b == Row(a.tenant, a.data.(usedAt := b.data.usedAt)) && ActivatedIn(config, step, b)
  }

  lemma SameCodes(config: Config, step: Step, a: Table<Enrollment>)
    ensures CodeStep(config, step, a, a)
  {
  }

  /** A saved code was not used and not expired, belongs to the caller, and is only marked as used. */
  lemma SavedCode(config: Config, own: Db, p: Principal, op: Clients.ClientOp, env: Env)
    ensures var saved := Clients.Decide(config, own, p, op, env).saved;
            saved.Changes? && saved.code.Some? ==>
              && op.Bootstrap? && !Clients.IsLogin(op.enrollmentCode)
              && saved.code.value.0 in own.enrollments
              && (var was := own.enrollments[saved.code.value.0].data;
                  && was.usedAt.None? && env.now < was.expiresAt && was.subject == p.subject
                  && was.tokenHash == config.hash(op.enrollmentCode.value)
                  && saved.code.value.1 == was.(usedAt := Some(env.now)))
  {
    hide Clients.BootstrapPeer, Clients.BootstrapResponse, Clients.DeviceFor, Clients.ActiveUser, Clients.PeerPolicy;
    hide Clients.Issue, Clients.Assigned;
  }

  lemma PutCode(config: Config, step: Step, t: Table<Enrollment>, id: Id, row: Row<Enrollment>)
    requires id in t && Activated(config, step, t[id], row)
    ensures CodeStep(config, step, t, t[id := row])
  {
  }

  lemma ClientsActivate(config: Config, db: Db, p: Principal, op: Clients.ClientOp, env: Env)
    ensures CodeStep(config, Step(Call(p, OfClients(op)), env), db.enrollments, Clients.Exec(config, db, p, op, env).db.enrollments)
  {
    hide Clients.Decide, View, CodeStep, Clients.Committed;
    var step := Step(Call(p, OfClients(op)), env);
    var d := Clients.Decide(config, View(db, p.tenant), p, op, env);
    SameCodes(config, step, db.enrollments);
    SavedCode(config, View(db, p.tenant), p, op, env);
    Clients.CodesAfter(config, db, p, d, env);
    if d.saved.Changes? && d.saved.code.Some? {
      var (id, code) := d.saved.code.value;
      ViewRow(db, p.tenant, id);
      PutCode(config, step, db.enrollments, id, Row(p.tenant, code));
    }
  }

  lemma DownloadIssues(config: Config, db: Db, p: Principal, op: Deployments.DeploymentOp, env: Env)
    requires env.newId !in db.enrollments
    ensures CodeStep(config, Step(Call(p, OfDeployments(op)), env), db.enrollments,
                     Deployments.Exec(config, db, p, op, env).db.enrollments)
  {
    var step := Step(Call(p, OfDeployments(op)), env);
    var saved := Deployments.Decide(config, View(db, p.tenant), p, op, env).saved;
    SavedDownload(config, View(db, p.tenant), p, op, env);
    hide Deployments.Decide, View;
    SameCodes(config, step, db.enrollments);
    if saved.SavedCode? {
      NewCode(config, step, db.enrollments, saved.id, Row(p.tenant, saved.code));
    }
    hide CodeStep;
  }

  lemma NewCode(config: Config, step: Step, t: Table<Enrollment>, id: Id, row: Row<Enrollment>)
    requires id !in t && IssuedIn(config, step, row) && row.data.usedAt.None?
    ensures CodeStep(config, step, t, t[id := row])
  {
  }

  lemma SavedDownload(config: Config, own: Db, p: Principal, op: Deployments.DeploymentOp, env: Env)
    ensures var saved := Deployments.Decide(config, own, p, op, env).saved;
            saved.SavedCode? ==>
              && op.Download? && saved.id == env.newId && saved.code.profileId == op.id
              && saved.code.tokenHash == config.hash(env.code) && saved.code.usedAt.None?
              && saved.code.expiresAt == env.now + Deployments.CODE_LIFETIME
  {
    hide Deployments.Validate, Deployments.ProfileNameTaken, Deployments.Delivered;
  }

  lemma StepOnCodes(config: Config, db: Db, step: Step)
    requires ValidEnv(config, db, step.env)
    ensures CodeStep(config, step, db.enrollments, Exec(config, db, step).db.enrollments)
  {
    assert step.env.newId !in db.enrollments;
    hide ExecOp, Accounts.Login, Accounts.SetUp, CodeStep, ValidEnv;
    SameCodes(config, step, db.enrollments);
    if step.call.Call? {
      OpOnCodes(config, db, step.call.principal, step.call.op, step.env);
    }
  }

  lemma OpOnCodes(config: Config, db: Db, p: Principal, op: Op, env: Env)
    requires env.newId !in db.enrollments
    ensures CodeStep(config, Step(Call(p, op), env), db.enrollments, ExecOp(config, db, p, op, env).db.enrollments)
  {
    hide Support.Exec, FileServers.Exec, Deployments.Exec, Accounts.Exec, Vpn.Exec, Clients.Exec, CodeStep;
    SameCodes(config, Step(Call(p, op), env), db.enrollments);
    match op {
      case OfSupport(o) => Support.Frame(db, p, o, env);
      case OfFileServers(o) => FileServers.Frame(db, p, o, env);
      case OfDeployments(o) => DownloadIssues(config, db, p, o, env);
      case OfAccounts(o) => Accounts.Frame(config, db, p, o, env);
      case OfVpn(o) => Vpn.Frame(config, db, p, o, env);
      case OfClients(o) => ClientsActivate(config, db, p, o, env);
    }
  }

  // ---- failed attempts

  lemma NothingToDescribe(config: Config, db: Db, tenant: string, env: Env)
    requires Describable(config, db)
    ensures Clients.NetworkReadable(config, Vpn.TheNetwork(View(db, tenant), env))
  {
    hide OwnEvents, X25519.ValidateKey;
  }

  lemma BootstrapAnswers(config: Config, own: Db, p: Principal, op: Clients.ClientOp, env: Env)
    requires op.Bootstrap? && Clients.NetworkReadable(config, Vpn.TheNetwork(own, env))
    ensures var d := Clients.BootstrapDecision(config, own, p, op, env); d.saved.Changes? <==> d.response.Bootstrapped?
    ensures var d := Clients.BootstrapDecision(config, own, p, op, env); d.response.Bootstrapped? || d.response.Refused?
  {
    hide Clients.Choose, Clients.BootstrapPeer, Clients.DeviceFor, Clients.ActiveUser, X25519.ValidateKey;
    hide Clients.OwnChanges, Vpn.TheNetwork, Clients.NetworkReadable;
  }

  lemma ChangesAreAnswered(config: Config, db: Db, p: Principal, op: Clients.ClientOp, env: Env)
    requires op.Bootstrap? && Describable(config, db)
    ensures var out := Clients.Exec(config, db, p, op, env); !out.response.Bootstrapped? ==> out.db == db && out.response.Refused?
  {
    NothingToDescribe(config, db, p.tenant, env);
    hide Describable, Clients.NetworkReadable;
    BootstrapAnswers(config, View(db, p.tenant), p, op, env);
    hide Clients.BootstrapDecision, View, Clients.Apply, Clients.SyncPeer, Own;
  }

  ghost predicate FailedBootstrap(config: Config, db: Db, step: Step) {
    && step.call.Call? && step.call.op.OfClients? && step.call.op.client.Bootstrap?
    && !Exec(config, db, step).response.Bootstrapped?
  }

  /** In every reachable state, whatever the server key, a bootstrap that fails leaves every code as it was. */
  lemma FailedAttemptsLeaveCodes(config: Config, steps: seq<Step>, step: Step)
    requires FailedBootstrap(config, Run(config, EMPTY, steps), step)
    ensures var db := Run(config, EMPTY, steps); Exec(config, db, step).db.enrollments == db.enrollments
  {
    hide Clients.Exec, Run, Describable;
    ReachableIsDescribable(config, steps);
    ChangesAreAnswered(config, Run(config, EMPTY, steps), step.call.principal, step.call.op.client, step.env);
  }

  // ---- runs

  /** The bootstrap at position k of the run succeeded, and activated the row. */
  ghost predicate ActivatedAt(config: Config, steps: seq<Step>, k: nat, row: Row<Enrollment>)
    requires k < |steps|
  {
    && ActivatedIn(config, steps[k], row)
    && Exec(config, Run(config, EMPTY, steps[..k]), steps[k]).response.Bootstrapped?
  }

  lemma RunSnoc(config: Config, steps: seq<Step>, n: nat)
    requires n < |steps| && ValidRun(config, EMPTY, steps)
    ensures var db := Run(config, EMPTY, steps[..n]);
            && ValidRun(config, EMPTY, steps[..n]) && ValidEnv(config, db, steps[n].env)
            && Run(config, EMPTY, steps[..n + 1]) == Exec(config, db, steps[n]).db
  {
    hide Exec, ValidEnv;
    RunSplit(config, EMPTY, steps, n);
    RunSplit(config, EMPTY, steps, n + 1);
    assert steps[..n + 1][..n] == steps[..n] && steps[..n + 1][n..] == [steps[n]];
    RunSplit(config, EMPTY, steps[..n + 1], n);
    var db := Run(config, EMPTY, steps[..n]);
    assert [steps[n]][1..] == [];
    assert Run(config, Exec(config, db, steps[n]).db, []) == Exec(config, db, steps[n]).db;
  }

  /** In a step that activates a code, the bootstrap succeeds. */
  lemma ActivationSucceeds(config: Config, steps: seq<Step>, step: Step, id: Id)
    requires var db := Run(config, EMPTY, steps);
             && id in db.enrollments && id in Exec(config, db, step).db.enrollments
             && Activated(config, step, db.enrollments[id], Exec(config, db, step).db.enrollments[id])
    ensures Exec(config, Run(config, EMPTY, steps), step).response.Bootstrapped?
  {
    var db := Run(config, EMPTY, steps);
    if !Exec(config, db, step).response.Bootstrapped? {
      hide Exec, Run;
      FailedAttemptsLeaveCodes(config, steps, step);
    }
  }

  /** Every code of a reachable state was issued by a download ten minutes before its expiry; if used, it was activated in time. */
  lemma {:induction false} CodesHaveHistories(config: Config, steps: seq<Step>, n: nat, id: Id)
    requires n <= |steps| && ValidRun(config, EMPTY, steps)
    requires id in Run(config, EMPTY, steps[..n]).enrollments
    ensures var row := Run(config, EMPTY, steps[..n]).enrollments[id];
            && (exists j :: 0 <= j < n && IssuedIn(config, steps[j], row))
            && (row.data.usedAt.Some? ==> exists k :: 0 <= k < n && ActivatedAt(config, steps, k, row))
    decreases n
  {
    assert n != 0;
    var m := n - 1;
    RunSnoc(config, steps, m);
    var before, after := Run(config, EMPTY, steps[..m]), Run(config, EMPTY, steps[..n]);
    var row := after.enrollments[id];
    StepOnCodes(config, before, steps[m]);
    if id !in before.enrollments {
      assert IssuedIn(config, steps[m], row);
    } else {
      CodesHaveHistories(config, steps, m, id);
      var was := before.enrollments[id];
      var j :| 0 <= j < m && IssuedIn(config, steps[j], was);
      assert row == was || Activated(config, steps[m], was, row);
      assert IssuedIn(config, steps[j], row);
      if row != was {
        ActivationSucceeds(config, steps[..m], steps[m], id);
        assert ActivatedAt(config, steps, m, row);
      } else if row.data.usedAt.Some? {
        var k :| 0 <= k < m && ActivatedAt(config, steps, k, was);
        assert ActivatedAt(config, steps, k, row);
      }
    }
  }

  /** Nothing of a code changes but its time of use, and that is set at most once. */
  ghost predicate SetAtMostOnce(early: Row<Enrollment>, late: Row<Enrollment>) {
    && late.tenant == early.tenant && late.data == early.data.(usedAt := late.data.usedAt)
    && (early.data.usedAt.Some? ==> late == early)
  }

  lemma OneStepOnCode(config: Config, step: Step, early: Row<Enrollment>, a: Table<Enrollment>, b: Table<Enrollment>, id: Id)
    requires CodeStep(config, step, a, b) && id in a && SetAtMostOnce(early, a[id])
    ensures id in b && SetAtMostOnce(early, b[id])
  {
  }

  /** Once set, the time of use never changes again. */
  lemma {:induction false} UsedAtIsSetOnce(config: Config, steps: seq<Step>, i: nat, j: nat, id: Id)
    requires ValidRun(config, EMPTY, steps) && i <= j <= |steps|
    requires id in Run(config, EMPTY, steps[..i]).enrollments
    ensures var early, late := Run(config, EMPTY, steps[..i]).enrollments[id], Run(config, EMPTY, steps[..j]).enrollments;
            id in late && SetAtMostOnce(early, late[id])
    decreases j - i
  {
    hide Run, ValidRun;
    if i >= j {
    } else {
      hide SetAtMostOnce;
      UsedAtIsSetOnce(config, steps, i, j - 1, id);
      CodeStays(config, steps, j - 1, Run(config, EMPTY, steps[..i]).enrollments[id], id);
    }
  }

  /** One more step of a run. */
  lemma CodeStays(config: Config, steps: seq<Step>, n: nat, early: Row<Enrollment>, id: Id)
    requires ValidRun(config, EMPTY, steps) && n < |steps|
    requires var before := Run(config, EMPTY, steps[..n]).enrollments; id in before && SetAtMostOnce(early, before[id])
    ensures var after := Run(config, EMPTY, steps[..n + 1]).enrollments; id in after && SetAtMostOnce(early, after[id])
  {
    hide Exec, ValidEnv, CodeStep, SetAtMostOnce, ValidRun, Run;
    RunSnoc(config, steps, n);
    var before, after := Run(config, EMPTY, steps[..n]), Run(config, EMPTY, steps[..n + 1]);
    StepOnCodes(config, before, steps[n]);
    OneStepOnCode(config, steps[n], early, before.enrollments, after.enrollments, id);
  }

  /** A bootstrap that saves anything with a code found the caller's own code, unexpired or already activated. */
  lemma SuccessHasCode(config: Config, own: Db, p: Principal, op: Clients.ClientOp, env: Env)
    requires op.Bootstrap? && !Clients.IsLogin(op.enrollmentCode)
    requires Clients.BootstrapDecision(config, own, p, op, env).saved.Changes?
    ensures exists id :: id in own.enrollments && own.enrollments[id].data.subject == p.subject
                         && own.enrollments[id].data.tokenHash == config.hash(op.enrollmentCode.value)
                         && (own.enrollments[id].data.usedAt.Some? || env.now < own.enrollments[id].data.expiresAt)
  {
    hide Clients.BootstrapPeer, Clients.DeviceFor, Clients.ActiveUser, Clients.BootstrapResponse, Clients.OwnChanges;
    var hash := config.hash(op.enrollmentCode.value);
    var found := First(env.order, Clients.Codes(own.enrollments, hash, p.subject));
    assert Clients.ByCode(own, p.subject, hash, env).Chosen?;
    assert found.value in own.enrollments;
  }

  lemma SuccessSaves(config: Config, db: Db, step: Step)
    requires step.call.Call? && step.call.op.OfClients? && step.call.op.client.Bootstrap?
    requires Exec(config, db, step).response.Bootstrapped?
    ensures var p := step.call.principal;
            Clients.BootstrapDecision(config, View(db, p.tenant), p, step.call.op.client, step.env).saved.Changes?
  {
    var p := step.call.principal;
    var d := Clients.BootstrapDecision(config, View(db, p.tenant), p, step.call.op.client, step.env);
    RejectionOrChanges(config, View(db, p.tenant), p, step.call.op.client, step.env);
    hide Clients.BootstrapDecision, View, Clients.Apply, Clients.SyncPeer, Own;
  }

  lemma RejectionOrChanges(config: Config, own: Db, p: Principal, op: Clients.ClientOp, env: Env)
    requires op.Bootstrap?
    ensures var d := Clients.BootstrapDecision(config, own, p, op, env); d.saved.Nothing? ==> d.response.Refused?
  {
    hide Clients.BootstrapPeer, Clients.DeviceFor, Clients.ActiveUser, Clients.BootstrapResponse, Clients.OwnChanges, Clients.Choose;
  }

  /**
   * Every successful bootstrap with a code happens before that code's expiry, or is preceded in the run by a successful
   * bootstrap with the same code, tenant and subject that did.
   */
  lemma EverySuccessIsCovered(config: Config, steps: seq<Step>, k: nat, tenant: string, subject: string, hash: string)
    requires k < |steps| && ValidRun(config, EMPTY, steps)
    requires Presents(config, steps[k], tenant, subject, hash)
    requires Exec(config, Run(config, EMPTY, steps[..k]), steps[k]).response.Bootstrapped?
    ensures exists id :: id in Run(config, EMPTY, steps[..k]).enrollments
                         && CoveredBy(config, steps, k, tenant, subject, hash, Run(config, EMPTY, steps[..k]).enrollments[id])
  {
    var db, p, op := Run(config, EMPTY, steps[..k]), steps[k].call.principal, steps[k].call.op.client;
    var own := View(db, tenant);
    SuccessSaves(config, db, steps[k]);
    SuccessHasCode(config, own, p, op, steps[k].env);
    var id :| id in own.enrollments && own.enrollments[id].data.subject == subject && own.enrollments[id].data.tokenHash == hash
              && (own.enrollments[id].data.usedAt.Some? || steps[k].env.now < own.enrollments[id].data.expiresAt);
    OwnRow(db.enrollments, tenant, id);
    CodesHaveHistories(config, steps, k, id);
    var row := db.enrollments[id];
    hide Exec, Run, ValidRun, View, Presents;
    if row.data.usedAt.Some? {
      var j :| 0 <= j < k && ActivatedAt(config, steps, j, row);
    }
    assert CoveredBy(config, steps, k, tenant, subject, hash, row);
  }

  /** The code of tenant and subject with the hash is unexpired at step k, or was activated in time by an earlier success. */
  ghost predicate CoveredBy(config: Config, steps: seq<Step>, k: nat, tenant: string, subject: string, hash: string, row: Row<Enrollment>)
    requires k < |steps|
  {
    && row.tenant == tenant && row.data.subject == subject && row.data.tokenHash == hash
    && (steps[k].env.now < row.data.expiresAt || exists j :: 0 <= j < k && ActivatedAt(config, steps, j, row))
  }
}
