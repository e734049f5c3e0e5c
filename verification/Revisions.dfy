/** A profile's revision is a true version number across update, delete and the cascade of user deletion. */
module Revisions {
  import opened Rows
  import opened Tables
  import opened ControlPlane
  import Accounts
  import Clients
  import Deployments
  import FileServers
  import Support
  import Vpn

  /** Either nothing changed, or the profile was enabled and its revision grew. */
  ghost predicate Versioned(a: Profile, b: Profile) {
    b == a || (a.enabled && b.revision > a.revision)
  }

  /** Profiles are never removed, never change tenant, and change only under a new revision. */
  ghost predicate ProfileStep(a: Table<Profile>, b: Table<Profile>) {
    forall id :: id in a ==> id in b && b[id].tenant == a[id].tenant && Versioned(a[id].data, b[id].data)
  }

  lemma ProfileStepTransitive(a: Table<Profile>, b: Table<Profile>, c: Table<Profile>)
    requires ProfileStep(a, b) && ProfileStep(b, c)
    ensures ProfileStep(a, c)
  {
    forall id | id in a ensures id in c && c[id].tenant == a[id].tenant && Versioned(a[id].data, c[id].data) {
      assert id in b;
    }
  }

  lemma SameProfiles(a: Table<Profile>)
    ensures ProfileStep(a, a)
  {
  }

  // ---- one step

  /** A saved profile is new under a fresh id, or the next revision of an enabled one. */
  lemma SavedRevision(config: Config, own: Db, p: Principal, op: Deployments.DeploymentOp, env: Env)
    ensures var saved := Deployments.Decide(config, own, p, op, env).saved;
            saved.SavedProfile? ==>
              || saved.id == env.newId
              || (saved.id in own.profiles && own.profiles[saved.id].data.enabled
                  && saved.profile.revision == own.profiles[saved.id].data.revision + 1)
  {
    hide Deployments.Validate, Deployments.ProfileNameTaken, Deployments.Delivered;
  }

  lemma PutProfileStep(t: Table<Profile>, tenant: string, id: Id, x: Profile)
    requires id in t ==> t[id].tenant == tenant && Versioned(t[id].data, x)
    ensures ProfileStep(t, Put(t, tenant, id, x))
  {
  }

  lemma DeploymentsVersion(config: Config, db: Db, p: Principal, op: Deployments.DeploymentOp, env: Env)
    requires env.newId !in db.profiles
    ensures ProfileStep(db.profiles, Deployments.Exec(config, db, p, op, env).db.profiles)
  {
    var own := View(db, p.tenant);
    var saved := Deployments.Decide(config, own, p, op, env).saved;
    hide Own, OwnEvents, ProfileStep, Put, Deployments.Decide;
    SameProfiles(db.profiles);
    SavedRevision(config, own, p, op, env);
    if saved.SavedProfile? {
      OwnRow(db.profiles, p.tenant, saved.id);
      PutProfileStep(db.profiles, p.tenant, saved.id, saved.profile);
    }
  }

  lemma TargetLossIsVersioned(x: Profile, subject: string, now: Time)
    ensures Versioned(x, Accounts.WithoutTarget(x, subject, now))
  {
  }

  lemma CascadeVersions(t: Table<Profile>, tenant: string, subject: string, now: Time)
    ensures ProfileStep(t, Accounts.Cascade(t, tenant, subject, now))
  {
    hide Versioned, Accounts.WithoutTarget;
    var c := Accounts.Cascade(t, tenant, subject, now);
    forall id | id in t ensures Versioned(t[id].data, c[id].data) {
      TargetLossIsVersioned(t[id].data, subject, now);
      SameIsVersioned(t[id].data);
    }
  }

  lemma SameIsVersioned(x: Profile)
    ensures Versioned(x, x)
  {
  }

  lemma AccountsVersion(config: Config, db: Db, p: Principal, op: Accounts.AccountOp, env: Env)
    ensures ProfileStep(db.profiles, Accounts.Exec(config, db, p, op, env).db.profiles)
  {
    var saved := Accounts.Decide(config, View(db, p.tenant), p, op, env).saved;
    hide Accounts.Decide, View, ProfileStep, Accounts.Cascade;
    SameProfiles(db.profiles);
    if saved.RemovedUser? {
      CascadeVersions(db.profiles, p.tenant, saved.subject, env.now);
    }
  }

  lemma StepVersions(config: Config, db: Db, step: Step)
    requires ValidEnv(config, db, step.env)
    ensures ProfileStep(db.profiles, Exec(config, db, step).db.profiles)
  {
    hide Support.Exec, FileServers.Exec, Deployments.Exec, Accounts.Exec, Vpn.Exec, Clients.Exec, Accounts.Login, Accounts.SetUp;
    assert step.env.newId !in db.profiles;
    hide ProfileStep, ValidEnv;
    SameProfiles(db.profiles);
    var env := step.env;
    match step.call {
      case Call(p, op) =>
        match op {
          case OfSupport(o) => Support.Frame(db, p, o, env);
          case OfFileServers(o) => FileServers.Frame(db, p, o, env);
          case OfDeployments(o) => DeploymentsVersion(config, db, p, o, env);
          case OfAccounts(o) => AccountsVersion(config, db, p, o, env);
          case OfVpn(o) => Vpn.Frame(config, db, p, o, env);
          case OfClients(o) => Clients.Frame(config, db, p, o, env);
        }
      case Login(_) =>
      case SetUp(_, _) =>
    }
  }

  // ---- runs

  lemma {:induction false} RunVersions(config: Config, db: Db, steps: seq<Step>)
    requires ValidRun(config, db, steps)
    ensures ProfileStep(db.profiles, Run(config, db, steps).profiles)
    decreases |steps|
  {
    hide Exec, ProfileStep, ValidEnv;
    SameProfiles(db.profiles);
    if steps == [] {
    } else {
      var next := Exec(config, db, steps[0]).db;
      StepVersions(config, db, steps[0]);
      RunVersions(config, next, steps[1..]);
      ProfileStepTransitive(db.profiles, next.profiles, Run(config, next, steps[1..]).profiles);
    }
  }

  /**
   * At any two points of a run: the profile is still there, its revision has not decreased, equal revisions mean
   * identical content, and a profile that was disabled has not changed since.
   */
  lemma RevisionIsAVersion(config: Config, db: Db, steps: seq<Step>, i: nat, j: nat, id: Id)
    requires ValidRun(config, db, steps) && i <= j <= |steps|
    requires id in Run(config, db, steps[..i]).profiles
    ensures var early, late := Run(config, db, steps[..i]).profiles[id], Run(config, db, steps[..j]).profiles;
            && id in late
            && early.data.revision <= late[id].data.revision
            && (early.data.revision == late[id].data.revision ==> late[id] == early)
            && (!early.data.enabled ==> late[id] == early)
  {
    hide Run, ValidRun, Versioned;
    RunSplit(config, db, steps, j);
    assert steps[..j][..i] == steps[..i];
    RunSplit(config, db, steps[..j], i);
    RunVersions(config, Run(config, db, steps[..i]), steps[..j][i..]);
    StepIsVersioned(Run(config, db, steps[..i]).profiles, Run(config, db, steps[..j]).profiles, id);
  }

  lemma StepIsVersioned(a: Table<Profile>, b: Table<Profile>, id: Id)
    requires ProfileStep(a, b) && id in a
    ensures id in b && a[id].data.revision <= b[id].data.revision
    ensures a[id].data.revision == b[id].data.revision || !a[id].data.enabled ==> b[id] == a[id]
  {
  }
}
