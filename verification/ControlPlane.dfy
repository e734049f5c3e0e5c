/** The control plane as one state machine: a request is one atomic step, and a run is a sequence of requests. */
module ControlPlane {
  import opened Rows
  import opened Tables
  import opened Text
  import Accounts
  import Clients
  import Deployments
  import FileServers
  import Support
  import Vpn

  datatype Op =
    | OfSupport(support: Support.SupportOp)
    | OfFileServers(server: FileServers.FileServerOp)
    | OfDeployments(deployment: Deployments.DeploymentOp)
    | OfAccounts(account: Accounts.AccountOp)
    | OfVpn(vpn: Vpn.VpnOp)
    | OfClients(client: Clients.ClientOp)

  /** A request with a token, or one of the two that carry credentials. */
  datatype Call =
    | Call(principal: Principal, op: Op)
    | Login(credentials: Accounts.Credentials)
    | SetUp(credentials: Accounts.Credentials, displayName: string)

  datatype Step = Step(call: Call, env: Env)

  function TenantOf(call: Call): string {
    if call.Call? then call.principal.tenant else Strip(call.credentials.tenant)
  }

  function ExecOp(config: Config, db: Db, p: Principal, op: Op, env: Env): Outcome {
    match op
    case OfSupport(o) => Support.Exec(db, p, o, env)
    case OfFileServers(o) => FileServers.Exec(db, p, o, env)
    case OfDeployments(o) => Deployments.Exec(config, db, p, o, env)
    case OfAccounts(o) => Accounts.Exec(config, db, p, o, env)
    case OfVpn(o) => Vpn.Exec(config, db, p, o, env)
    case OfClients(o) => Clients.Exec(config, db, p, o, env)
  }

  function Exec(config: Config, db: Db, step: Step): Outcome {
    match step.call
    case Call(p, op) => ExecOp(config, db, p, op, step.env)
    case Login(c) => Accounts.Login(config, db, c, step.env)
    case SetUp(c, displayName) => Accounts.SetUp(config, db, c, displayName, step.env)
  }

  /** Each request is answered by the endpoints of its kind, on the whole database. */
  lemma RequestsAreDispatched(config: Config, db: Db, p: Principal, env: Env)
    ensures forall op :: Exec(config, db, Step(Call(p, OfSupport(op)), env)) == Support.Exec(db, p, op, env)
    ensures forall op :: Exec(config, db, Step(Call(p, OfFileServers(op)), env)) == FileServers.Exec(db, p, op, env)
    ensures forall op :: Exec(config, db, Step(Call(p, OfDeployments(op)), env)) == Deployments.Exec(config, db, p, op, env)
    ensures forall op :: Exec(config, db, Step(Call(p, OfAccounts(op)), env)) == Accounts.Exec(config, db, p, op, env)
    ensures forall op :: Exec(config, db, Step(Call(p, OfVpn(op)), env)) == Vpn.Exec(config, db, p, op, env)
    ensures forall op :: Exec(config, db, Step(Call(p, OfClients(op)), env)) == Clients.Exec(config, db, p, op, env)
    ensures forall c :: Exec(config, db, Step(Login(c), env)) == Accounts.Login(config, db, c, env)
    ensures forall c, name :: Exec(config, db, Step(SetUp(c, name), env)) == Accounts.SetUp(config, db, c, name, env)
  {
    hide Support.Exec, FileServers.Exec, Deployments.Exec, Accounts.Exec, Vpn.Exec, Clients.Exec, Accounts.Login, Accounts.SetUp;
  }

  // ---- runs

  function Run(config: Config, db: Db, steps: seq<Step>): Db
    decreases |steps|
  {
    if steps == [] then db else Run(config, Exec(config, db, steps[0]).db, steps[1..])
  }

  /** Every step draws fresh ids and codes in the state it meets. */
  ghost predicate ValidRun(config: Config, db: Db, steps: seq<Step>)
    decreases |steps|
  {
    steps != [] ==> ValidEnv(config, db, steps[0].env) && ValidRun(config, Exec(config, db, steps[0]).db, steps[1..])
  }

  /** The first requests of a run lead to a state from which the rest runs on. */
  lemma {:induction false} RunSplit(config: Config, db: Db, steps: seq<Step>, i: nat)
    requires i <= |steps| && ValidRun(config, db, steps)
    ensures ValidRun(config, db, steps[..i]) && ValidRun(config, Run(config, db, steps[..i]), steps[i..])
    ensures Run(config, db, steps) == Run(config, Run(config, db, steps[..i]), steps[i..])
    decreases i
  {
    hide Exec, ValidEnv;
    if i == 0 {
      assert steps[..0] == [] && steps[0..] == steps;
    } else {
      RunSplit(config, Exec(config, db, steps[0]).db, steps[1..], i - 1);
      assert steps[..i][1..] == steps[1..][..i - 1] && steps[1..][i - 1..] == steps[i..];
    }
  }

  /** What the tenant's own requests got back, in order, and what they did to the interface. */
  function Answers(config: Config, db: Db, steps: seq<Step>, tenant: string): seq<(Response, Effect)>
    decreases |steps|
  {
    if steps == [] then []
    else
      var out := Exec(config, db, steps[0]);
      (if TenantOf(steps[0].call) == tenant then [(out.response, out.effect)] else [])
      + Answers(config, out.db, steps[1..], tenant)
  }

  /** The run without the requests of other tenants. */
  function Purged(steps: seq<Step>, tenant: string): seq<Step> {
    if steps == [] then []
    else (if TenantOf(steps[0].call) == tenant then [steps[0]] else []) + Purged(steps[1..], tenant)
  }

  // ---- one step

  /** Every request changes rows and logs events of its own tenant only. */
  lemma StaysInTenant(config: Config, db: Db, step: Step)
    requires ValidEnv(config, db, step.env)
    ensures TenantStep(db, Exec(config, db, step).db, TenantOf(step.call))
  {
    hide Support.Exec, FileServers.Exec, Deployments.Exec, Accounts.Exec, Vpn.Exec, Clients.Exec;
    hide Accounts.Login, Accounts.SetUp, SameView, TenantStep;
    var env := step.env;
    match step.call {
      case Call(p, op) =>
        match op {
          case OfSupport(o) => Support.StaysInTenant(config, db, p, o, env);
          case OfFileServers(o) => FileServers.StaysInTenant(config, db, p, o, env);
          case OfDeployments(o) => Deployments.StaysInTenant(config, db, p, o, env);
          case OfAccounts(o) => Accounts.StaysInTenant(config, db, p, o, env);
          case OfVpn(o) => Vpn.StaysInTenant(config, db, p, o, env);
          case OfClients(o) => Clients.StaysInTenant(config, db, p, o, env);
        }
      case Login(c) => Accounts.LoginStaysInTenant(config, db, c, env);
      case SetUp(c, displayName) => Accounts.SetUpStaysInTenant(config, db, c, displayName, env);
    }
  }

  /** Every request answers from, and acts on, the rows of its own tenant; setup also on the installation flag. */
  lemma DependsOnView(config: Config, a: Db, b: Db, step: Step)
    requires SameView(a, b, TenantOf(step.call)) && a.initialized == b.initialized
    ensures SameView(Exec(config, a, step).db, Exec(config, b, step).db, TenantOf(step.call))
    ensures Exec(config, a, step).response == Exec(config, b, step).response
    ensures Exec(config, a, step).effect == Exec(config, b, step).effect
    ensures Exec(config, a, step).db.initialized == Exec(config, b, step).db.initialized
  {
    hide Support.Exec, FileServers.Exec, Deployments.Exec, Accounts.Exec, Vpn.Exec, Clients.Exec;
    hide Accounts.Login, Accounts.SetUp, SameView, TenantStep;
    var env := step.env;
    match step.call {
      case Call(p, op) =>
        FlagUnchanged(config, a, step);
        FlagUnchanged(config, b, step);
        match op {
          case OfSupport(o) =>
            Support.Frame(a, p, o, env);
            Support.Frame(b, p, o, env);
            Support.DependsOnView(a, b, p, o, env);
          case OfFileServers(o) =>
            FileServers.Frame(a, p, o, env);
            FileServers.Frame(b, p, o, env);
            FileServers.DependsOnView(a, b, p, o, env);
          case OfDeployments(o) =>
            Deployments.Frame(config, a, p, o, env);
            Deployments.Frame(config, b, p, o, env);
            Deployments.DependsOnView(config, a, b, p, o, env);
          case OfAccounts(o) =>
            Accounts.Frame(config, a, p, o, env);
            Accounts.Frame(config, b, p, o, env);
            Accounts.DependsOnView(config, a, b, p, o, env);
          case OfVpn(o) => Vpn.DependsOnView(config, a, b, p, o, env);
          case OfClients(o) => Clients.DependsOnView(config, a, b, p, o, env);
        }
      case Login(c) => Accounts.LoginDependsOnView(config, a, b, c, env);
      case SetUp(c, displayName) => Accounts.SetUpDependsOnView(config, a, b, c, displayName, env);
    }
  }

  lemma OpKeepsFlag(config: Config, db: Db, p: Principal, op: Op, env: Env)
    ensures ExecOp(config, db, p, op, env).db.initialized == db.initialized
  {
    hide Support.Exec, FileServers.Exec, Deployments.Exec, Accounts.Exec, Vpn.Exec, Clients.Exec;
    match op {
      case OfSupport(o) => Support.Frame(db, p, o, env);
      case OfFileServers(o) => FileServers.Frame(db, p, o, env);
      case OfDeployments(o) => Deployments.Frame(config, db, p, o, env);
      case OfAccounts(o) => Accounts.Frame(config, db, p, o, env);
      case OfVpn(o) => Vpn.Frame(config, db, p, o, env);
      case OfClients(o) => Clients.Frame(config, db, p, o, env);
    }
  }

  /** Only setup touches the installation flag. */
  lemma FlagUnchanged(config: Config, db: Db, step: Step)
    ensures !step.call.SetUp? ==> Exec(config, db, step).db.initialized == db.initialized
  {
    hide ExecOp, Accounts.Login, Accounts.SetUp;
    if step.call.Call? {
      OpKeepsFlag(config, db, step.call.principal, step.call.op, step.env);
    }
  }

  // ---- non-interference

  /** No request of another tenant claims the installation; setups of others may be in the run where they are refused. */
  ghost predicate NoForeignClaim(config: Config, db: Db, steps: seq<Step>, tenant: string)
    decreases |steps|
  {
    steps != [] ==>
      var next := Exec(config, db, steps[0]).db;
      && (TenantOf(steps[0].call) != tenant ==> next.initialized == db.initialized)
      && NoForeignClaim(config, next, steps[1..], tenant)
  }

  /** A claimed installation stays claimed, and refuses setup. */
  lemma ClaimIsKept(config: Config, db: Db, step: Step)
    ensures db.initialized ==> Exec(config, db, step).db.initialized
    ensures !step.call.SetUp? ==> Exec(config, db, step).db.initialized == db.initialized
  {
    FlagUnchanged(config, db, step);
    hide ExecOp, Accounts.Login;
  }

  /** Others claim nothing in a run that starts on a claimed installation, or in which only the tenant itself sets up. */
  lemma {:induction false} ClaimedOrOwnSetUps(config: Config, db: Db, steps: seq<Step>, tenant: string)
    requires db.initialized || forall i :: 0 <= i < |steps| && steps[i].call.SetUp? ==> TenantOf(steps[i].call) == tenant
    ensures NoForeignClaim(config, db, steps, tenant)
    decreases |steps|
  {
    hide Exec;
    if steps == [] {
    } else {
      ClaimIsKept(config, db, steps[0]);
      ClaimedOrOwnSetUps(config, Exec(config, db, steps[0]).db, steps[1..], tenant);
    }
  }

  /**
   * Erasing the requests of every other tenant from a run changes neither what a tenant owns at the end,
   * its log included, nor any answer it got on the way. A claim by others is not erased: it is global by design.
   */
  lemma {:induction false} NonInterference(config: Config, a: Db, b: Db, steps: seq<Step>, tenant: string)
    requires ValidRun(config, a, steps)
    requires SameView(a, b, tenant) && a.initialized == b.initialized
    requires NoForeignClaim(config, a, steps, tenant)
    ensures View(Run(config, a, steps), tenant) == View(Run(config, b, Purged(steps, tenant)), tenant)
    ensures Answers(config, a, steps, tenant) == Answers(config, b, Purged(steps, tenant), tenant)
    decreases |steps|
  {
    hide SameView, View, ValidEnv, TenantStep, Exec;
    SameViewIsView(a, b, tenant);
    if steps == [] {
    } else {
      var step, rest := steps[0], Purged(steps[1..], tenant);
      var a' := Exec(config, a, step).db;
      if TenantOf(step.call) == tenant {
        DependsOnView(config, a, b, step);
        NonInterference(config, a', Exec(config, b, step).db, steps[1..], tenant);
        assert ([step] + rest)[1..] == rest;
      } else {
        StaysInTenant(config, a, step);
        TenantStepIsInvisible(a, a', TenantOf(step.call), tenant);
        SameViewIsView(a', b, tenant);
        NonInterference(config, a', b, steps[1..], tenant);
        assert [] + rest == rest;
        assert Answers(config, a, steps, tenant) == [] + Answers(config, a', steps[1..], tenant);
      }
    }
  }

  /** The same, for a whole run from one state. */
  lemma TenantsDoNotInterfere(config: Config, db: Db, steps: seq<Step>, tenant: string)
    requires ValidRun(config, db, steps) && NoForeignClaim(config, db, steps, tenant)
    ensures View(Run(config, db, steps), tenant) == View(Run(config, db, Purged(steps, tenant)), tenant)
    ensures Answers(config, db, steps, tenant) == Answers(config, db, Purged(steps, tenant), tenant)
  {
    SameViewIsView(db, db, tenant);
    NonInterference(config, db, db, steps, tenant);
  }
}
