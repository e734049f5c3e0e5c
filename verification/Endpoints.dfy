/** The endpoints as written, dispatched by request, against the state machine. */
module Endpoints {
  import opened Tables
  import opened Session
  import opened ControlPlane
  import Accounts
  import Clients
  import Deployments
  import FileServers
  import Support
  import Vpn

  method HandleSupport(s: Session, p: Principal, op: Support.SupportOp, env: Env) returns (r: Response)
    requires s.Clean()
    modifies s
    ensures s.Clean() && Outcome(s.stored, r, Unchanged) == Support.Exec(old(s.stored), p, op, env)
  {
    hide View, Support.Committed, Support.Request, Support.Decision, Support.End, Support.Revoke, Support.Register;
    match op {
      case RegisterDevice(name) => r := Support.CreateDevice(s, p, name, env);
      case RevokeDevice(id) => r := Support.DeleteDevice(s, p, id, env);
      case CreateRequest(_, _, _, _) => r := Support.CreateSupportRequest(s, p, op, env);
      case Decide(id, accept) => r := Support.DecideSupportRequest(s, p, id, accept, env);
      case EndRequest(id) => r := Support.EndSupportRequest(s, p, id, env);
    }
  }

  method HandleFileServers(s: Session, p: Principal, op: FileServers.FileServerOp, env: Env) returns (r: Response)
    requires s.Clean()
    modifies s
    ensures s.Clean() && Outcome(s.stored, r, Unchanged) == FileServers.Exec(old(s.stored), p, op, env)
  {
    hide View, FileServers.Committed, FileServers.Create, FileServers.Update, FileServers.Disable;
    match op {
      case CreateServer(name, host, shares) => r := FileServers.CreateFileServer(s, p, name, host, shares, env);
      case UpdateServer(id, name, host, shares) => r := FileServers.UpdateFileServer(s, p, id, name, host, shares, env);
      case DeleteServer(id) => r := FileServers.DeleteFileServer(s, p, id, env);
    }
  }

  method HandleDeployments(config: Config, s: Session, p: Principal, op: Deployments.DeploymentOp, env: Env) returns (r: Response)
    requires s.Clean()
    modifies s
    ensures s.Clean() && Outcome(s.stored, r, Unchanged) == Deployments.Exec(config, old(s.stored), p, op, env)
  {
    hide View, Deployments.Committed, Deployments.Create, Deployments.Update, Deployments.Delete, Deployments.DownloadBundle;
    match op {
      case CreateProfile(body) => r := Deployments.CreateClientDeployment(s, p, body, env);
      case UpdateProfile(id, body) => r := Deployments.UpdateClientDeployment(s, p, id, body, env);
      case DeleteProfile(id) => r := Deployments.DeleteClientDeployment(s, p, id, env);
      case Download(id, subject) => r := Deployments.DownloadClientDeployment(config, s, p, id, subject, env);
    }
  }

  method HandleAccounts(config: Config, s: Session, p: Principal, op: Accounts.AccountOp, env: Env) returns (r: Response)
    requires s.Clean()
    modifies s
    ensures s.Clean() && Outcome(s.stored, r, Unchanged) == Accounts.Exec(config, old(s.stored), p, op, env)
  {
    hide View, Accounts.Committed, Accounts.Create, Accounts.Update, Accounts.Delete;
    match op {
      case CreateUser(_, _, _) => r := Accounts.CreateWorkspaceUser(config, s, p, op, env);
      case UpdateUser(_, _, _, _) => r := Accounts.UpdateWorkspaceUser(config, s, p, op, env);
      case DeleteUser(id) => r := Accounts.DeleteWorkspaceUser(s, p, id, env);
    }
  }

  method HandleVpn(config: Config, s: Session, p: Principal, op: Vpn.VpnOp, env: Env) returns (r: Response, effect: Effect)
    requires s.Clean()
    modifies s
    ensures s.Clean() && Outcome(s.stored, r, effect) == Vpn.Exec(config, old(s.stored), p, op, env)
  {
    hide View, Vpn.Committed, Vpn.Configure, Vpn.Create, Vpn.SetRoutes, Vpn.Revoke, Vpn.OwnSaved;
    match op {
      case ConfigureNetwork(_, _, _, _, _) => r, effect := Vpn.ConfigureVpnNetwork(config, s, p, op, env);
      case CreatePeer(_, _, _, _, _) => r, effect := Vpn.CreateVpnPeer(config, s, p, op, env);
      case UpdateRoutes(id, routes) => r, effect := Vpn.UpdateVpnPeerRoutes(config, s, p, id, routes, env);
      case RevokePeer(id) => r, effect := Vpn.RevokeVpnPeer(config, s, p, id, env);
    }
  }

  method HandleClients(config: Config, s: Session, p: Principal, op: Clients.ClientOp, env: Env) returns (r: Response, effect: Effect)
    requires s.Clean()
    modifies s
    ensures s.Clean() && Outcome(s.stored, r, effect) == Clients.Exec(config, old(s.stored), p, op, env)
  {
    hide View, Clients.Committed, Clients.BootstrapDecision, Clients.EnrollDecision, Clients.OwnChanges;
    match op {
      case Bootstrap(_, _) => r, effect := Clients.BootstrapClient(config, s, p, op, env);
      case EnrollVpn(deviceName) => r, effect := Clients.EnrollClientVpn(config, s, p, deviceName, env);
    }
  }

  method HandleOp(config: Config, s: Session, p: Principal, op: Op, env: Env) returns (r: Response, effect: Effect)
    requires s.Clean()
    modifies s
    ensures s.Clean() && Outcome(s.stored, r, effect) == ExecOp(config, old(s.stored), p, op, env)
  {
    hide Support.Exec, FileServers.Exec, Deployments.Exec, Accounts.Exec, Vpn.Exec, Clients.Exec;
    effect := Unchanged;
    match op {
      case OfSupport(o) => r := HandleSupport(s, p, o, env);
      case OfFileServers(o) => r := HandleFileServers(s, p, o, env);
      case OfDeployments(o) => r := HandleDeployments(config, s, p, o, env);
      case OfAccounts(o) => r := HandleAccounts(config, s, p, o, env);
      case OfVpn(o) => r, effect := HandleVpn(config, s, p, o, env);
      case OfClients(o) => r, effect := HandleClients(config, s, p, o, env);
    }
  }

  /** Every request, served by its endpoint on a clean session, takes exactly the step of the state machine. */
  method Handle(config: Config, s: Session, step: Step) returns (r: Response, effect: Effect)
    requires s.Clean()
    modifies s
    ensures s.Clean() && Outcome(s.stored, r, effect) == Exec(config, old(s.stored), step)
  {
    hide ExecOp, Accounts.Login, Accounts.SetUp;
    effect := Unchanged;
    match step.call {
      case Call(p, op) => r, effect := HandleOp(config, s, p, op, step.env);
      case Login(c) => r := Accounts.CreateUserSession(config, s, c, step.env);
      case SetUp(c, displayName) => r := Accounts.CreateInitialAdministrator(config, s, c, displayName, step.env);
    }
  }

  /** A whole run of requests on one session ends in the state of the run. */
  method Serve(config: Config, s: Session, steps: seq<Step>)
    requires s.Clean()
    modifies s
    ensures s.Clean() && s.stored == Run(config, old(s.stored), steps)
  {
    hide Exec;
    var i := 0;
    assert steps[0..] == steps;
    while i < |steps|
      invariant 0 <= i <= |steps| && s.Clean()
      invariant Run(config, s.stored, steps[i..]) == Run(config, old(s.stored), steps)
    {
      assert steps[i..][1..] == steps[i + 1..] && steps[i..][0] == steps[i];
      var _, _ := Handle(config, s, steps[i]);
      i := i + 1;
    }
  }
}
