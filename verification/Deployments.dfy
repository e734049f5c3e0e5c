/** Deployment profiles: what a client of the given users receives. */
module Deployments {
  import opened Wrappers
  import opened Rows
  import opened Tables
  import opened Session
  import opened Text
  import FileServers
  import Routes

  datatype Body = Body(
    name: string, networkId: Id, allowedIps: string, fileServerIds: seq<Id>, targetSubjects: seq<string>,
    vpnOnLogin: bool, sharesOnLogin: bool)

  datatype DeploymentOp =
    | CreateProfile(body: Body)
    | UpdateProfile(id: Id, body: Body)
    | DeleteProfile(id: Id)
    | Download(id: Id, subject: Option<string>)

  // ---- queries

  function EnabledServers(rows: Table<FileServer>, ids: seq<Id>): set<Id> {
    set id | id in rows && id in ids && rows[id].data.enabled
  }

  function ActiveUsers(rows: Table<User>, subjects: seq<string>): set<Id> {
    set id | id in rows && rows[id].data.subject in subjects && rows[id].data.active
  }

  predicate IsEnabledProfile(rows: Table<Profile>, id: Id) {
    id in rows && rows[id].data.enabled
  }

  predicate ProfileNameTaken(rows: Table<Profile>, name: string, except: set<Id>) {
    exists id :: id in rows && id !in except && rows[id].data.name == name
  }

  /** The enabled servers of a profile. */
  function Delivered(rows: Table<FileServer>, ids: seq<Id>): map<Id, FileServer> {
    map id | id in EnabledServers(rows, ids) :: rows[id].data
  }

  datatype Checked = Checked(fileServerIds: seq<Id>, subjects: seq<string>, allowedIps: string)

  /** Counts of rows found must match the counts of distinct references asked for. */
  function Validate(own: Db, body: Body): Option<Checked> {
    var ids, subjects := FileServers.Normalized(body.fileServerIds), FileServers.Normalized(body.targetSubjects);
    if !(body.networkId in own.networks && own.networks[body.networkId].data.enabled) then None
    else if ids == [] || |EnabledServers(own.servers, ids)| != |ids| then None
    else if subjects == [] || |ActiveUsers(own.users, subjects)| != |subjects| then None
    else
      match Routes.NormalizeAllowedIps(body.allowedIps)
      case Err(_) => None
      case Ok(routes) => Some(Checked(ids, subjects, routes))
  }

  function Content(body: Body, checked: Checked, revision: nat, now: Time): Profile {
    Profile(Strip(body.name), body.networkId, checked.allowedIps, checked.fileServerIds, checked.subjects,
            body.vpnOnLogin, body.sharesOnLogin, revision, true, now)
  }

  /** What an endpoint saves, with the event it logs: a profile, or an enrollment code. */
  datatype Saved = Nothing | SavedProfile(id: Id, profile: Profile, action: Action) | SavedCode(id: Id, code: Enrollment)

  datatype Decided = Decided(saved: Saved, response: Response)

  /** Only profiles, enrollment codes and the log change. */
  ghost predicate Untouched(a: Db, b: Db) {
    && b.initialized == a.initialized && b.users == a.users && b.devices == a.devices && b.requests == a.requests
    && b.servers == a.servers && b.networks == a.networks && b.peers == a.peers
  }

  function Apply(db: Db, p: Principal, saved: Saved, now: Time): (next: Db)
    ensures Untouched(db, next)
  {
    match saved
    case Nothing => db
    case SavedProfile(id, profile, action) =>
      Audit(db.(profiles := Put(db.profiles, p.tenant, id, profile)), p, action, OnDeployment, id, now)
    case SavedCode(id, code) =>
      Audit(db.(enrollments := Put(db.enrollments, p.tenant, id, code)), p, DeploymentDownloaded, OnDeployment, code.profileId, now)
  }

  function Committed(db: Db, p: Principal, d: Decided, now: Time): (out: Outcome)
    ensures Untouched(db, out.db)
    ensures out.effect == Unchanged
  {
    Reply(Apply(db, p, d.saved, now), d.response)
  }

  function Reject(status: Status): Decided {
    Decided(Nothing, Refused(status))
  }

  // ---- what each endpoint decides, from the rows its tenant owns

  function Create(own: Db, p: Principal, body: Body, env: Env): Decided {
    var checked := Validate(own, body);
    if "tenant_admin" !in p.roles then Reject(Forbidden)
    else if checked.None? then Reject(Unprocessable)
    else if ProfileNameTaken(own.profiles, Strip(body.name), {}) then Reject(Conflict)
    else
      var profile := Content(body, checked.value, 1, env.now);
      Decided(SavedProfile(env.newId, profile, DeploymentCreated), ProfileRead(env.newId, profile))
  }

  function Update(own: Db, p: Principal, id: Id, body: Body, env: Env): Decided {
    var rows := own.profiles;
    var checked := Validate(own, body);
    if "tenant_admin" !in p.roles then Reject(Forbidden)
    else if !IsEnabledProfile(rows, id) then Reject(NotFound)
    else if checked.None? then Reject(Unprocessable)
    else if ProfileNameTaken(rows, Strip(body.name), {id}) then Reject(Conflict)
    else
      var profile := Content(body, checked.value, rows[id].data.revision + 1, env.now);
      Decided(SavedProfile(id, profile, DeploymentUpdated), ProfileRead(id, profile))
  }

  function Disabled(profile: Profile, now: Time): Profile {
    profile.(enabled := false, revision := profile.revision + 1, updatedAt := now)
  }

  function Delete(own: Db, p: Principal, id: Id, env: Env): Decided {
    var rows := own.profiles;
    if "tenant_admin" !in p.roles then Reject(Forbidden)
    else if !IsEnabledProfile(rows, id) then Reject(NotFound)
    else Decided(SavedProfile(id, Disabled(rows[id].data, env.now), DeploymentDisabled), NoContent)
  }

  const CODE_LIFETIME := 10 * MINUTE

  /** The assigned user, or an administrator on their behalf, draws a bundle with a fresh enrollment code. */
  function DownloadBundle(config: Config, own: Db, p: Principal, id: Id, subject: Option<string>, env: Env): Decided {
    var rows := own.profiles;
    if !IsEnabledProfile(rows, id) then Reject(NotFound)
    else
      var profile := rows[id].data;
      var target := if subject.Some? && subject.value != "" then Strip(subject.value) else p.subject;
      if target !in profile.targetSubjects then Reject(Forbidden)
      else if target != p.subject && "tenant_admin" !in p.roles then Reject(Forbidden)
      else if !config.artifactPublished then Reject(Unavailable)
      else
        var code := Enrollment(id, target, config.hash(env.code), env.now + CODE_LIFETIME, p.subject, None);
        Decided(SavedCode(env.newId, code),
                Bundle(env.code, target, id, profile, code.expiresAt,
                       Delivered(own.servers, profile.fileServerIds)))
  }

  function Decide(config: Config, own: Db, p: Principal, op: DeploymentOp, env: Env): (d: Decided)
    ensures !d.saved.Nothing? ==> d.saved.id == env.newId || (d.saved.SavedProfile? && d.saved.id in own.profiles)
  {
    match op
    case CreateProfile(body) => Create(own, p, body, env)
    case UpdateProfile(id, body) => Update(own, p, id, body, env)
    case DeleteProfile(id) => Delete(own, p, id, env)
    case Download(id, subject) => DownloadBundle(config, own, p, id, subject, env)
  }

  function Exec(config: Config, db: Db, p: Principal, op: DeploymentOp, env: Env): Outcome {
    Committed(db, p, Decide(config, View(db, p.tenant), p, op, env), env.now)
  }

  // ---- the endpoints as written, on a session

  method ValidateDeploymentProfile(s: Session, tenant: string, body: Body) returns (r: Option<Checked>)
    requires s.Clean()
    ensures r == Validate(View(s.stored, tenant), body)
  {
    hide Own, EnabledServers, ActiveUsers, FileServers.Normalized, Routes.NormalizeAllowedIps;
    var networks := Own(s.networks, tenant);
    if !(body.networkId in networks && networks[body.networkId].data.enabled) {
      return None;
    }
    var ids := FileServers.Normalized(body.fileServerIds);
    if ids == [] {
      return None;
    }
    var servers := EnabledServers(Own(s.servers, tenant), ids);
    if |servers| != |ids| {
      return None;
    }
    var subjects := FileServers.Normalized(body.targetSubjects);
    if subjects == [] {
      return None;
    }
    var users := ActiveUsers(Own(s.users, tenant), subjects);
    if |users| != |subjects| {
      return None;
    }
    var routes := Routes.NormalizeAllowedIps(body.allowedIps);
    if routes.Err? {
      return None;
    }
    r := Some(Checked(ids, subjects, routes.value));
  }

  method CreateClientDeployment(s: Session, p: Principal, body: Body, env: Env) returns (r: Response)
    requires s.Clean()
    modifies s
    ensures s.Clean()
    ensures Outcome(s.stored, r, Unchanged)
         == Committed(old(s.stored), p, Create(View(old(s.stored), p.tenant), p, body, env), env.now)
  {
    hide Own, Validate, ProfileNameTaken;
    if "tenant_admin" !in p.roles {
      return Refused(Forbidden);
    }
    var checked := ValidateDeploymentProfile(s, p.tenant, body);
    if checked.None? {
      return Refused(Unprocessable);
    }
    var profile := Profile(Strip(body.name), body.networkId, checked.value.allowedIps, checked.value.fileServerIds,
                           checked.value.subjects, body.vpnOnLogin, body.sharesOnLogin, 1, true, env.now);
    var conflict := ProfileNameTaken(Own(s.profiles, p.tenant), profile.name, {});
    s.profiles := s.profiles[env.newId := Row(p.tenant, profile)];
    if conflict {
      s.Rollback();
      return Refused(Conflict);
    }
    s.Audit(p, DeploymentCreated, OnDeployment, env.newId, env.now);
    s.Commit();
    r := ProfileRead(env.newId, profile);
  }

  method UpdateClientDeployment(s: Session, p: Principal, id: Id, body: Body, env: Env) returns (r: Response)
    requires s.Clean()
    modifies s
    ensures s.Clean()
    ensures Outcome(s.stored, r, Unchanged)
         == Committed(old(s.stored), p, Update(View(old(s.stored), p.tenant), p, id, body, env), env.now)
  {
    hide Own, Validate, ProfileNameTaken;
    if "tenant_admin" !in p.roles {
      return Refused(Forbidden);
    }
    var rows := Own(s.profiles, p.tenant);
    if !IsEnabledProfile(rows, id) {
      return Refused(NotFound);
    }
    var checked := ValidateDeploymentProfile(s, p.tenant, body);
    if checked.None? {
      return Refused(Unprocessable);
    }
    var profile := rows[id].data;
    profile := profile.(name := Strip(body.name), networkId := body.networkId);
    profile := profile.(allowedIps := checked.value.allowedIps, fileServerIds := checked.value.fileServerIds);
    profile := profile.(targetSubjects := checked.value.subjects);
    profile := profile.(vpnOnLogin := body.vpnOnLogin, sharesOnLogin := body.sharesOnLogin);
    profile := profile.(revision := profile.revision + 1, updatedAt := env.now);
    var conflict := ProfileNameTaken(rows, profile.name, {id});
    s.profiles := s.profiles[id := Row(p.tenant, profile)];
    if conflict {
      s.Rollback();
      return Refused(Conflict);
    }
    s.Audit(p, DeploymentUpdated, OnDeployment, id, env.now);
    s.Commit();
    r := ProfileRead(id, profile);
  }

  method DeleteClientDeployment(s: Session, p: Principal, id: Id, env: Env) returns (r: Response)
    requires s.Clean()
    modifies s
    ensures s.Clean()
    ensures Outcome(s.stored, r, Unchanged)
         == Committed(old(s.stored), p, Delete(View(old(s.stored), p.tenant), p, id, env), env.now)
  {
    hide Own;
    if "tenant_admin" !in p.roles {
      return Refused(Forbidden);
    }
    var rows := Own(s.profiles, p.tenant);
    if !IsEnabledProfile(rows, id) {
      return Refused(NotFound);
    }
    var profile := rows[id].data.(enabled := false);
    profile := profile.(revision := profile.revision + 1);
    profile := profile.(updatedAt := env.now);
    s.profiles := s.profiles[id := Row(p.tenant, profile)];
    s.Audit(p, DeploymentDisabled, OnDeployment, id, env.now);
    s.Commit();
    r := NoContent;
  }

  method DownloadClientDeployment(config: Config, s: Session, p: Principal, id: Id, subject: Option<string>, env: Env)
    returns (r: Response)
    requires s.Clean()
    modifies s
    ensures s.Clean()
    ensures Outcome(s.stored, r, Unchanged)
         == Committed(old(s.stored), p, DownloadBundle(config, View(old(s.stored), p.tenant), p, id, subject, env), env.now)
  {
    hide Own, Delivered;
    var rows := Own(s.profiles, p.tenant);
    if !IsEnabledProfile(rows, id) {
      return Refused(NotFound);
    }
    var profile := rows[id].data;
    var target := p.subject;
    if subject.Some? && subject.value != "" {
      target := Strip(subject.value);
    }
    if target !in profile.targetSubjects {
      return Refused(Forbidden);
    }
    if target != p.subject && "tenant_admin" !in p.roles {
      return Refused(Forbidden);
    }
    if !config.artifactPublished {
      return Refused(Unavailable);
    }
    var servers := Delivered(Own(s.servers, p.tenant), profile.fileServerIds);
    var enrollment := Enrollment(id, target, config.hash(env.code), env.now + CODE_LIFETIME, p.subject, None);
    s.enrollments := s.enrollments[env.newId := Row(p.tenant, enrollment)];
    s.Audit(p, DeploymentDownloaded, OnDeployment, id, env.now);
    s.Commit();
    r := Bundle(env.code, target, id, profile, enrollment.expiresAt, servers);
  }

  lemma Frame(config: Config, db: Db, p: Principal, op: DeploymentOp, env: Env)
    ensures Untouched(db, Exec(config, db, p, op, env).db)
    ensures Exec(config, db, p, op, env).effect == Unchanged
  {
    hide Untouched, Committed, Decide, View;
  }

  // ---- tenants

  lemma ApplyStep(db: Db, p: Principal, saved: Saved, now: Time)
    requires saved.SavedProfile? && saved.id in db.profiles ==> db.profiles[saved.id].tenant == p.tenant
    requires saved.SavedCode? ==> saved.id !in db.enrollments
    ensures TenantStep(db, Apply(db, p, saved, now), p.tenant)
  {
    UnchangedStep(db, p.tenant);
    match saved {
      case Nothing =>
      case SavedProfile(id, profile, action) =>
        PutStep(db.profiles, p.tenant, id, profile);
        AppendStep(db.audit, Event(p.tenant, p.subject, action, OnDeployment, id, now));
      case SavedCode(id, code) =>
        PutStep(db.enrollments, p.tenant, id, code);
        AppendStep(db.audit, Event(p.tenant, p.subject, DeploymentDownloaded, OnDeployment, code.profileId, now));
    }
    hide TableStep, AuditStep;
  }

  lemma ApplySame(a: Db, b: Db, p: Principal, saved: Saved, now: Time)
    requires SameView(a, b, p.tenant)
    ensures SameView(Apply(a, p, saved, now), Apply(b, p, saved, now), p.tenant)
  {
    hide SameRows;
    match saved {
      case Nothing =>
      case SavedProfile(id, profile, action) =>
        PutSame(a.profiles, b.profiles, p.tenant, id, profile);
        AppendSame(a.audit, b.audit, Event(p.tenant, p.subject, action, OnDeployment, id, now));
      case SavedCode(id, code) =>
        PutSame(a.enrollments, b.enrollments, p.tenant, id, code);
        AppendSame(a.audit, b.audit, Event(p.tenant, p.subject, DeploymentDownloaded, OnDeployment, code.profileId, now));
    }
  }

  lemma StaysInTenant(config: Config, db: Db, p: Principal, op: DeploymentOp, env: Env)
    requires ValidEnv(config, db, env)
    ensures TenantStep(db, Exec(config, db, p, op, env).db, p.tenant)
  {
    ApplyStep(db, p, Decide(config, View(db, p.tenant), p, op, env).saved, env.now);
  }

  /** The endpoints read nothing but their tenant's rows. */
  lemma DependsOnView(config: Config, a: Db, b: Db, p: Principal, op: DeploymentOp, env: Env)
    requires SameView(a, b, p.tenant)
    ensures SameView(Exec(config, a, p, op, env).db, Exec(config, b, p, op, env).db, p.tenant)
    ensures Exec(config, a, p, op, env).response == Exec(config, b, p, op, env).response
  {
    SameViewIsView(a, b, p.tenant);
    hide SameView, Apply, Decide;
    ApplySame(a, b, p, Decide(config, View(a, p.tenant), p, op, env).saved, env.now);
  }
}
