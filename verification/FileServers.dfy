/** File servers of a tenant. */
module FileServers {
  import opened Wrappers
  import opened Rows
  import opened Tables
  import opened Session
  import opened Text
  import StringOrder

  datatype FileServerOp =
    | CreateServer(name: string, host: string, shares: seq<string>)
    | UpdateServer(id: Id, name: string, host: string, shares: seq<string>)
    | DeleteServer(id: Id)

  /** The sorted distinct non-blank values, stripped. */
  function Normalized(values: seq<string>): (r: seq<string>)
    ensures StringOrder.StrictlySorted(r)
    ensures forall v :: v in r <==> exists i :: 0 <= i < |values| && Strip(values[i]) == v && v != ""
  {
    var kept := set v | v in values && Strip(v) != "" :: Strip(v);
    var r := StringOrder.Sorted(kept);
    assert forall v :: v in r <==> v in kept;
    r
  }

  /** ASCII lower case. */
  function Lower(s: string): string {
    seq(|s|, i requires 0 <= i < |s| => if 'A' <= s[i] <= 'Z' then (s[i] as int + 32) as char else s[i])
  }

  function HostOf(host: string): Option<string> {
    var h := Lower(Strip(host));
    if '/' in h || '\\' in h || ':' in h then None else Some(h)
  }

  predicate NameTaken(rows: Table<FileServer>, name: string, except: set<Id>) {
    exists id :: id in rows && id !in except && rows[id].data.name == name
  }

  predicate IsEnabled(rows: Table<FileServer>, id: Id) {
    id in rows && rows[id].data.enabled
  }

  // ---- what is saved

  datatype Saved = Nothing | SavedServer(id: Id, server: FileServer, action: Action)

  datatype Decided = Decided(saved: Saved, response: Response)

  /** Only file servers and the log change. */
  ghost predicate Untouched(a: Db, b: Db) {
    && b.initialized == a.initialized && b.users == a.users && b.devices == a.devices && b.requests == a.requests
    && b.networks == a.networks && b.peers == a.peers && b.profiles == a.profiles && b.enrollments == a.enrollments
  }

  function Apply(db: Db, p: Principal, saved: Saved, now: Time): (next: Db)
    ensures Untouched(db, next)
  {
    match saved
    case Nothing => db
    case SavedServer(id, server, action) =>
      Audit(db.(servers := Put(db.servers, p.tenant, id, server)), p, action, OnFileServer, id, now)
  }

  function Committed(db: Db, p: Principal, d: Decided, now: Time): (out: Outcome)
    ensures Untouched(db, out.db) && out.effect == Unchanged
  {
    Reply(Apply(db, p, d.saved, now), d.response)
  }

  function Reject(status: Status): Decided {
    Decided(Nothing, Refused(status))
  }

  // ---- what each endpoint decides, from the rows its tenant owns

  function Create(own: Db, p: Principal, name: string, host: string, shares: seq<string>, env: Env): Decided {
    if "tenant_admin" !in p.roles then Reject(Forbidden)
    else if HostOf(host).None? || Normalized(shares) == [] then Reject(Unprocessable)
    else if NameTaken(own.servers, Strip(name), {}) then Reject(Conflict)
    else
      var server := FileServer(Strip(name), HostOf(host).value, Normalized(shares), true, env.now);
      Decided(SavedServer(env.newId, server, FileServerCreated), ServerRead(env.newId, server))
  }

  function Update(own: Db, p: Principal, id: Id, name: string, host: string, shares: seq<string>, env: Env): Decided {
    if "tenant_admin" !in p.roles then Reject(Forbidden)
    else if !IsEnabled(own.servers, id) then Reject(NotFound)
    else if HostOf(host).None? || Normalized(shares) == [] then Reject(Unprocessable)
    else if NameTaken(own.servers, Strip(name), {id}) then Reject(Conflict)
    else
      var server := FileServer(Strip(name), HostOf(host).value, Normalized(shares), true, env.now);
      Decided(SavedServer(id, server, FileServerUpdated), ServerRead(id, server))
  }

  function Disable(own: Db, p: Principal, id: Id, env: Env): Decided {
    if "tenant_admin" !in p.roles then Reject(Forbidden)
    else if !IsEnabled(own.servers, id) then Reject(NotFound)
    else
      Decided(SavedServer(id, own.servers[id].data.(enabled := false, updatedAt := env.now), FileServerDisabled), NoContent)
  }

  function Decide(own: Db, p: Principal, op: FileServerOp, env: Env): (d: Decided)
    ensures d.saved.SavedServer? ==> d.saved.id == env.newId || d.saved.id in own.servers
  {
    match op
    case CreateServer(name, host, shares) => Create(own, p, name, host, shares, env)
    case UpdateServer(id, name, host, shares) => Update(own, p, id, name, host, shares, env)
    case DeleteServer(id) => Disable(own, p, id, env)
  }

  function Exec(db: Db, p: Principal, op: FileServerOp, env: Env): Outcome {
    Committed(db, p, Decide(View(db, p.tenant), p, op, env), env.now)
  }

  // ---- the endpoints as written, on a session

  method CreateFileServer(s: Session, p: Principal, name: string, host: string, shares: seq<string>, env: Env) returns (r: Response)
    requires s.Clean()
    modifies s
    ensures s.Clean()
    ensures Outcome(s.stored, r, Unchanged)
         == Committed(old(s.stored), p, Create(View(old(s.stored), p.tenant), p, name, host, shares, env), env.now)
  {
    hide NameTaken, HostOf, Normalized, Own;
    if "tenant_admin" !in p.roles {
      return Refused(Forbidden);
    }
    var normalizedHost := HostOf(host);
    var normalizedShares := Normalized(shares);
    if normalizedHost.None? || normalizedShares == [] {
      return Refused(Unprocessable);
    }
    var server := FileServer(Strip(name), normalizedHost.value, normalizedShares, true, env.now);
    var conflict := NameTaken(Own(s.servers, p.tenant), server.name, {});
    s.servers := s.servers[env.newId := Row(p.tenant, server)];
    if conflict {
      s.Rollback();
      return Refused(Conflict);
    }
    s.Audit(p, FileServerCreated, OnFileServer, env.newId, env.now);
    s.Commit();
    r := ServerRead(env.newId, server);
  }

  method UpdateFileServer(s: Session, p: Principal, id: Id, name: string, host: string, shares: seq<string>, env: Env) returns (r: Response)
    requires s.Clean()
    modifies s
    ensures s.Clean()
    ensures Outcome(s.stored, r, Unchanged)
         == Committed(old(s.stored), p, Update(View(old(s.stored), p.tenant), p, id, name, host, shares, env), env.now)
  {
    hide NameTaken, HostOf, Normalized, Own;
    if "tenant_admin" !in p.roles {
      return Refused(Forbidden);
    }
    var rows := Own(s.servers, p.tenant);
    if !IsEnabled(rows, id) {
      return Refused(NotFound);
    }
    var server := rows[id].data;
    var normalizedHost := HostOf(host);
    if normalizedHost.None? {
      return Refused(Unprocessable);
    }
    server := server.(name := Strip(name));
    server := server.(host := normalizedHost.value);
    var normalizedShares := Normalized(shares);
    if normalizedShares == [] {
      return Refused(Unprocessable);
    }
    server := server.(shares := normalizedShares, updatedAt := env.now);
    var conflict := NameTaken(rows, server.name, {id});
    s.servers := s.servers[id := Row(p.tenant, server)];
    if conflict {
      s.Rollback();
      return Refused(Conflict);
    }
    s.Audit(p, FileServerUpdated, OnFileServer, id, env.now);
    s.Commit();
    r := ServerRead(id, server);
  }

  method DeleteFileServer(s: Session, p: Principal, id: Id, env: Env) returns (r: Response)
    requires s.Clean()
    modifies s
    ensures s.Clean()
    ensures Outcome(s.stored, r, Unchanged)
         == Committed(old(s.stored), p, Disable(View(old(s.stored), p.tenant), p, id, env), env.now)
  {
    hide Own;
    if "tenant_admin" !in p.roles {
      return Refused(Forbidden);
    }
    var rows := Own(s.servers, p.tenant);
    if !IsEnabled(rows, id) {
      return Refused(NotFound);
    }
    s.servers := s.servers[id := Row(p.tenant, rows[id].data.(enabled := false, updatedAt := env.now))];
    s.Audit(p, FileServerDisabled, OnFileServer, id, env.now);
    s.Commit();
    r := NoContent;
  }

  // ---- tenants

  lemma Frame(db: Db, p: Principal, op: FileServerOp, env: Env)
    ensures Untouched(db, Exec(db, p, op, env).db)
    ensures Exec(db, p, op, env).effect == Unchanged
  {
    hide Untouched, Committed, Decide, View;
  }

  lemma ApplyStep(db: Db, p: Principal, saved: Saved, now: Time)
    requires saved.SavedServer? && saved.id in db.servers ==> db.servers[saved.id].tenant == p.tenant
    ensures TenantStep(db, Apply(db, p, saved, now), p.tenant)
  {
    UnchangedStep(db, p.tenant);
    if saved.SavedServer? {
      PutStep(db.servers, p.tenant, saved.id, saved.server);
      AppendStep(db.audit, Event(p.tenant, p.subject, saved.action, OnFileServer, saved.id, now));
    }
    hide TableStep, AuditStep;
  }

  lemma ApplySame(a: Db, b: Db, p: Principal, saved: Saved, now: Time)
    requires SameView(a, b, p.tenant)
    ensures SameView(Apply(a, p, saved, now), Apply(b, p, saved, now), p.tenant)
  {
    hide SameRows;
    if saved.SavedServer? {
      PutSame(a.servers, b.servers, p.tenant, saved.id, saved.server);
      AppendSame(a.audit, b.audit, Event(p.tenant, p.subject, saved.action, OnFileServer, saved.id, now));
    }
  }

  lemma StaysInTenant(config: Config, db: Db, p: Principal, op: FileServerOp, env: Env)
    requires ValidEnv(config, db, env)
    ensures TenantStep(db, Exec(db, p, op, env).db, p.tenant)
  {
    ApplyStep(db, p, Decide(View(db, p.tenant), p, op, env).saved, env.now);
  }

  /** The endpoints read nothing but their tenant's rows. */
  lemma DependsOnView(a: Db, b: Db, p: Principal, op: FileServerOp, env: Env)
    requires SameView(a, b, p.tenant)
    ensures SameView(Exec(a, p, op, env).db, Exec(b, p, op, env).db, p.tenant)
    ensures Exec(a, p, op, env).response == Exec(b, p, op, env).response
  {
    SameViewIsView(a, b, p.tenant);
    hide SameView, Apply, Decide;
    ApplySame(a, b, p, Decide(View(a, p.tenant), p, op, env).saved, env.now);
  }
}
