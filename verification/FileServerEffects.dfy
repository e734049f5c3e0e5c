/** What requests about file servers do, on the stored rows themselves. */
module FileServerEffects {
  import opened Wrappers
  import opened Rows
  import opened Tables
  import opened Text
  import FileServers
  import StringOrder

  // ---- what a server is saved as

  /** The host stripped and in lower case; hosts with slashes or colons are refused. */
  ghost predicate IsHost(host: string, given: string) {
    var s := Strip(given);
    && |host| == |s| && '/' !in s && '\\' !in s && ':' !in s
    && forall i :: 0 <= i < |s| ==> if 'A' <= s[i] <= 'Z' then host[i] as int == s[i] as int + 32 else host[i] == s[i]
  }

  ghost predicate MayHost(given: string) {
    var s := Strip(given); '/' !in s && '\\' !in s && ':' !in s
  }

  lemma HostIsLowered(given: string)
    ensures FileServers.HostOf(given).Some? <==> MayHost(given)
    ensures FileServers.HostOf(given).Some? ==> IsHost(FileServers.HostOf(given).value, given)
  {
    var s := Strip(given);
    var h := FileServers.Lower(s);
    assert forall i :: 0 <= i < |s| ==>
        (h[i] == '/' <==> s[i] == '/') && (h[i] == '\\' <==> s[i] == '\\') && (h[i] == ':' <==> s[i] == ':');
    assert forall c :: c in h <==> exists i :: 0 <= i < |h| && h[i] == c;
    assert forall c :: c in s <==> exists i :: 0 <= i < |s| && s[i] == c;
  }

  /** The distinct stripped names that are not blank, in order. */
  ghost predicate IsValueList(shares: seq<string>, given: seq<string>) {
    && StringOrder.StrictlySorted(shares)
    && forall v :: v in shares <==> v != "" && exists i :: 0 <= i < |given| && Strip(given[i]) == v
  }

  ghost predicate HasValue(given: seq<string>) {
    exists i :: 0 <= i < |given| && Strip(given[i]) != ""
  }

  lemma ValuesAreNormalized(given: seq<string>)
    ensures IsValueList(FileServers.Normalized(given), given)
    ensures FileServers.Normalized(given) == [] <==> !HasValue(given)
  {
    var r := FileServers.Normalized(given);
    if r != [] {
      assert r[0] in r;
    }
    if HasValue(given) {
      var i :| 0 <= i < |given| && Strip(given[i]) != "";
      assert Strip(given[i]) in r;
    }
  }

  ghost predicate NameInUse(db: Db, tenant: string, name: string, except: set<Id>) {
    exists id :: Has(db.servers, tenant, id) && id !in except && db.servers[id].data.name == name
  }

  lemma OwnServers(db: Db, tenant: string, id: Id, name: string, except: set<Id>)
    ensures var rows := View(db, tenant).servers;
            && (id in rows <==> Has(db.servers, tenant, id)) && (id in rows ==> rows[id] == db.servers[id])
            && (FileServers.NameTaken(rows, name, except) <==> NameInUse(db, tenant, name, except))
  {
    hide OwnEvents;
    var rows := View(db, tenant).servers;
    if NameInUse(db, tenant, name, except) {
      var k :| Has(db.servers, tenant, k) && k !in except && db.servers[k].data.name == name;
      assert k in rows;
    }
    if k :| k in rows && k !in except && rows[k].data.name == name {
      assert Has(db.servers, tenant, k);
    }
  }

  // ---- the requests

  ghost predicate ServerIs(x: FileServer, name: string, host: string, shares: seq<string>, now: Time) {
    x == FileServer(Strip(name), x.host, x.shares, true, now) && IsHost(x.host, host) && IsValueList(x.shares, shares)
  }

  function ServerEvent(p: Principal, action: Action, id: Id, now: Time): Event {
    Event(p.tenant, p.subject, action, OnFileServer, id, now)
  }

  lemma CreatedServer(db: Db, p: Principal, name: string, host: string, shares: seq<string>, env: Env)
    ensures var out := FileServers.Exec(db, p, FileServers.CreateServer(name, host, shares), env);
            if "tenant_admin" !in p.roles then out == Outcome(db, Refused(Forbidden), Unchanged)
            else if !MayHost(host) || !HasValue(shares) then out == Outcome(db, Refused(Unprocessable), Unchanged)
            else if NameInUse(db, p.tenant, Strip(name), {}) then out == Outcome(db, Refused(Conflict), Unchanged)
            else
              && out.response.ServerRead? && ServerIs(out.response.server, name, host, shares, env.now)
              && out == Outcome(db.(servers := db.servers[env.newId := Row(p.tenant, out.response.server)],
                                    audit := db.audit + [ServerEvent(p, FileServerCreated, env.newId, env.now)]),
                                ServerRead(env.newId, out.response.server), Unchanged)
  {
    hide View, Strip, FileServers.HostOf, FileServers.Normalized, FileServers.NameTaken, NameInUse, MayHost, HasValue, IsHost, IsValueList;
    HostIsLowered(host);
    ValuesAreNormalized(shares);
    OwnServers(db, p.tenant, env.newId, Strip(name), {});
  }

  lemma UpdatedServer(db: Db, p: Principal, id: Id, name: string, host: string, shares: seq<string>, env: Env)
    ensures var out := FileServers.Exec(db, p, FileServers.UpdateServer(id, name, host, shares), env);
            if "tenant_admin" !in p.roles then out == Outcome(db, Refused(Forbidden), Unchanged)
            else if !Has(db.servers, p.tenant, id) || !db.servers[id].data.enabled then out == Outcome(db, Refused(NotFound), Unchanged)
            else if !MayHost(host) || !HasValue(shares) then out == Outcome(db, Refused(Unprocessable), Unchanged)
            else if NameInUse(db, p.tenant, Strip(name), {id}) then out == Outcome(db, Refused(Conflict), Unchanged)
            else
              && out.response.ServerRead? && ServerIs(out.response.server, name, host, shares, env.now)
              && out == Outcome(db.(servers := db.servers[id := Row(p.tenant, out.response.server)],
                                    audit := db.audit + [ServerEvent(p, FileServerUpdated, id, env.now)]),
                                ServerRead(id, out.response.server), Unchanged)
  {
    hide View, Strip, FileServers.HostOf, FileServers.Normalized, FileServers.NameTaken, NameInUse, MayHost, HasValue, IsHost, IsValueList;
    HostIsLowered(host);
    ValuesAreNormalized(shares);
    OwnServers(db, p.tenant, id, Strip(name), {id});
  }

  /** A deleted server stays, disabled; nothing else of it changes. */
  lemma DisabledServer(db: Db, p: Principal, id: Id, env: Env)
    ensures var out := FileServers.Exec(db, p, FileServers.DeleteServer(id), env);
            if "tenant_admin" !in p.roles then out == Outcome(db, Refused(Forbidden), Unchanged)
            else if !Has(db.servers, p.tenant, id) || !db.servers[id].data.enabled then out == Outcome(db, Refused(NotFound), Unchanged)
            else
              var x := db.servers[id].data;
              out == Outcome(db.(servers := db.servers[id := Row(p.tenant, FileServer(x.name, x.host, x.shares, false, env.now))],
                                 audit := db.audit + [ServerEvent(p, FileServerDisabled, id, env.now)]),
                             NoContent, Unchanged)
  {
    hide View, FileServers.NameTaken, NameInUse;
    OwnServers(db, p.tenant, id, "", {});
  }
}
