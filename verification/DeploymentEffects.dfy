/** What requests about deployment profiles do, on the stored rows themselves. */
module DeploymentEffects {
  import opened Wrappers
  import opened Rows
  import opened Tables
  import opened FileServerEffects
  import opened ProfileIntegrity
  import opened Text
  import Deployments
  import FileServers
  import Routes
  import StringOrder

  // ---- when a body is accepted

  ghost predicate ActiveUser(db: Db, tenant: string, subject: string) {
    exists id :: Has(db.users, tenant, id) && db.users[id].data.active && db.users[id].data.subject == subject
  }

  ghost predicate EnabledServer(db: Db, tenant: string, id: Id) {
    Has(db.servers, tenant, id) && db.servers[id].data.enabled
  }

  /** Every value that is not blank names an enabled file server. */
  ghost predicate NamesServers(db: Db, tenant: string, given: seq<string>) {
    forall i :: 0 <= i < |given| && Strip(given[i]) != "" ==> EnabledServer(db, tenant, Strip(given[i]))
  }

  ghost predicate NamesUsers(db: Db, tenant: string, given: seq<string>) {
    forall i :: 0 <= i < |given| && Strip(given[i]) != "" ==> ActiveUser(db, tenant, Strip(given[i]))
  }

  /** An enabled network, at least one file server and at least one target, all of the tenant and in use, and known routes. */
  ghost predicate MayDeploy(db: Db, tenant: string, body: Deployments.Body) {
    && Has(db.networks, tenant, body.networkId) && db.networks[body.networkId].data.enabled
    && HasValue(body.fileServerIds) && NamesServers(db, tenant, body.fileServerIds)
    && HasValue(body.targetSubjects) && NamesUsers(db, tenant, body.targetSubjects)
    && Routes.NormalizeAllowedIps(body.allowedIps).Ok?
  }

  lemma {:induction false} SortedElements(s: seq<string>)
    requires StringOrder.StrictlySorted(s)
    ensures |Elements(s)| == |s|
  {
    if s == [] {
    } else {
      var init, last := s[..|s| - 1], s[|s| - 1];
      LastIsNew(s);
      assert s == init + [last];
      hide StringOrder.StrictlySorted;
      SortedElements(init);
      assert Elements(s) == Elements(init) + {last};
    }
  }

  lemma LastIsNew(s: seq<string>)
    requires StringOrder.StrictlySorted(s) && s != []
    ensures s[|s| - 1] !in s[..|s| - 1] && StringOrder.StrictlySorted(s[..|s| - 1])
  {
    hide StringOrder.Less;
    StringOrder.LessIrreflexive(s[|s| - 1]);
  }

  /** The counts match if and only if every reference is an enabled file server. */
  lemma ServersMatchIff(rows: Table<FileServer>, ids: seq<Id>)
    requires StringOrder.StrictlySorted(ids)
    ensures |Deployments.EnabledServers(rows, ids)| == |ids| <==> forall id :: id in ids ==> id in rows && rows[id].data.enabled
  {
    var found := Deployments.EnabledServers(rows, ids);
    SortedElements(ids);
    if |found| == |ids| {
      SubsetOfSameSize(found, Elements(ids));
      forall id | id in ids ensures id in rows && rows[id].data.enabled {
        assert id in Elements(ids);
      }
    }
    if forall id :: id in ids ==> id in rows && rows[id].data.enabled {
      assert found == Elements(ids);
    }
  }

  ghost predicate ActiveIn(rows: Table<User>, subject: string) {
    exists id :: id in rows && rows[id].data.active && rows[id].data.subject == subject
  }

  /** The counts match if and only if every reference is the subject of an active user. */
  lemma UsersMatchIff(rows: Table<User>, subjects: seq<string>)
    requires StringOrder.StrictlySorted(subjects) && UniqueIn(rows)
    ensures |Deployments.ActiveUsers(rows, subjects)| == |subjects| <==> forall s :: s in subjects ==> ActiveIn(rows, s)
  {
    var found := Deployments.ActiveUsers(rows, subjects);
    SortedElements(subjects);
    DistinctSubjects(rows, found);
    if |found| == |subjects| {
      SubsetOfSameSize(SubjectsOf(rows, found), Elements(subjects));
      forall s | s in subjects ensures ActiveIn(rows, s) {
        assert s in SubjectsOf(rows, found);
      }
    }
    if forall s :: s in subjects ==> ActiveIn(rows, s) {
      forall s | s in subjects ensures s in SubjectsOf(rows, found) {
        var id :| id in rows && rows[id].data.active && rows[id].data.subject == s;
        assert id in found;
      }
      assert SubjectsOf(rows, found) == Elements(subjects);
    }
  }

  lemma ServersOfBody(db: Db, tenant: string, given: seq<string>)
    ensures var ids := FileServers.Normalized(given);
            |Deployments.EnabledServers(View(db, tenant).servers, ids)| == |ids| <==> NamesServers(db, tenant, given)
  {
    hide OwnEvents, Strip;
    var rows, ids := View(db, tenant).servers, FileServers.Normalized(given);
    ServersMatchIff(rows, ids);
    assert forall id :: id in rows && rows[id].data.enabled <==> EnabledServer(db, tenant, id);
    hide View, Deployments.EnabledServers, EnabledServer;
    if NamesServers(db, tenant, given) {
      forall id | id in ids ensures EnabledServer(db, tenant, id) {
      }
    }
  }

  lemma UsersOfBody(db: Db, tenant: string, given: seq<string>)
    requires UniqueSubjects(db.users)
    ensures var subjects := FileServers.Normalized(given);
            |Deployments.ActiveUsers(View(db, tenant).users, subjects)| == |subjects| <==> NamesUsers(db, tenant, given)
  {
    hide OwnEvents, Strip;
    var rows := View(db, tenant).users;
    UsersMatchIff(rows, FileServers.Normalized(given));
    forall s ensures ActiveIn(rows, s) <==> ActiveUser(db, tenant, s) {
      if ActiveIn(rows, s) {
        var id :| id in rows && rows[id].data.active && rows[id].data.subject == s;
        assert Has(db.users, tenant, id);
      }
      if ActiveUser(db, tenant, s) {
        var id :| Has(db.users, tenant, id) && db.users[id].data.active && db.users[id].data.subject == s;
        assert id in rows;
      }
    }
    hide ActiveIn, ActiveUser, View, UniqueSubjects, UniqueIn, Deployments.ActiveUsers;
  }

  // ---- what a profile is saved as

  ghost predicate ProfileIs(x: Profile, body: Deployments.Body, revision: nat, now: Time) {
    && Routes.NormalizeAllowedIps(body.allowedIps) == Ok(x.allowedIps)
    && IsValueList(x.fileServerIds, body.fileServerIds) && IsValueList(x.targetSubjects, body.targetSubjects)
    && x == Profile(Strip(body.name), body.networkId, x.allowedIps, x.fileServerIds, x.targetSubjects, body.vpnOnLogin,
                    body.sharesOnLogin, revision, true, now)
  }

  lemma ValidatesExactly(db: Db, tenant: string, body: Deployments.Body, revision: nat, now: Time)
    requires UniqueSubjects(db.users)
    ensures var checked := Deployments.Validate(View(db, tenant), body);
            && (checked.Some? <==> MayDeploy(db, tenant, body))
            && (checked.Some? ==> ProfileIs(Deployments.Content(body, checked.value, revision, now), body, revision, now))
  {
    hide View, Strip, FileServers.Normalized, Deployments.EnabledServers, Deployments.ActiveUsers, HasValue, IsValueList;
    hide Routes.NormalizeAllowedIps, UniqueSubjects, NamesServers, NamesUsers;
    ViewRow(db, tenant, body.networkId);
    ServersOfBody(db, tenant, body.fileServerIds);
    UsersOfBody(db, tenant, body.targetSubjects);
    ValuesAreNormalized(body.fileServerIds);
    ValuesAreNormalized(body.targetSubjects);
  }

  ghost predicate ProfileNameInUse(db: Db, tenant: string, name: string, except: set<Id>) {
    exists id :: Has(db.profiles, tenant, id) && id !in except && db.profiles[id].data.name == name
  }

  lemma OwnProfiles(db: Db, tenant: string, id: Id, name: string, except: set<Id>)
    ensures var rows := View(db, tenant).profiles;
            && (id in rows <==> Has(db.profiles, tenant, id)) && (id in rows ==> rows[id] == db.profiles[id])
            && (Deployments.ProfileNameTaken(rows, name, except) <==> ProfileNameInUse(db, tenant, name, except))
  {
    hide OwnEvents;
    var rows := View(db, tenant).profiles;
    if ProfileNameInUse(db, tenant, name, except) {
      var k :| Has(db.profiles, tenant, k) && k !in except && db.profiles[k].data.name == name;
      assert k in rows;
    }
    if k :| k in rows && k !in except && rows[k].data.name == name {
      assert Has(db.profiles, tenant, k);
    }
  }

  // ---- the requests

  function ProfileEvent(p: Principal, action: Action, id: Id, now: Time): Event {
    Event(p.tenant, p.subject, action, OnDeployment, id, now)
  }

  lemma CreatedProfile(config: Config, db: Db, p: Principal, body: Deployments.Body, env: Env)
    requires UniqueSubjects(db.users)
    ensures var out := Deployments.Exec(config, db, p, Deployments.CreateProfile(body), env);
            if "tenant_admin" !in p.roles then out == Outcome(db, Refused(Forbidden), Unchanged)
            else if !MayDeploy(db, p.tenant, body) then out == Outcome(db, Refused(Unprocessable), Unchanged)
            else if ProfileNameInUse(db, p.tenant, Strip(body.name), {}) then out == Outcome(db, Refused(Conflict), Unchanged)
            else
              && out.response.ProfileRead? && ProfileIs(out.response.profile, body, 1, env.now)
              && out == Outcome(db.(profiles := db.profiles[env.newId := Row(p.tenant, out.response.profile)],
                                    audit := db.audit + [ProfileEvent(p, DeploymentCreated, env.newId, env.now)]),
                                ProfileRead(env.newId, out.response.profile), Unchanged)
  {
    hide View, Strip, Deployments.Validate, Deployments.Content, Deployments.ProfileNameTaken, MayDeploy, ProfileIs, ProfileNameInUse;
    hide UniqueSubjects;
    ValidatesExactly(db, p.tenant, body, 1, env.now);
    OwnProfiles(db, p.tenant, env.newId, Strip(body.name), {});
  }

  ghost predicate EnabledProfile(db: Db, tenant: string, id: Id) {
    Has(db.profiles, tenant, id) && db.profiles[id].data.enabled
  }

  lemma UpdatedProfile(config: Config, db: Db, p: Principal, id: Id, body: Deployments.Body, env: Env)
    requires UniqueSubjects(db.users)
    ensures var out := Deployments.Exec(config, db, p, Deployments.UpdateProfile(id, body), env);
            if "tenant_admin" !in p.roles then out == Outcome(db, Refused(Forbidden), Unchanged)
            else if !EnabledProfile(db, p.tenant, id) then out == Outcome(db, Refused(NotFound), Unchanged)
            else if !MayDeploy(db, p.tenant, body) then out == Outcome(db, Refused(Unprocessable), Unchanged)
            else if ProfileNameInUse(db, p.tenant, Strip(body.name), {id}) then out == Outcome(db, Refused(Conflict), Unchanged)
            else
              && out.response.ProfileRead? && ProfileIs(out.response.profile, body, db.profiles[id].data.revision + 1, env.now)
              && out == Outcome(db.(profiles := db.profiles[id := Row(p.tenant, out.response.profile)],
                                    audit := db.audit + [ProfileEvent(p, DeploymentUpdated, id, env.now)]),
                                ProfileRead(id, out.response.profile), Unchanged)
  {
    hide View, Strip, Deployments.Validate, Deployments.Content, Deployments.ProfileNameTaken, MayDeploy, ProfileIs, ProfileNameInUse;
    hide UniqueSubjects;
    OwnProfiles(db, p.tenant, id, Strip(body.name), {id});
    if Has(db.profiles, p.tenant, id) {
      ValidatesExactly(db, p.tenant, body, db.profiles[id].data.revision + 1, env.now);
    }
  }

  /** A deleted profile stays, disabled under its next revision; its content does not change. */
  lemma DisabledProfile(config: Config, db: Db, p: Principal, id: Id, env: Env)
    ensures var out := Deployments.Exec(config, db, p, Deployments.DeleteProfile(id), env);
            if "tenant_admin" !in p.roles then out == Outcome(db, Refused(Forbidden), Unchanged)
            else if !EnabledProfile(db, p.tenant, id) then out == Outcome(db, Refused(NotFound), Unchanged)
            else
              var x := db.profiles[id].data;
              var y := Profile(x.name, x.networkId, x.allowedIps, x.fileServerIds, x.targetSubjects, x.vpnOnLogin, x.sharesOnLogin,
                               x.revision + 1, false, env.now);
              out == Outcome(db.(profiles := db.profiles[id := Row(p.tenant, y)],
                                 audit := db.audit + [ProfileEvent(p, DeploymentDisabled, id, env.now)]),
                             NoContent, Unchanged)
  {
    hide View, Deployments.ProfileNameTaken, ProfileNameInUse;
    OwnProfiles(db, p.tenant, id, "", {});
  }

  /** Whose bundle is asked for: the given subject's, or the caller's own. */
  function TargetOf(p: Principal, subject: Option<string>): string {
    if subject == None || subject == Some("") then p.subject else Strip(subject.value)
  }

  /** Of the enabled file servers of the tenant, those that the profile names. */
  ghost predicate DeliversServers(db: Db, tenant: string, ids: seq<Id>, servers: map<Id, FileServer>) {
    && (forall id :: id in servers <==> Has(db.servers, tenant, id) && id in ids && db.servers[id].data.enabled)
    && (forall id :: id in servers ==> servers[id] == db.servers[id].data)
  }

  lemma ServersAreDelivered(db: Db, tenant: string, ids: seq<Id>)
    ensures DeliversServers(db, tenant, ids, Deployments.Delivered(View(db, tenant).servers, ids))
  {
    hide OwnEvents;
  }

  lemma CommittedCode(db: Db, p: Principal, d: Deployments.Decided, now: Time)
    requires !d.saved.SavedProfile?
    ensures Deployments.Committed(db, p, d, now)
         == if d.saved.Nothing? then Outcome(db, d.response, Unchanged)
            else
              Outcome(db.(enrollments := db.enrollments[d.saved.id := Row(p.tenant, d.saved.code)],
                          audit := db.audit + [ProfileEvent(p, DeploymentDownloaded, d.saved.code.profileId, now)]),
                      d.response, Unchanged)
  {
  }

  /**
   * A target of an enabled profile, or an administrator for one, draws a bundle with a fresh code. The code is stored by its
   * hash, for the target and the profile, unused, and expires after ten minutes.
   */
  lemma DownloadedBundle(config: Config, db: Db, p: Principal, id: Id, subject: Option<string>, env: Env)
    ensures var out, target := Deployments.Exec(config, db, p, Deployments.Download(id, subject), env), TargetOf(p, subject);
            if !EnabledProfile(db, p.tenant, id) then out == Outcome(db, Refused(NotFound), Unchanged)
            else
              var x := db.profiles[id].data;
              if target !in x.targetSubjects || (target != p.subject && "tenant_admin" !in p.roles)
              then out == Outcome(db, Refused(Forbidden), Unchanged)
              else if !config.artifactPublished then out == Outcome(db, Refused(Unavailable), Unchanged)
              else
                var expiry := env.now + 600_000_000;
                var code := Enrollment(id, target, config.hash(env.code), expiry, p.subject, None);
                && out.response.Bundle? && DeliversServers(db, p.tenant, x.fileServerIds, out.response.servers)
                && out == Outcome(db.(enrollments := db.enrollments[env.newId := Row(p.tenant, code)],
                                      audit := db.audit + [ProfileEvent(p, DeploymentDownloaded, id, env.now)]),
                                  Bundle(env.code, target, id, x, expiry, out.response.servers), Unchanged)
  {
    hide View, Deployments.ProfileNameTaken, ProfileNameInUse, Deployments.Delivered, DeliversServers, Strip, Deployments.Committed;
    CommittedCode(db, p, Deployments.DownloadBundle(config, View(db, p.tenant), p, id, subject, env), env.now);
    OwnProfiles(db, p.tenant, id, "", {});
    if Has(db.profiles, p.tenant, id) {
      ServersAreDelivered(db, p.tenant, db.profiles[id].data.fileServerIds);
    }
  }
}
