/** A database session: working tables that endpoints update in place, and the committed state. */
module Session {
  import opened Rows
  import opened Tables

  class Session {
    var initialized: bool
    var users: Table<User>
    var devices: Table<Device>
    var requests: Table<SupportRequest>
    var servers: Table<FileServer>
    var networks: Table<Network>
    var peers: Table<Peer>
    var profiles: Table<Profile>
    var enrollments: Table<Enrollment>
    var audit: seq<Event>

    var stored: Db

    constructor (db: Db)
      ensures stored == db && Clean()
    {
      initialized, users, devices, requests := db.initialized, db.users, db.devices, db.requests;
      servers, networks, peers, profiles := db.servers, db.networks, db.peers, db.profiles;
      enrollments, audit, stored := db.enrollments, db.audit, db;
    }

    function Working(): Db
      reads this
    {
      Db(initialized, users, devices, requests, servers, networks, peers, profiles, enrollments, audit)
    }

    /** Nothing uncommitted. */
    ghost predicate Clean()
      reads this
    {
      Working() == stored
    }

    method Commit()
      modifies this`stored
      ensures stored == Working() && Clean()
    {
      stored := Working();
    }

    method Rollback()
      modifies this
      ensures stored == old(stored) && Clean()
    {
      initialized, users, devices, requests := stored.initialized, stored.users, stored.devices, stored.requests;
      servers, networks, peers, profiles := stored.servers, stored.networks, stored.peers, stored.profiles;
      enrollments, audit := stored.enrollments, stored.audit;
    }

    /** Appends to the log within the open transaction. */
    method Audit(p: Principal, action: Action, targetType: TargetType, id: Id, now: Time)
      modifies this`audit
      ensures audit == old(audit) + [Event(p.tenant, p.subject, action, targetType, id, now)]
    {
      audit := audit + [Event(p.tenant, p.subject, action, targetType, id, now)];
    }
  }
}
