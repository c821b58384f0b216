/** The eight custom roles every new project is seeded with, and the seeding
    loop: one insert per role that does nothing when the project already
    has a role of that name. */
module DefaultRoles {
  import opened Wrappers
  import opened Store

  datatype RoleTemplate = RoleTemplate(name: string, description: string, level: PermissionLevel, flags: Flags)

  const Defaults: seq<RoleTemplate> := [
    RoleTemplate("Scrum Master", "Facilitates Agile ceremonies and removes blockers for the team",
      Full, Flags(true, true, true, true, true)),
    RoleTemplate("Product Owner", "Defines product vision and prioritizes backlog items",
      Full, Flags(false, false, true, false, true)),
    RoleTemplate("Frontend Developer", "Develops user interfaces and client-side functionality",
      Edit, NoFlags),
    RoleTemplate("Backend Developer", "Develops server-side logic and database architecture",
      Edit, NoFlags),
    RoleTemplate("Full Stack Developer", "Works on both frontend and backend development",
      Edit, NoFlags),
    RoleTemplate("QA Engineer", "Tests and ensures quality of deliverables",
      Edit, NoFlags),
    RoleTemplate("DevOps Engineer", "Manages deployment, infrastructure, and CI/CD pipelines",
      Edit, NoFlags),
    RoleTemplate("UI/UX Designer", "Designs user interfaces and user experiences",
      Comment, NoFlags)
  ]

  /** The flags of the default roles: the Scrum Master holds all five, the
      Product Owner only task assignment and project management, every other
      default role none; the names are pairwise distinct. */
  lemma DefaultsShape()
    ensures |Defaults| == 8
    ensures Defaults[0].name == "Scrum Master" && Defaults[0].level == Full
      && Defaults[0].flags == Flags(true, true, true, true, true)
    ensures Defaults[1].name == "Product Owner" && Defaults[1].level == Full
      && Defaults[1].flags == NoFlags.(canAssignTasks := true, canManageProject := true)
    ensures forall i :: 2 <= i < |Defaults| ==> Defaults[i].flags == NoFlags
    ensures forall i, j :: 0 <= i < j < |Defaults| ==> Defaults[i].name != Defaults[j].name
  {
  }

  /** The row one template inserts into a project. */
  function FromTemplate(pid: Id, t: RoleTemplate, now: nat): ProjectRole
  {
    ProjectRole(pid, t.name, Some(t.description), t.level, t.flags, now)
  }

  /** One `INSERT ... ON CONFLICT (project_id, name) DO NOTHING`, on the
      roles table and the id counter. */
  function InsertIfAbsent(rs: map<Id, ProjectRole>, next: Id, pid: Id, t: RoleTemplate, now: nat): (map<Id, ProjectRole>, Id)
  {
    if HasRoleNamed(rs, pid, t.name) then (rs, next) else (rs[next := FromTemplate(pid, t, now)], next + 1)
  }

  /** The state after inserting the templates `ts` in order. */
  function Seeded(rs: map<Id, ProjectRole>, next: Id, pid: Id, ts: seq<RoleTemplate>, now: nat): (map<Id, ProjectRole>, Id)
  {
    if ts == [] then (rs, next)
    else
      var prev := Seeded(rs, next, pid, ts[..|ts| - 1], now);
      InsertIfAbsent(prev.0, prev.1, pid, ts[|ts| - 1], now)
  }

  /** `seedDefaultRoles(projectId)`, run for a project that exists (its only
      caller has just inserted it). `failAt` stands for the statement, if any,
      that the store rejects: the loop stops there, the inserts before it
      stay, and the error is passed on. */
  method SeedDefaultRoles(db: Database, pid: Id, now: nat, failAt: Option<nat>) returns (o: Outcome<Failure>)
    requires db.Valid() && pid in db.projects
    modifies db`roles, db`nextId
    ensures db.Valid()
    ensures o.Fail? <==> failAt.Some? && failAt.value < |Defaults|
    ensures (db.roles, db.nextId) ==
      Seeded(old(db.roles), old(db.nextId), pid,
        Defaults[..if failAt.Some? && failAt.value < |Defaults| then failAt.value else |Defaults|], now)
  {
    o := InsertTemplates(db, pid, Defaults, now, failAt);
  }

  /** The loop of `seedDefaultRoles` over a list of templates: one
      `INSERT ... ON CONFLICT (project_id, name) DO NOTHING` per template, in
      order, stopping at the statement `failAt`. */
  method InsertTemplates(db: Database, pid: Id, ts: seq<RoleTemplate>, now: nat, failAt: Option<nat>)
    returns (o: Outcome<Failure>)
    requires db.Valid() && pid in db.projects
    modifies db`roles, db`nextId
    ensures db.Valid()
    ensures o.Fail? <==> failAt.Some? && failAt.value < |ts|
    ensures (db.roles, db.nextId) ==
      Seeded(old(db.roles), old(db.nextId), pid,
        ts[..if failAt.Some? && failAt.value < |ts| then failAt.value else |ts|], now)
  {
    for i := 0 to |ts|
      invariant db.Valid() && pid < db.nextId
      invariant (db.roles, db.nextId) == Seeded(old(db.roles), old(db.nextId), pid, ts[..i], now)
      invariant failAt.Some? ==> failAt.value >= i
    {
      if failAt == Some(i) {
        return Fail(InternalError);
      }
      assert ts[..i + 1][..i] == ts[..i] && ts[..i + 1][i] == ts[i];
      InsertRole(db, pid, ts[i], now);
    }
    assert ts[..|ts|] == ts;
    return Pass;
  }

  /** One `INSERT ... ON CONFLICT (project_id, name) DO NOTHING`. */
  method InsertRole(db: Database, pid: Id, t: RoleTemplate, now: nat)
    requires db.Valid() && pid < db.nextId
    modifies db`roles, db`nextId
    ensures db.Valid() && pid < db.nextId
    ensures (db.roles, db.nextId) == InsertIfAbsent(old(db.roles), old(db.nextId), pid, t, now)
  {
    if !HasRoleNamed(db.roles, pid, t.name) {
      var k, row := db.nextId, FromTemplate(pid, t, now);
      assert k !in db.roles;
      InsertRoleKeepsNamesUnique(db.roles, k, row);
      db.roles := db.roles[k := row];
      db.nextId := k + 1;
      assert db.IdsIssued();
    }
  }

  // ---- Properties of seeding ----

  /** Seeding only adds rows: existing rows, of this or any other project,
      keep their values (a clashing name keeps its flags), new rows take
      fresh ids and belong to the seeded project, and the counter only grows. */
  lemma {:induction false} SeededOnlyAdds(rs: map<Id, ProjectRole>, next: Id, pid: Id, ts: seq<RoleTemplate>, now: nat)
    requires forall k :: k in rs ==> k < next
    ensures next <= Seeded(rs, next, pid, ts, now).1
    ensures forall k :: k in Seeded(rs, next, pid, ts, now).0 ==> k < Seeded(rs, next, pid, ts, now).1
    ensures forall k :: k in rs ==> k in Seeded(rs, next, pid, ts, now).0 && Seeded(rs, next, pid, ts, now).0[k] == rs[k]
    ensures forall k :: k in Seeded(rs, next, pid, ts, now).0 && k !in rs ==>
      next <= k && Seeded(rs, next, pid, ts, now).0[k].project == pid
    decreases |ts|
  {
    if ts != [] {
      SeededOnlyAdds(rs, next, pid, ts[..|ts| - 1], now);
    }
  }

  /** After seeding, the project has a role of every template's name. */
  lemma {:induction false} SeededHasAllNames(rs: map<Id, ProjectRole>, next: Id, pid: Id, ts: seq<RoleTemplate>, now: nat)
    requires forall k :: k in rs ==> k < next
    ensures forall i :: 0 <= i < |ts| ==> HasRoleNamed(Seeded(rs, next, pid, ts, now).0, pid, ts[i].name)
    decreases |ts|
  {
    if ts != [] {
      var init := ts[..|ts| - 1];
      SeededHasAllNames(rs, next, pid, init, now);
      SeededOnlyAdds(rs, next, pid, init, now);
      var prev := Seeded(rs, next, pid, init, now);
      var t := ts[|ts| - 1];
      forall i | 0 <= i < |ts| ensures HasRoleNamed(Seeded(rs, next, pid, ts, now).0, pid, ts[i].name) {
        if i < |ts| - 1 {
          assert ts[i] == init[i];
          var k :| k in prev.0 && prev.0[k].project == pid && prev.0[k].name == ts[i].name;
          assert k in Seeded(rs, next, pid, ts, now).0;
        } else if !HasRoleNamed(prev.0, pid, t.name) {
          assert Seeded(rs, next, pid, ts, now).0[prev.1] == FromTemplate(pid, t, now);
        }
      }
    }
  }

  /** When every name is already present, seeding changes nothing. */
  lemma {:induction false} SeedingPresentNamesIsNoOp(rs: map<Id, ProjectRole>, next: Id, pid: Id, ts: seq<RoleTemplate>, now: nat)
    requires forall i :: 0 <= i < |ts| ==> HasRoleNamed(rs, pid, ts[i].name)
    ensures Seeded(rs, next, pid, ts, now) == (rs, next)
    decreases |ts|
  {
    if ts != [] {
      var init := ts[..|ts| - 1];
      assert forall i :: 0 <= i < |init| ==> init[i] == ts[i];
      SeedingPresentNamesIsNoOp(rs, next, pid, init, now);
    }
  }

  /** Seeding twice is seeding once, whatever the second run's timestamp. */
  lemma SeedingIsIdempotent(rs: map<Id, ProjectRole>, next: Id, pid: Id, ts: seq<RoleTemplate>, now: nat, later: nat)
    requires forall k :: k in rs ==> k < next
    ensures
      var once := Seeded(rs, next, pid, ts, now);
      Seeded(once.0, once.1, pid, ts, later) == once
  {
    SeededHasAllNames(rs, next, pid, ts, now);
    var once := Seeded(rs, next, pid, ts, now);
    SeedingPresentNamesIsNoOp(once.0, once.1, pid, ts, later);
  }

  /** Seeding a project that has no roles yet with pairwise distinct names
      inserts exactly one row per template. */
  lemma {:induction false} SeedingFreshProjectAddsAll(rs: map<Id, ProjectRole>, next: Id, pid: Id, ts: seq<RoleTemplate>, now: nat)
    requires forall k :: k in rs ==> k < next && rs[k].project != pid
    requires forall i, j :: 0 <= i < j < |ts| ==> ts[i].name != ts[j].name
    ensures Seeded(rs, next, pid, ts, now).1 == next + |ts|
    ensures forall k :: next <= k < next + |ts| ==>
      k in Seeded(rs, next, pid, ts, now).0 && Seeded(rs, next, pid, ts, now).0[k] == FromTemplate(pid, ts[k - next], now)
    decreases |ts|
  {
    if ts != [] {
      var init := ts[..|ts| - 1];
      var t := ts[|ts| - 1];
      SeedingFreshProjectAddsAll(rs, next, pid, init, now);
      SeededOnlyAdds(rs, next, pid, init, now);
      var prev := Seeded(rs, next, pid, init, now);
      assert !HasRoleNamed(prev.0, pid, t.name);
      var after := Seeded(rs, next, pid, ts, now);
      assert after == (prev.0[prev.1 := FromTemplate(pid, t, now)], prev.1 + 1);
      forall k | next <= k < next + |ts|
        ensures k in after.0 && after.0[k] == FromTemplate(pid, ts[k - next], now)
      {
        if k < next + |init| {
          assert ts[k - next] == init[k - next];
        }
      }
    }
  }
}
