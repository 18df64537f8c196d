/**
 * `createProject`, `updateProject` and `archiveProject` of
 * actions/project-actions.ts over the in-memory store. The session is the
 * signed-in user's id, if any.
 */
module ProjectActions {
  import opened Common
  import opened Store

  const Unauthorized: string := "Unauthorized"

  /** The project with id `id` exists and `userId` holds one of `roles` in its workspace. */
  predicate ProjectAccess(projects: seq<Project>, members: seq<Member>, id: RowId, userId: UserId, roles: set<Role>) {
    exists i :: 0 <= i < |projects| && projects[i].id == id && HasRole(members, userId, projects[i].workspaceId, roles)
  }

  /** Members, of any role, may add a project to their workspace; it is written under the next id. */
  method CreateProject(db: Database, session: Option<UserId>, name: string, description: Option<string>,
                       workspaceId: RowId, fault: StoreFault)
    returns (r: Result<Project>)
    requires db.Valid()
    modifies db
    ensures db.Valid()
    ensures session.None? ==> r == Failure(Unauthorized)
    ensures session.Some? && (fault == LookupFails || (fault == WriteFails && HasRole(old(db.members), session.value, workspaceId, AnyRole))) ==>
      r == Failure("Failed to create project")
    ensures session.Some? && fault != LookupFails && !HasRole(old(db.members), session.value, workspaceId, AnyRole) ==>
      r == Failure("Access denied")
    ensures r.Success? <==> session.Some? && fault == Healthy && HasRole(old(db.members), session.value, workspaceId, AnyRole)
    ensures r.Success? ==>
      && r.value == Project(old(db.nextId), name, description, workspaceId, session.value, Active)
      && db.projects == old(db.projects) + [r.value]
      && db.nextId == old(db.nextId) + 1
    ensures r.Failure? ==> db.projects == old(db.projects) && db.nextId == old(db.nextId)
    ensures db.workspaces == old(db.workspaces) && db.members == old(db.members) && db.photos == old(db.photos)
    ensures db.edits == old(db.edits) && db.userNames == old(db.userNames)
  {
    if session.None? {
      return Failure(Unauthorized);
    }
    if fault == LookupFails {
      return Failure("Failed to create project");
    }
    if !HasRole(db.members, session.value, workspaceId, AnyRole) {
      return Failure("Access denied");
    }
    if fault == WriteFails {
      return Failure("Failed to create project");
    }
    var id := db.AddProject(Project(0, name, description, workspaceId, session.value, Active));
    return Success(db.projects[|db.projects| - 1]);
  }

  /** `...(name && { name }), ...(description !== undefined && { description })`. */
  function Updated(p: Project, name: Option<string>, description: Option<string>): (q: Project)
    ensures q.name == (if Truthy(name) then name.value else p.name)
    ensures q.description == (if description.Some? then description else p.description)
    ensures q.(name := p.name, description := p.description) == p
  {
    p.(name := if Truthy(name) then name.value else p.name,
       description := if description.Some? then description else p.description)
  }

  /**
   * Any member of the project's workspace may rename it (only to a non-empty
   * name) and change its description (to any supplied value, even ""); the
   * row keeps its place and every other field.
   */
  method UpdateProject(db: Database, session: Option<UserId>, id: RowId, name: Option<string>,
                       description: Option<string>, fault: StoreFault)
    returns (r: Result<Project>)
    requires db.Valid()
    modifies db
    ensures db.Valid()
    ensures session.None? ==> r == Failure(Unauthorized)
    ensures r.Success? <==>
      session.Some? && fault == Healthy && ProjectAccess(old(db.projects), old(db.members), id, session.value, AnyRole)
    ensures session.Some? && fault != LookupFails && !ProjectAccess(old(db.projects), old(db.members), id, session.value, AnyRole) ==>
      r == Failure("Project not found or access denied")
    ensures (session.Some? &&
             (fault == LookupFails || (fault == WriteFails && ProjectAccess(old(db.projects), old(db.members), id, session.value, AnyRole)))) ==>
      r == Failure("Failed to update project")
    ensures r.Success? ==> exists i ::
      && 0 <= i < |old(db.projects)| && old(db.projects)[i].id == id
      && r.value == Updated(old(db.projects)[i], name, description)
      && db.projects == old(db.projects)[i := r.value]
    ensures r.Failure? ==> db.projects == old(db.projects)
    ensures db.workspaces == old(db.workspaces) && db.members == old(db.members) && db.photos == old(db.photos)
    ensures db.edits == old(db.edits) && db.userNames == old(db.userNames) && db.nextId == old(db.nextId)
  {
    if session.None? {
      return Failure(Unauthorized);
    }
    if fault == LookupFails {
      return Failure("Failed to update project");
    }
    var found := FindById(db.projects, ProjectId, id);
    if found.Some? {
      OnlyRowWithId(db.projects, ProjectId, db.nextId, found.value);
    }
    if found.None? || !HasRole(db.members, session.value, db.projects[found.value].workspaceId, AnyRole) {
      return Failure("Project not found or access denied");
    }
    if fault == WriteFails {
      return Failure("Failed to update project");
    }
    var i := found.value;
    var q := Updated(db.projects[i], name, description);
    db.projects := db.projects[i := q];
    return Success(q);
  }

  const ArchiveRoles: set<Role> := {Owner, Admin}

  /** `status: 'ARCHIVED'` with every other field kept. */
  function ArchivedRow(p: Project): (q: Project)
    ensures q.status == Archived && q.(status := p.status) == p
  {
    p.(status := Archived)
  }

  /** Archiving an archived project changes nothing. */
  lemma ArchiveIdempotent(p: Project)
    ensures ArchivedRow(ArchivedRow(p)) == ArchivedRow(p)
    ensures p.status == Archived ==> ArchivedRow(p) == p
  {
  }

  /** Whoever may archive a project may also update it: the archive roles are among the member roles. */
  lemma ArchiveAccessImpliesUpdateAccess(projects: seq<Project>, members: seq<Member>, id: RowId, userId: UserId)
    ensures ProjectAccess(projects, members, id, userId, ArchiveRoles) ==> ProjectAccess(projects, members, id, userId, AnyRole)
  {
    if ProjectAccess(projects, members, id, userId, ArchiveRoles) {
      var i :| 0 <= i < |projects| && projects[i].id == id && HasRole(members, userId, projects[i].workspaceId, ArchiveRoles);
      var m :| 0 <= m < |members| && members[m].userId == userId && members[m].workspaceId == projects[i].workspaceId
        && members[m].role in ArchiveRoles;
      assert members[m].role in AnyRole;
    }
  }

  /**
   * Only an OWNER or ADMIN of the project's workspace may archive it; the row
   * stays in the table with status ARCHIVED and nothing else changes.
   */
  method ArchiveProject(db: Database, session: Option<UserId>, id: RowId, fault: StoreFault)
    returns (r: Result<()>)
    requires db.Valid()
    modifies db
    ensures db.Valid()
    ensures session.None? ==> r == Failure(Unauthorized)
    ensures r.Success? <==>
      session.Some? && fault == Healthy && ProjectAccess(old(db.projects), old(db.members), id, session.value, ArchiveRoles)
    ensures session.Some? && fault != LookupFails && !ProjectAccess(old(db.projects), old(db.members), id, session.value, ArchiveRoles) ==>
      r == Failure("Project not found or insufficient permissions")
    ensures (session.Some? &&
             (fault == LookupFails || (fault == WriteFails && ProjectAccess(old(db.projects), old(db.members), id, session.value, ArchiveRoles)))) ==>
      r == Failure("Failed to archive project")
    ensures r.Success? ==> exists i ::
      && 0 <= i < |old(db.projects)| && old(db.projects)[i].id == id
      && db.projects == old(db.projects)[i := ArchivedRow(old(db.projects)[i])]
    ensures r.Failure? ==> db.projects == old(db.projects)
    ensures |db.projects| == |old(db.projects)|
    ensures db.workspaces == old(db.workspaces) && db.members == old(db.members) && db.photos == old(db.photos)
    ensures db.edits == old(db.edits) && db.userNames == old(db.userNames) && db.nextId == old(db.nextId)
  {
    if session.None? {
      return Failure(Unauthorized);
    }
    if fault == LookupFails {
      return Failure("Failed to archive project");
    }
    var found := FindById(db.projects, ProjectId, id);
    if found.Some? {
      OnlyRowWithId(db.projects, ProjectId, db.nextId, found.value);
    }
    if found.None? || !HasRole(db.members, session.value, db.projects[found.value].workspaceId, ArchiveRoles) {
      return Failure("Project not found or insufficient permissions");
    }
    if fault == WriteFails {
      return Failure("Failed to archive project");
    }
    var i := found.value;
    db.projects := db.projects[i := ArchivedRow(db.projects[i])];
    return Success(());
  }
}
