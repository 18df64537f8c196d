/**
 * The in-memory stand-in for the database tables the actions read and write:
 * workspaces, workspace members, projects, photos, photo edits and user
 * display names. Row ids are issued by the store from a counter; user ids
 * come from the authentication layer.
 */
module Store {
  import opened Common

  type UserId = string
  type RowId = nat

  /** Workspace roles; `Viewer` stands for every role other than the three the actions name. */
  datatype Role = Owner | Admin | Editor | Viewer

  datatype ProjectStatus = Active | Archived

  datatype Workspace = Workspace(
    id: RowId, name: string, slug: string, ownerId: UserId, billingEmail: string,
    companyName: Option<string>, vatNumber: Option<string>,
    subscriptionTier: string, monthlyEditLimit: int, currentMonthEdits: int)

  datatype Member = Member(userId: UserId, workspaceId: RowId, role: Role)

  datatype Project = Project(
    id: RowId, name: string, description: Option<string>, workspaceId: RowId,
    createdById: UserId, status: ProjectStatus)

  datatype Photo = Photo(id: RowId, workspaceId: RowId, projectId: Option<RowId>, filename: string, url: string, createdAt: int)

  datatype PhotoEdit = PhotoEdit(id: RowId, photoId: RowId, prompt: string, editedUrl: string, createdAt: int)

  /** Which store call of an action throws, if any: the access lookup, or the write that follows it. */
  datatype StoreFault = Healthy | LookupFails | WriteFails

  /** Every row's id is below `bound`, and no two rows share an id. */
  predicate UniqueIdsBelow<T>(rows: seq<T>, id: T -> RowId, bound: nat) {
    && (forall i :: 0 <= i < |rows| ==> id(rows[i]) < bound)
    && (forall i, j :: 0 <= i < j < |rows| ==> id(rows[i]) != id(rows[j]))
  }

  /** Appending a row with the next id keeps the ids unique and below the advanced counter. */
  lemma AppendFresh<T>(rows: seq<T>, id: T -> RowId, bound: nat, row: T)
    requires UniqueIdsBelow(rows, id, bound)
    requires id(row) == bound
    ensures UniqueIdsBelow(rows + [row], id, bound + 1)
  {
  }

  /** With unique ids, a row found by id is the only row with that id. */
  lemma OnlyRowWithId<T>(rows: seq<T>, id: T -> RowId, bound: nat, k: nat)
    requires UniqueIdsBelow(rows, id, bound)
    requires k < |rows|
    ensures forall i :: 0 <= i < |rows| && id(rows[i]) == id(rows[k]) ==> i == k
  {
  }

  /** Deleting one row keeps the ids unique and removes exactly the rows with that row's id. */
  lemma RemoveAt<T>(rows: seq<T>, id: T -> RowId, bound: nat, k: nat)
    requires UniqueIdsBelow(rows, id, bound)
    requires k < |rows|
    ensures UniqueIdsBelow(rows[..k] + rows[k + 1..], id, bound)
    ensures forall x :: x in rows[..k] + rows[k + 1..] <==> x in rows && id(x) != id(rows[k])
  {
    var rest := rows[..k] + rows[k + 1..];
    assert forall i :: 0 <= i < |rest| ==> rest[i] == rows[if i < k then i else i + 1];
    forall x | x in rows && id(x) != id(rows[k]) ensures x in rest {
      var i :| 0 <= i < |rows| && rows[i] == x;
      if i < k {
        assert rest[i] == x;
      } else {
        assert rest[i - 1] == x;
      }
    }
  }

  /** A membership of `userId` in `workspaceId` with one of `roles`. */
  predicate HasRole(members: seq<Member>, userId: UserId, workspaceId: RowId, roles: set<Role>) {
    exists i :: 0 <= i < |members| && members[i].userId == userId && members[i].workspaceId == workspaceId
      && members[i].role in roles
  }

  const AnyRole: set<Role> := {Owner, Admin, Editor, Viewer}

  /** The index of the row whose id is `target`, found by a scan. */
  method FindById<T>(rows: seq<T>, id: T -> RowId, target: RowId) returns (r: Option<nat>)
    ensures r.Some? ==> r.value < |rows| && id(rows[r.value]) == target
    ensures r.None? ==> forall i :: 0 <= i < |rows| ==> id(rows[i]) != target
  {
    var i := 0;
    while i < |rows|
      invariant 0 <= i <= |rows|
      invariant forall k :: 0 <= k < i ==> id(rows[k]) != target
    {
      if id(rows[i]) == target {
        return Some(i);
      }
      i := i + 1;
    }
    return None;
  }

  function WorkspaceId(w: Workspace): RowId { w.id }
  function ProjectId(p: Project): RowId { p.id }
  function PhotoId(p: Photo): RowId { p.id }
  function EditId(e: PhotoEdit): RowId { e.id }

  class Database {
    var workspaces: seq<Workspace>
    var members: seq<Member>
    var projects: seq<Project>
    var photos: seq<Photo>
    var edits: seq<PhotoEdit>
    /** The `name` column of the user table, for the users whose name was written. */
    var userNames: map<UserId, string>
    /** The next row id to issue. */
    var nextId: nat

    /** Row ids are unique within each table and were all issued before `nextId`. */
    predicate Valid()
      reads this
    {
      && UniqueIdsBelow(workspaces, WorkspaceId, nextId)
      && UniqueIdsBelow(projects, ProjectId, nextId)
      && UniqueIdsBelow(photos, PhotoId, nextId)
      && UniqueIdsBelow(edits, EditId, nextId)
    }

    constructor ()
      ensures Valid()
      ensures workspaces == [] && members == [] && projects == [] && photos == [] && edits == []
      ensures userNames == map[] && nextId == 0
    {
      workspaces, members, projects, photos, edits := [], [], [], [], [];
      userNames := map[];
      nextId := 0;
    }

    /** Inserts a workspace under the next id. */
    method AddWorkspace(w: Workspace) returns (id: RowId)
      requires Valid()
      modifies this
      ensures Valid()
      ensures id == old(nextId) && nextId == old(nextId) + 1
      ensures workspaces == old(workspaces) + [w.(id := id)]
      ensures members == old(members) && projects == old(projects) && photos == old(photos)
      ensures edits == old(edits) && userNames == old(userNames)
    {
      id := nextId;
      AppendFresh(workspaces, WorkspaceId, nextId, w.(id := id));
      workspaces := workspaces + [w.(id := id)];
      nextId := nextId + 1;
    }

    method AddMember(m: Member)
      requires Valid()
      modifies this
      ensures Valid()
      ensures members == old(members) + [m]
      ensures workspaces == old(workspaces) && projects == old(projects) && photos == old(photos)
      ensures edits == old(edits) && userNames == old(userNames) && nextId == old(nextId)
    {
      members := members + [m];
    }

    /** Inserts a project under the next id. */
    method AddProject(p: Project) returns (id: RowId)
      requires Valid()
      modifies this
      ensures Valid()
      ensures id == old(nextId) && nextId == old(nextId) + 1
      ensures projects == old(projects) + [p.(id := id)]
      ensures workspaces == old(workspaces) && members == old(members) && photos == old(photos)
      ensures edits == old(edits) && userNames == old(userNames)
    {
      id := nextId;
      AppendFresh(projects, ProjectId, nextId, p.(id := id));
      projects := projects + [p.(id := id)];
      nextId := nextId + 1;
    }

    /** Writes the `name` column of one user. */
    method SetUserName(userId: UserId, name: string)
      requires Valid()
      modifies this
      ensures Valid()
      ensures userNames == old(userNames)[userId := name]
      ensures workspaces == old(workspaces) && members == old(members) && projects == old(projects)
      ensures photos == old(photos) && edits == old(edits) && nextId == old(nextId)
    {
      userNames := userNames[userId := name];
    }
  }
}
