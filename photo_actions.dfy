/**
 * actions/photo-actions.ts: two read-only queries (the edits of a workspace,
 * and its photos each with their latest edit) and the deletion of one edit.
 */
module PhotoActions {
  import opened Common
  import opened Store
  import opened Queries

  /** Which store call of a query throws, if any: the membership lookup, or the query that follows it. */
  datatype QueryFault = NoQueryFault | MemberLookupFails | QueryFails

  /** An edit with the photo it belongs to (`include: { photo: ... }`). */
  datatype EditEntry = EditEntry(edit: PhotoEdit, photo: Photo)

  /** A photo with at most one edit, its latest (`include: { edits: { ..., take: 1 } }`). */
  datatype PhotoEntry = PhotoEntry(photo: Photo, edits: seq<PhotoEdit>)

  const EditLimit: nat := 50
  const PhotoLimit: nat := 100

  /** The photo the relation reaches from `photoId`: the first row with that id. */
  function PhotoOf(photos: seq<Photo>, photoId: RowId): (r: Option<Photo>)
    ensures r.Some? ==> r.value in photos && r.value.id == photoId
    ensures r.None? ==> forall i :: 0 <= i < |photos| ==> photos[i].id != photoId
  {
    if |photos| == 0 then None
    else if photos[0].id == photoId then Some(photos[0])
    else PhotoOf(photos[1..], photoId)
  }

  /** The `where` on a photo: this workspace, and this project when one is given. */
  predicate InScope(photo: Photo, workspaceId: RowId, projectId: Option<RowId>) {
    photo.workspaceId == workspaceId && (projectId.None? || photo.projectId == projectId)
  }

  /** The edits whose photo is in scope, each with its photo, in table order. */
  function EditsInScope(edits: seq<PhotoEdit>, photos: seq<Photo>, workspaceId: RowId, projectId: Option<RowId>)
    : (r: seq<EditEntry>)
    ensures forall x :: x in r ==>
      (x.edit in edits && PhotoOf(photos, x.edit.photoId) == Some(x.photo) && InScope(x.photo, workspaceId, projectId))
  {
    if |edits| == 0 then []
    else
      var rest := EditsInScope(edits[1..], photos, workspaceId, projectId);
      var photo := PhotoOf(photos, edits[0].photoId);
      if photo.Some? && InScope(photo.value, workspaceId, projectId) then [EditEntry(edits[0], photo.value)] + rest
      else rest
  }

  /** Every edit whose photo is in scope is among the candidates. */
  lemma {:induction false} EditsInScopeComplete(edits: seq<PhotoEdit>, photos: seq<Photo>, workspaceId: RowId,
                                                projectId: Option<RowId>, e: PhotoEdit)
    requires e in edits
    requires PhotoOf(photos, e.photoId).Some? && InScope(PhotoOf(photos, e.photoId).value, workspaceId, projectId)
    ensures EditEntry(e, PhotoOf(photos, e.photoId).value) in EditsInScope(edits, photos, workspaceId, projectId)
  {
    if edits[0] != e {
      EditsInScopeComplete(edits[1..], photos, workspaceId, projectId, e);
    }
  }

  function EntryTime(x: EditEntry): int { x.edit.createdAt }
  function EditTime(e: PhotoEdit): int { e.createdAt }
  function PhotoTime(p: Photo): int { p.createdAt }

  /**
   * `getProjectEdits`: only a member of the workspace gets data; it is the
   * min(50, in scope) newest edits of photos in scope, newest first, each
   * with its photo, and no candidate more often than it is in scope.
   */
  function GetProjectEdits(session: Option<UserId>, members: seq<Member>, photos: seq<Photo>, edits: seq<PhotoEdit>,
                           workspaceId: RowId, projectId: Option<RowId>, fault: QueryFault)
    : (r: Result<seq<EditEntry>>)
    ensures session.None? ==> r == Failure("Unauthorized")
    ensures session.Some? && fault != MemberLookupFails && !HasRole(members, session.value, workspaceId, AnyRole) ==>
      r == Failure("Access denied")
    ensures r.Success? <==> session.Some? && fault == NoQueryFault && HasRole(members, session.value, workspaceId, AnyRole)
    ensures r.Success? ==>
      && |r.value| <= EditLimit
      && |r.value| == Min(EditLimit, |EditsInScope(edits, photos, workspaceId, projectId)|)
      && multiset(r.value) <= multiset(EditsInScope(edits, photos, workspaceId, projectId))
      && SortedDesc(r.value, EntryTime)
      && forall x :: x in r.value ==>
           (x.edit in edits && x.photo in photos && x.photo.id == x.edit.photoId && InScope(x.photo, workspaceId, projectId))
  {
    if session.None? then Failure("Unauthorized")
    else if fault == MemberLookupFails then Failure("Failed to fetch edit history")
    else if !HasRole(members, session.value, workspaceId, AnyRole) then Failure("Access denied")
    else if fault != NoQueryFault then Failure("Failed to fetch edit history")
    else Success(Latest(EditsInScope(edits, photos, workspaceId, projectId), EditLimit, EntryTime))
  }

  /**
   * Nothing in scope is missed except for the limit: an edit in scope that is
   * not returned is no newer than any returned one, and when at most 50
   * edits are in scope every one of them is returned.
   */
  lemma ProjectEditsComplete(session: Option<UserId>, members: seq<Member>, photos: seq<Photo>, edits: seq<PhotoEdit>,
                             workspaceId: RowId, projectId: Option<RowId>, e: PhotoEdit)
    requires GetProjectEdits(session, members, photos, edits, workspaceId, projectId, NoQueryFault).Success?
    requires e in edits && PhotoOf(photos, e.photoId).Some?
    requires InScope(PhotoOf(photos, e.photoId).value, workspaceId, projectId)
    ensures var r := GetProjectEdits(session, members, photos, edits, workspaceId, projectId, NoQueryFault).value;
      var x := EditEntry(e, PhotoOf(photos, e.photoId).value);
      && (x !in r ==> forall y :: y in r ==> y.edit.createdAt >= e.createdAt)
      && (|EditsInScope(edits, photos, workspaceId, projectId)| <= EditLimit ==> x in r)
  {
    var candidates := EditsInScope(edits, photos, workspaceId, projectId);
    EditsInScopeComplete(edits, photos, workspaceId, projectId, e);
    LatestKeepsOrOutranks(candidates, EditLimit, EntryTime, EditEntry(e, PhotoOf(photos, e.photoId).value));
  }

  /** `include: { edits: { orderBy: { createdAt: 'desc' }, take: 1 } }` for one photo. */
  function LatestEditOf(edits: seq<PhotoEdit>, photoId: RowId): (r: seq<PhotoEdit>)
    ensures |r| <= 1
    ensures forall e :: e in r ==> e in edits && e.photoId == photoId
  {
    FilterMembers(edits, (e: PhotoEdit) => e.photoId == photoId);
    Latest(Filter(edits, (e: PhotoEdit) => e.photoId == photoId), 1, EditTime)
  }

  /**
   * A photo carries at most one edit; it is one of its own and none of its
   * edits is newer; it carries none exactly when it has no edits.
   */
  lemma LatestEditIsLatest(edits: seq<PhotoEdit>, photoId: RowId)
    ensures |LatestEditOf(edits, photoId)| <= 1
    ensures |LatestEditOf(edits, photoId)| == 0 <==> forall e :: e in edits ==> e.photoId != photoId
    ensures |LatestEditOf(edits, photoId)| == 1 ==>
      var latest := LatestEditOf(edits, photoId)[0];
      && latest in edits && latest.photoId == photoId
      && forall e :: e in edits && e.photoId == photoId ==> e.createdAt <= latest.createdAt
  {
    var own := Filter(edits, (e: PhotoEdit) => e.photoId == photoId);
    FilterMembers(edits, (e: PhotoEdit) => e.photoId == photoId);
    var r := Latest(own, 1, EditTime);
    if |own| > 0 {
      assert own[0] in own;
      assert |r| == 1;
      assert r[0] in r;
      forall e | e in edits && e.photoId == photoId ensures e.createdAt <= r[0].createdAt {
        LatestKeepsOrOutranks(own, 1, EditTime, e);
      }
    }
  }

  /** A photo in scope with its latest edit attached. */
  function WithLatestEdit(photo: Photo, edits: seq<PhotoEdit>): PhotoEntry {
    PhotoEntry(photo, LatestEditOf(edits, photo.id))
  }

  /**
   * `getWorkspacePhotos`: only a member of the workspace gets data; it is the
   * min(100, in scope) newest photos in scope, newest first, each with its
   * latest edit, and no photo more often than it is in scope.
   */
  function GetWorkspacePhotos(session: Option<UserId>, members: seq<Member>, photos: seq<Photo>, edits: seq<PhotoEdit>,
                              workspaceId: RowId, projectId: Option<RowId>, fault: QueryFault)
    : (r: Result<seq<PhotoEntry>>)
    ensures session.None? ==> r == Failure("Unauthorized")
    ensures session.Some? && fault != MemberLookupFails && !HasRole(members, session.value, workspaceId, AnyRole) ==>
      r == Failure("Access denied")
    ensures r.Success? <==> session.Some? && fault == NoQueryFault && HasRole(members, session.value, workspaceId, AnyRole)
    ensures r.Success? ==>
      && |r.value| <= PhotoLimit
      && |r.value| == Min(PhotoLimit, |ScopedPhotos(photos, workspaceId, projectId)|)
      && multiset(PhotosOf(r.value)) <= multiset(ScopedPhotos(photos, workspaceId, projectId))
      && (forall i, j :: 0 <= i < j < |r.value| ==> r.value[i].photo.createdAt >= r.value[j].photo.createdAt)
      && forall i :: 0 <= i < |r.value| ==>
           (r.value[i].photo in photos && InScope(r.value[i].photo, workspaceId, projectId)
            && r.value[i] == WithLatestEdit(r.value[i].photo, edits))
  {
    if session.None? then Failure("Unauthorized")
    else if fault == MemberLookupFails then Failure("Failed to fetch photos")
    else if !HasRole(members, session.value, workspaceId, AnyRole) then Failure("Access denied")
    else if fault != NoQueryFault then Failure("Failed to fetch photos")
    else Success(NewestPhotos(photos, edits, workspaceId, projectId))
  }

  /**
   * Nothing in scope is missed except for the limit: a photo in scope that is
   * not returned is no newer than any returned one, and when at most 100
   * photos are in scope every one of them is returned.
   */
  lemma WorkspacePhotosComplete(session: Option<UserId>, members: seq<Member>, photos: seq<Photo>, edits: seq<PhotoEdit>,
                                workspaceId: RowId, projectId: Option<RowId>, p: Photo)
    requires GetWorkspacePhotos(session, members, photos, edits, workspaceId, projectId, NoQueryFault).Success?
    requires p in photos && InScope(p, workspaceId, projectId)
    ensures var r := GetWorkspacePhotos(session, members, photos, edits, workspaceId, projectId, NoQueryFault).value;
      && (WithLatestEdit(p, edits) !in r ==> forall x :: x in r ==> x.photo.createdAt >= p.createdAt)
      && (|ScopedPhotos(photos, workspaceId, projectId)| <= PhotoLimit ==> WithLatestEdit(p, edits) in r)
  {
    assert GetWorkspacePhotos(session, members, photos, edits, workspaceId, projectId, NoQueryFault).value
      == NewestPhotos(photos, edits, workspaceId, projectId);
    if |ScopedPhotos(photos, workspaceId, projectId)| <= PhotoLimit {
      NewestPhotosKeepSmallScope(photos, edits, workspaceId, projectId, p);
    }
    NewestPhotosLeaveOutOlder(photos, edits, workspaceId, projectId, p);
  }

  /** When at most 100 photos are in scope, every one of them is listed. */
  lemma NewestPhotosKeepSmallScope(photos: seq<Photo>, edits: seq<PhotoEdit>, workspaceId: RowId,
                                   projectId: Option<RowId>, p: Photo)
    requires p in photos && InScope(p, workspaceId, projectId)
    requires |ScopedPhotos(photos, workspaceId, projectId)| <= PhotoLimit
    ensures WithLatestEdit(p, edits) in NewestPhotos(photos, edits, workspaceId, projectId)
  {
    var newest := PhotosInScope(photos, workspaceId, projectId);
    var r := NewestPhotos(photos, edits, workspaceId, projectId);
    assert p in multiset(ScopedPhotos(photos, workspaceId, projectId));
    assert p in multiset(newest);
    var i :| 0 <= i < |newest| && newest[i] == p;
    assert r[i] == WithLatestEdit(p, edits);
  }

  /** A photo in scope that is not listed is no newer than any photo listed. */
  lemma NewestPhotosLeaveOutOlder(photos: seq<Photo>, edits: seq<PhotoEdit>, workspaceId: RowId,
                                  projectId: Option<RowId>, p: Photo)
    requires p in photos && InScope(p, workspaceId, projectId)
    ensures var r := NewestPhotos(photos, edits, workspaceId, projectId);
      WithLatestEdit(p, edits) !in r ==> forall x :: x in r ==> x.photo.createdAt >= p.createdAt
  {
    var newest := PhotosInScope(photos, workspaceId, projectId);
    var r := NewestPhotos(photos, edits, workspaceId, projectId);
    if p in newest {
      var i :| 0 <= i < |newest| && newest[i] == p;
      assert r[i] == WithLatestEdit(p, edits);
    } else {
      forall x | x in r ensures x.photo.createdAt >= p.createdAt {
        var i :| 0 <= i < |r| && r[i] == x;
        assert x.photo == newest[i] && newest[i] in newest;
      }
    }
  }

  /** The query behind `getWorkspacePhotos`, once access is granted. */
  function NewestPhotos(photos: seq<Photo>, edits: seq<PhotoEdit>, workspaceId: RowId, projectId: Option<RowId>)
    : (r: seq<PhotoEntry>)
    ensures |r| <= PhotoLimit
    ensures forall i, j :: 0 <= i < j < |r| ==> r[i].photo.createdAt >= r[j].photo.createdAt
    ensures forall i :: 0 <= i < |r| ==>
      (r[i].photo in photos && InScope(r[i].photo, workspaceId, projectId) && r[i] == WithLatestEdit(r[i].photo, edits))
    ensures |r| == |PhotosInScope(photos, workspaceId, projectId)|
    ensures forall i :: 0 <= i < |r| ==> r[i].photo == PhotosInScope(photos, workspaceId, projectId)[i]
    ensures PhotosOf(r) == PhotosInScope(photos, workspaceId, projectId)
    ensures |r| == Min(PhotoLimit, |ScopedPhotos(photos, workspaceId, projectId)|)
    ensures multiset(PhotosOf(r)) <= multiset(ScopedPhotos(photos, workspaceId, projectId))
  {
    var newest := PhotosInScope(photos, workspaceId, projectId);
    var r := seq(|newest|, i requires 0 <= i < |newest| => WithLatestEdit(newest[i], edits));
    assert forall i :: 0 <= i < |r| ==> r[i].photo == newest[i];
    assert PhotosOf(r) == newest;
    r
  }

  /** The photos of a list of entries, in order. */
  function PhotosOf(entries: seq<PhotoEntry>): (r: seq<Photo>)
    ensures |r| == |entries|
    ensures forall i :: 0 <= i < |r| ==> r[i] == entries[i].photo
  {
    seq(|entries|, i requires 0 <= i < |entries| => entries[i].photo)
  }

  /** The `where` clause of `getWorkspacePhotos`: every photo of the table in scope, in table order. */
  function ScopedPhotos(photos: seq<Photo>, workspaceId: RowId, projectId: Option<RowId>): (r: seq<Photo>)
    ensures forall p :: p in r <==> p in photos && InScope(p, workspaceId, projectId)
  {
    FilterMembers(photos, (p: Photo) => InScope(p, workspaceId, projectId));
    Filter(photos, (p: Photo) => InScope(p, workspaceId, projectId))
  }

  /**
   * At most 100 photos in scope, newest first; a photo in scope that is left
   * out is no newer than any kept, and when at most 100 are in scope all are
   * kept.
   */
  function PhotosInScope(photos: seq<Photo>, workspaceId: RowId, projectId: Option<RowId>): (r: seq<Photo>)
    ensures |r| <= PhotoLimit
    ensures |r| == Min(PhotoLimit, |ScopedPhotos(photos, workspaceId, projectId)|)
    ensures multiset(r) <= multiset(ScopedPhotos(photos, workspaceId, projectId))
    ensures SortedDesc(r, PhotoTime)
    ensures forall i :: 0 <= i < |r| ==> r[i] in photos && InScope(r[i], workspaceId, projectId)
    ensures forall p, q :: p in photos && InScope(p, workspaceId, projectId) && p !in r && q in r ==>
      q.createdAt >= p.createdAt
    ensures |ScopedPhotos(photos, workspaceId, projectId)| <= PhotoLimit ==>
      multiset(r) == multiset(ScopedPhotos(photos, workspaceId, projectId))
  {
    NewestInScope(photos, workspaceId, projectId);
    Latest(ScopedPhotos(photos, workspaceId, projectId), PhotoLimit, PhotoTime)
  }

  /** The facts of `PhotosInScope`, proved about the newest-first selection from the scoped photos. */
  lemma NewestInScope(photos: seq<Photo>, workspaceId: RowId, projectId: Option<RowId>)
    ensures var r := Latest(ScopedPhotos(photos, workspaceId, projectId), PhotoLimit, PhotoTime);
      && (forall i :: 0 <= i < |r| ==> r[i] in photos && InScope(r[i], workspaceId, projectId))
      && (forall p, q :: p in photos && InScope(p, workspaceId, projectId) && p !in r && q in r ==>
            q.createdAt >= p.createdAt)
  {
    var scoped := ScopedPhotos(photos, workspaceId, projectId);
    var r := Latest(scoped, PhotoLimit, PhotoTime);
    LatestLeavesOutOlder(scoped, PhotoLimit, PhotoTime);
    forall i | 0 <= i < |r| ensures r[i] in photos && InScope(r[i], workspaceId, projectId) {
      assert r[i] in r;
    }
    forall p, q | p in photos && InScope(p, workspaceId, projectId) && p !in r && q in r
      ensures q.createdAt >= p.createdAt
    {
      assert p in scoped;
      assert PhotoTime(q) >= PhotoTime(p);
    }
  }

  const DeleteRoles: set<Role> := {Owner, Admin, Editor}

  /** The edit exists and the user is OWNER, ADMIN or EDITOR in the workspace of its photo. */
  predicate CanDelete(members: seq<Member>, photos: seq<Photo>, edits: seq<PhotoEdit>, userId: UserId, editId: RowId)
    : (r: bool)
    ensures r ==> exists e :: e in edits && e.id == editId
    ensures r ==> exists m :: m in members && m.userId == userId && m.role in DeleteRoles
  {
    exists i :: 0 <= i < |edits| && edits[i].id == editId && EditorOfPhoto(members, photos, edits[i].photoId, userId)
  }

  /** The photo exists and the user holds a deleting role in its workspace. */
  predicate EditorOfPhoto(members: seq<Member>, photos: seq<Photo>, photoId: RowId, userId: UserId) {
    PhotoOf(photos, photoId).Some? && HasRole(members, userId, PhotoOf(photos, photoId).value.workspaceId, DeleteRoles)
  }

  /** With unique edit ids, deleting an existing edit is decided by the role on that edit's photo alone. */
  lemma CanDeleteFound(members: seq<Member>, photos: seq<Photo>, edits: seq<PhotoEdit>, bound: nat, userId: UserId, k: nat)
    requires UniqueIdsBelow(edits, EditId, bound)
    requires k < |edits|
    ensures CanDelete(members, photos, edits, userId, edits[k].id) <==> EditorOfPhoto(members, photos, edits[k].photoId, userId)
  {
    OnlyRowWithId(edits, EditId, bound, k);
  }

  /**
   * A member who is only VIEWER in a workspace may list its edits but may
   * delete none of them.
   */
  lemma ViewerListsButCannotDelete(members: seq<Member>, photos: seq<Photo>, edits: seq<PhotoEdit>, bound: nat,
                                   userId: UserId, workspaceId: RowId, k: nat)
    requires UniqueIdsBelow(edits, EditId, bound)
    requires HasRole(members, userId, workspaceId, {Viewer})
    requires !HasRole(members, userId, workspaceId, DeleteRoles)
    requires k < |edits| && PhotoOf(photos, edits[k].photoId).Some?
    requires PhotoOf(photos, edits[k].photoId).value.workspaceId == workspaceId
    ensures GetProjectEdits(Some(userId), members, photos, edits, workspaceId, None, NoQueryFault).Success?
    ensures !CanDelete(members, photos, edits, userId, edits[k].id)
  {
    var m :| 0 <= m < |members| && members[m].userId == userId && members[m].workspaceId == workspaceId
      && members[m].role in {Viewer};
    assert members[m].role in AnyRole;
    CanDeleteFound(members, photos, edits, bound, userId, k);
  }

  /**
   * `deletePhotoEdit`: an OWNER, ADMIN or EDITOR of the workspace the edit's
   * photo belongs to removes that one edit; every other row stays.
   */
  method DeletePhotoEdit(db: Database, session: Option<UserId>, editId: RowId, fault: StoreFault)
    returns (r: Result<()>)
    requires db.Valid()
    modifies db
    ensures db.Valid()
    ensures session.None? ==> r == Failure("Unauthorized")
    ensures r.Success? <==>
      session.Some? && fault == Healthy && CanDelete(old(db.members), old(db.photos), old(db.edits), session.value, editId)
    ensures session.Some? && fault != LookupFails && !CanDelete(old(db.members), old(db.photos), old(db.edits), session.value, editId) ==>
      r == Failure("Edit not found or insufficient permissions")
    ensures (session.Some? &&
             (fault == LookupFails || (fault == WriteFails && CanDelete(old(db.members), old(db.photos), old(db.edits), session.value, editId)))) ==>
      r == Failure("Failed to delete edit")
    ensures r.Success? ==> exists i ::
      && 0 <= i < |old(db.edits)| && old(db.edits)[i].id == editId
      && db.edits == old(db.edits)[..i] + old(db.edits)[i + 1..]
    ensures r.Success? ==> forall e :: e in db.edits <==> e in old(db.edits) && e.id != editId
    ensures r.Failure? ==> db.edits == old(db.edits)
    ensures db.workspaces == old(db.workspaces) && db.members == old(db.members) && db.projects == old(db.projects)
    ensures db.photos == old(db.photos) && db.userNames == old(db.userNames) && db.nextId == old(db.nextId)
  {
    if session.None? {
      return Failure("Unauthorized");
    }
    if fault == LookupFails {
      return Failure("Failed to delete edit");
    }
    var found := FindById(db.edits, EditId, editId);
    if found.Some? {
      CanDeleteFound(db.members, db.photos, db.edits, db.nextId, session.value, found.value);
    }
    if found.None? || !EditorOfPhoto(db.members, db.photos, db.edits[found.value].photoId, session.value) {
      return Failure("Edit not found or insufficient permissions");
    }
    if fault == WriteFails {
      return Failure("Failed to delete edit");
    }
    var i := found.value;
    RemoveAt(db.edits, EditId, db.nextId, i);
    db.edits := db.edits[..i] + db.edits[i + 1..];
    return Success(());
  }
}
