/** `createWorkspaceForUser` of actions/workspace-actions.ts. */
module WorkspaceActions {
  import opened Common
  import opened Store
  import opened Provisioning
  import Slug
  import AuthSignup

  /** The signed-in user as the session reports it. */
  datatype SessionUser = SessionUser(id: UserId, email: string, name: Option<string>)

  /** What `getSession()` gives: no user, a user, or an exception with its message. */
  datatype SessionLookup = NoUser | SignedIn(user: SessionUser) | LookupThrows(message: string)

  datatype BusinessData = BusinessData(firstName: string, lastName: string, companyName: string, organizationNumber: string)

  datatype Names = Names(displayName: string, workspaceName: string)

  /** What the action returns on success. */
  datatype WorkspaceSummary = WorkspaceSummary(id: RowId, name: string, slug: string)

  /** Business data wins; otherwise a non-empty user name; otherwise the defaults. */
  function DeriveNames(userName: Option<string>, businessData: Option<BusinessData>): (r: Names)
    ensures businessData.Some? ==>
      && r.workspaceName == businessData.value.companyName
      && r.displayName == businessData.value.firstName + " " + businessData.value.lastName
    ensures businessData.None? && Truthy(userName) ==>
      r == Names(userName.value, userName.value + "'s Workspace")
    ensures businessData.None? && !Truthy(userName) ==> r == Names("User", "My Workspace")
  {
    if businessData.Some? then
      Names(businessData.value.firstName + " " + businessData.value.lastName, businessData.value.companyName)
    else if Truthy(userName) then
      Names(userName.value, userName.value + "'s Workspace")
    else
      Names("User", "My Workspace")
  }

  const NoUserMessage: string := "No authenticated user found"

  /**
   * Without a session user the action throws before touching the store, and
   * so does a failing session lookup, whose error escapes unprefixed because
   * it happens before the `try`.
   * Otherwise it writes the workspace (company name and VAT number from the
   * business data, if any), the OWNER membership and the default project,
   * then, with business data only, the user's display name. A failing store
   * call is rethrown with a "Failed to create workspace: " prefix.
   */
  method CreateWorkspaceForUser(db: Database, session: SessionLookup, businessData: Option<BusinessData>,
                                fault: ProvisionFault)
    returns (r: Result<WorkspaceSummary>)
    requires db.Valid()
    modifies db
    ensures db.Valid()
    ensures session.NoUser? ==> r == Failure(NoUserMessage) && unchanged(db)
    ensures session.LookupThrows? ==> r == Failure(session.message) && unchanged(db)
    ensures session.SignedIn? ==>
      var user, names := session.user, DeriveNames(session.user.name, businessData);
      var slug := Slug.GenerateSlug(names.workspaceName, user.id);
      var k := StepsCompleted(fault);
      var wid := old(db.nextId);
      && db.workspaces == old(db.workspaces) + (if k >= 1 then
           [NewWorkspace(wid, names.workspaceName, slug, user.id, user.email,
              Some(if businessData.Some? then businessData.value.companyName else names.workspaceName),
              if businessData.Some? then Some(businessData.value.organizationNumber) else None)]
           else [])
      && db.members == old(db.members) + (if k >= 2 then [Member(user.id, wid, Owner)] else [])
      && db.projects == old(db.projects) + (if k >= 3 then [DefaultProject(wid + 1, wid, user.id)] else [])
      && db.nextId == old(db.nextId) + (if k >= 1 then 1 else 0) + (if k >= 3 then 1 else 0)
      && db.userNames == (if businessData.Some? && k == 4 then old(db.userNames)[user.id := names.displayName]
                          else old(db.userNames))
      && (r.Success? <==> k == 4 || (k == 3 && businessData.None?))
      && (r.Success? ==> r.value == WorkspaceSummary(wid, names.workspaceName, slug))
      && (r.Failure? ==> r.error == "Failed to create workspace: " + fault.message)
    ensures db.photos == old(db.photos) && db.edits == old(db.edits)
  {
    if session.LookupThrows? {
      return Failure(session.message);
    }
    if session.NoUser? {
      return Failure(NoUserMessage);
    }
    var user := session.user;
    var names := DeriveNames(user.name, businessData);
    var slug := Slug.GenerateSlug(names.workspaceName, user.id);
    var companyName := if businessData.Some? then businessData.value.companyName else names.workspaceName;
    var vatNumber := if businessData.Some? then Some(businessData.value.organizationNumber) else None;
    var created := Provision(db, user.id, user.email, names.workspaceName, slug, Some(companyName), vatNumber, fault);
    if created.Failure? {
      return Failure("Failed to create workspace: " + created.error);
    }
    if businessData.Some? {
      var updated := UpdateDisplayName(db, user.id, names.displayName, fault);
      if updated.Failure? {
        return Failure("Failed to create workspace: " + updated.error);
      }
    }
    return Success(WorkspaceSummary(created.value, names.workspaceName, slug));
  }

  /** Without business data the workspace name is the same one the sign-up callback chooses. */
  lemma NamesWithoutBusinessData(userName: Option<string>)
    ensures DeriveNames(userName, None).workspaceName == AuthSignup.WorkspaceName(userName)
  {
  }
}
