/** The `onSignUp` callback of lib/auth.ts. */
module AuthSignup {
  import opened Common
  import opened Store
  import opened Provisioning
  import Slug

  datatype SignupUser = SignupUser(id: UserId, email: string, name: Option<string>)

  /** The workspace name: the user's name followed by "'s Workspace", or "My Workspace" when the name is missing or empty. */
  function WorkspaceName(userName: Option<string>): (r: string)
    ensures Truthy(userName) ==> r == userName.value + "'s Workspace"
    ensures !Truthy(userName) ==> r == "My Workspace"
  {
    if Truthy(userName) then userName.value + "'s Workspace" else "My Workspace"
  }

  /**
   * The callback writes the workspace without company name or VAT number,
   * then the OWNER membership, then the default project; a failing store call
   * is swallowed and sign-up goes on. The display name is never rewritten.
   */
  method OnSignUp(db: Database, user: SignupUser, fault: ProvisionFault)
    requires db.Valid()
    modifies db
    ensures db.Valid()
    ensures var name := WorkspaceName(user.name);
      var slug := Slug.GenerateSlug(name, user.id);
      var k := StepsCompleted(fault);
      var wid := old(db.nextId);
      && db.workspaces == old(db.workspaces)
           + (if k >= 1 then [NewWorkspace(wid, name, slug, user.id, user.email, None, None)] else [])
      && db.members == old(db.members) + (if k >= 2 then [Member(user.id, wid, Owner)] else [])
      && db.projects == old(db.projects) + (if k >= 3 then [DefaultProject(wid + 1, wid, user.id)] else [])
      && db.nextId == old(db.nextId) + (if k >= 1 then 1 else 0) + (if k >= 3 then 1 else 0)
    ensures db.userNames == old(db.userNames) && db.photos == old(db.photos) && db.edits == old(db.edits)
  {
    var name := WorkspaceName(user.name);
    var slug := Slug.GenerateSlug(name, user.id);
    var _ := Provision(db, user.id, user.email, name, slug, None, None, fault);
  }
}
