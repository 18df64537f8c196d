/**
 * The workspace set-up that all three sign-up paths perform: create the
 * workspace, then the owner's membership, then a default project, and in two
 * of the paths rewrite the user's display name afterwards. The calls are not
 * in a transaction, so the rows written before a failing step stay written.
 */
module Provisioning {
  import opened Common
  import opened Store

  datatype Step = CreateWorkspace | CreateMember | CreateProject | UpdateUser

  /** Which store call throws, if any, and with what message. */
  datatype ProvisionFault = NoFault | FailsAt(step: Step, message: string)

  /** The number of steps, in the order above, that complete before the failing one. */
  function StepsCompleted(fault: ProvisionFault): (n: nat)
    ensures n <= 4
    ensures n == 4 <==> fault.NoFault?
  {
    match fault
    case NoFault => 4
    case FailsAt(step, _) =>
      match step
      case CreateWorkspace => 0
      case CreateMember => 1
      case CreateProject => 2
      case UpdateUser => 3
  }

  /** The workspace row as the three paths write it: FREE tier, 10 edits a month, none used yet. */
  function NewWorkspace(id: RowId, name: string, slug: string, ownerId: UserId, billingEmail: string,
                        companyName: Option<string>, vatNumber: Option<string>): Workspace {
    Workspace(id, name, slug, ownerId, billingEmail, companyName, vatNumber, "FREE", 10, 0)
  }

  const DefaultProjectName: string := "My First Project"
  const DefaultProjectDescription: string := "Default project for organizing your photo edits"

  function DefaultProject(id: RowId, workspaceId: RowId, ownerId: UserId): Project {
    Project(id, DefaultProjectName, Some(DefaultProjectDescription), workspaceId, ownerId, Active)
  }

  /**
   * The three inserts. On success the workspace has the next id, the owner is
   * its OWNER member, and the default project, ACTIVE, belongs to it. When a
   * step throws, the earlier rows stay and the error's message is returned.
   */
  method Provision(db: Database, ownerId: UserId, billingEmail: string, name: string, slug: string,
                   companyName: Option<string>, vatNumber: Option<string>, fault: ProvisionFault)
    returns (r: Result<RowId>)
    requires db.Valid()
    modifies db
    ensures db.Valid()
    ensures var k, wid := StepsCompleted(fault), old(db.nextId);
      && db.workspaces == old(db.workspaces)
           + (if k >= 1 then [NewWorkspace(wid, name, slug, ownerId, billingEmail, companyName, vatNumber)] else [])
      && db.members == old(db.members) + (if k >= 2 then [Member(ownerId, wid, Owner)] else [])
      && db.projects == old(db.projects) + (if k >= 3 then [DefaultProject(wid + 1, wid, ownerId)] else [])
      && db.nextId == old(db.nextId) + (if k >= 1 then 1 else 0) + (if k >= 3 then 1 else 0)
      && (r.Success? <==> k >= 3)
      && (r.Success? ==> r.value == wid)
      && (r.Failure? ==> r.error == fault.message)
    ensures db.photos == old(db.photos) && db.edits == old(db.edits) && db.userNames == old(db.userNames)
  {
    var k := StepsCompleted(fault);
    if k == 0 {
      return Failure(fault.message);
    }
    var wid := db.AddWorkspace(NewWorkspace(0, name, slug, ownerId, billingEmail, companyName, vatNumber));
    if k == 1 {
      return Failure(fault.message);
    }
    db.AddMember(Member(ownerId, wid, Owner));
    if k == 2 {
      return Failure(fault.message);
    }
    var pid := db.AddProject(DefaultProject(0, wid, ownerId));
    return Success(wid);
  }

  /** The optional last step: write the display name, unless that call throws. */
  method UpdateDisplayName(db: Database, userId: UserId, displayName: string, fault: ProvisionFault)
    returns (r: Result<()>)
    requires db.Valid()
    modifies db
    ensures db.Valid()
    ensures r.Success? <==> StepsCompleted(fault) >= 4
    ensures r.Failure? ==> r.error == fault.message
    ensures db.userNames == if r.Success? then old(db.userNames)[userId := displayName] else old(db.userNames)
    ensures db.workspaces == old(db.workspaces) && db.members == old(db.members) && db.projects == old(db.projects)
    ensures db.photos == old(db.photos) && db.edits == old(db.edits) && db.nextId == old(db.nextId)
  {
    if StepsCompleted(fault) < 4 {
      return Failure(fault.message);
    }
    db.SetUserName(userId, displayName);
    return Success(());
  }
}
