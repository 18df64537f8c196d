/**
 * `handleUserSignup` of lib/user-signup.ts. The user's name field may carry a
 * JSON object with business data; `JSON.parse` is a parameter.
 */
module UserSignup {
  import opened Common
  import opened Store
  import opened Provisioning
  import Slug
  import AuthSignup

  datatype SignupUser = SignupUser(id: UserId, email: string, name: Option<string>)

  /**
   * What `JSON.parse` yields: an exception, a value that is not an object
   * (`null`, a number, a string, ...), or an object, of which only the four
   * string fields the code reads are kept.
   */
  datatype Parsed =
    | Unparseable
    | NonObject
    | Object(firstName: Option<string>, lastName: Option<string>, companyName: Option<string>,
             organizationNumber: Option<string>)

  /** An object accepted as business data: truthy `firstName` and `companyName`. */
  predicate IsBusinessData(p: Parsed) {
    p.Object? && Truthy(p.firstName) && Truthy(p.companyName)
  }

  datatype Names = Names(displayName: string, workspaceName: string, businessData: Option<Parsed>)

  /**
   * The `try` block and its `catch`: business data gives the company's
   * workspace and "first last"; any other non-empty name is used as it is;
   * no name keeps the defaults.
   */
  function DeriveNames(userName: Option<string>, parse: string -> Parsed): (r: Names)
    ensures r.businessData.Some? <==> Truthy(userName) && IsBusinessData(parse(userName.value))
    ensures r.businessData.Some? ==> r.businessData.value == parse(userName.value)
  {
    if Truthy(userName) then
      var parsed := parse(userName.value);
      if IsBusinessData(parsed) then
        Names(parsed.firstName.value + " " + Interpolate(parsed.lastName), parsed.companyName.value, Some(parsed))
      else
        Names(userName.value, userName.value + "'s Workspace", None)
    else
      Names("User", "My Workspace", None)
  }

  /** Parsed business data names the workspace after the company and the user "first last". */
  lemma BusinessNames(userName: Option<string>, parse: string -> Parsed)
    requires Truthy(userName) && IsBusinessData(parse(userName.value))
    ensures var p := parse(userName.value);
      DeriveNames(userName, parse).workspaceName == p.companyName.value
      && DeriveNames(userName, parse).displayName == p.firstName.value + " " + Interpolate(p.lastName)
  {
  }

  /** A non-empty name that is not business data is the display name, and the workspace is named after it. */
  lemma PlainNames(userName: string, parse: string -> Parsed)
    requires userName != "" && !IsBusinessData(parse(userName))
    ensures DeriveNames(Some(userName), parse) == Names(userName, userName + "'s Workspace", None)
  {
  }

  /** No name, or an empty one, keeps the defaults whatever the parser would say. */
  lemma DefaultNames(userName: Option<string>, parse: string -> Parsed)
    requires !Truthy(userName)
    ensures DeriveNames(userName, parse) == Names("User", "My Workspace", None)
  {
  }

  /** Unless the name is business data, the workspace is named exactly as the sign-up callback names it. */
  lemma AgreesWithAuthCallback(userName: Option<string>, parse: string -> Parsed)
    requires !(Truthy(userName) && IsBusinessData(parse(userName.value)))
    ensures DeriveNames(userName, parse).workspaceName == AuthSignup.WorkspaceName(userName)
  {
  }

  /**
   * Never throws: it writes the same rows as the other paths (company name
   * and VAT number from business data), rewrites the display name only for
   * business data, and a failing store call just ends the set-up.
   */
  method HandleUserSignup(db: Database, user: SignupUser, parse: string -> Parsed, fault: ProvisionFault)
    requires db.Valid()
    modifies db
    ensures db.Valid()
    ensures var names := DeriveNames(user.name, parse);
      var slug := Slug.GenerateSlug(names.workspaceName, user.id);
      var k := StepsCompleted(fault);
      var wid := old(db.nextId);
      var business := names.businessData;
      && db.workspaces == old(db.workspaces) + (if k >= 1 then
           [NewWorkspace(wid, names.workspaceName, slug, user.id, user.email,
              Some(if business.Some? then business.value.companyName.value else names.workspaceName),
              if business.Some? then business.value.organizationNumber else None)]
           else [])
      && db.members == old(db.members) + (if k >= 2 then [Member(user.id, wid, Owner)] else [])
      && db.projects == old(db.projects) + (if k >= 3 then [DefaultProject(wid + 1, wid, user.id)] else [])
      && db.nextId == old(db.nextId) + (if k >= 1 then 1 else 0) + (if k >= 3 then 1 else 0)
      && db.userNames == (if business.Some? && k == 4 then old(db.userNames)[user.id := names.displayName]
                          else old(db.userNames))
    ensures db.photos == old(db.photos) && db.edits == old(db.edits)
  {
    var names := DeriveNames(user.name, parse);
    var slug := Slug.GenerateSlug(names.workspaceName, user.id);
    var business := names.businessData;
    var companyName := if business.Some? then business.value.companyName.value else names.workspaceName;
    var vatNumber := if business.Some? then business.value.organizationNumber else None;
    var created := Provision(db, user.id, user.email, names.workspaceName, slug, Some(companyName), vatNumber, fault);
    if created.Success? && business.Some? {
      var _ := UpdateDisplayName(db, user.id, names.displayName, fault);
    }
  }
}
