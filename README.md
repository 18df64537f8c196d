# EstateStudio core, modelled in Dafny

EstateStudio is a Next.js application for real-estate agents. An agent uploads a listing photo and picks or types an instruction in Norwegian. A server route sends the photo to the fal.ai "nano-banana" image-editing model and returns the edited image. Around that are workspaces, projects and an edit history kept in a database.

This project models the parts of that system whose behaviour can be stated exactly, and proves properties of them:

- **Workspace provisioning** (`common.dfy`, `slug.dfy`, `store.dfy`, `provisioning.dfy`, `workspace_actions.dfy`, `user_signup.dfy`, `auth_signup.dfy`).
  - The slug function appears in three identical copies: actions/workspace-actions.ts:138-147, lib/user-signup.ts:131-140 and lib/auth.ts:68-77. It is modelled once, as `Slug.GenerateSlug`, and all three paths call it.
  - Each path writes a workspace, then an OWNER membership, then a default project. Two of them may also rewrite the user's display name. These are sequential writes to an in-memory `Store.Database`, and none of them is in a transaction.
- **The prompt catalog** (`prompts.dfy`). It covers the 16-entry table, the category filter, `combinePrompts` and `enhancePromptForRoom`.
- **The edit route** (`edit_photo_route.dfy`, `fal_client.dfy`, `constants.dfy`).
  - `POST` is an ordered chain of checks. It is a function from the configuration, the parsed body and the outcome of the upstream call to the request sent upstream (if any) and the response. `GET` is the health check.
  - The history view strips the wording the route adds around the user's prompt (`edit_history.dfy`).
- **Validators.** The data-URI test, the API-key test (`fal_client.dfy`) and the upload check (`image_utils.dfy`).
- **The page header** (`site_header.dfy`). It maps a path to a title and breadcrumbs, and the component's props can override both.
- **Server actions on projects and photos** (`project_actions.dfy`, `photo_actions.dfy`, `queries.dfy`).
  - Create, update and archive change the store in place.
  - The two listing queries are functions: filter, sort newest first, take.
  - Deleting an edit removes one row.
- **The route-protection middleware** (`middleware.dfy`).

External effects are inputs:
- a failing database call is a fault parameter naming the call that throws;
- `JSON.parse` is a function parameter;
- the fal.ai call is an abstract outcome;
- the environment is a `Config` value;
- the session lookup is an `Option` or a three-way outcome.

Behaviour of the code worth noting:

- The route checks no session.
- An image that is not a valid data URI gives status 500, not 400.
- Provisioning is not transactional, so the rows written before a failing step stay written.
- Provisioning is not idempotent.
- Slugs are not globally unique. `Slug.SameSuffixSameSlug` shows two different user ids that give the same slug.
- Any `breadcrumbs` prop overrides the derived crumbs, even an empty array, because an array is truthy.

## Model

| member | source | states |
|---|---|---|
| Slug.CollapseRuns | actions/workspace-actions.ts:141 | The result has only `a-z`, `0-9` and `-`, and no "--". Its letters and digits are those of the input, in order. It is empty iff the input is. It starts (ends) with '-' iff the input's first (last) character is outside `[a-z0-9]`. Its value on every string is fixed by `CollapseKeepsWord`, `CollapseRunIsDash` and `CollapseAppend`. |
| Slug.TrimStart | actions/workspace-actions.ts:142 | The result does not start with '-'. It is a suffix of the input, and everything cut off is '-'. |
| Slug.TrimEnd | actions/workspace-actions.ts:142 | The result does not end with '-'. It is a prefix of the input, and everything cut off is '-'. |
| Slug.Suffix | actions/workspace-actions.ts:145 | Has length min(6, \|userId\|), and each character is the lower-cased corresponding character of the id's tail. |
| Slug.CollapseKeepsWord | actions/workspace-actions.ts:141 | A string of `a-z` and `0-9` only passes through the collapse unchanged. |
| Slug.CollapseRunIsDash | actions/workspace-actions.ts:141 | A non-empty run with no character of `[a-z0-9]` collapses to exactly one '-'. |
| Slug.CollapseAppend | actions/workspace-actions.ts:141 | With a letter or digit on either side of a cut, no run crosses it: the collapse of `u + v` is the collapse of `u` followed by that of `v`. With the two lemmas above this fixes the collapse of every string. |
| Slug.TrimKeepsShape | actions/workspace-actions.ts:142 | Trimming dashes from a collapsed string gives a well-formed base with the same letters and digits. |
| Slug.BaseSlug | actions/workspace-actions.ts:139-142 | The base slug holds only `a-z`, `0-9` and '-'. It never starts or ends with '-' and never contains "--". Its letters and digits are exactly those of the lower-cased name, in order. `BaseSlugSeparator` states where its dashes go. |
| Slug.BaseSlugSeparator | actions/workspace-actions.ts:139-142 | Between a letter or digit of the lower-cased name and the next one, the base slug has one '-' iff the name has a separator there, and nothing otherwise: `BaseSlug(u + run + v)` is `BaseSlug(u)`, then '-' if `run` is non-empty, then `BaseSlug(v)`. |
| Slug.BaseSlugOfWord | actions/workspace-actions.ts:139-142 | A name whose lower-cased characters are all letters or digits is only lower-cased. |
| Slug.GenerateSlug | actions/workspace-actions.ts:138-147 | The slug is a well-formed base with the lower-cased name's letters and digits, then '-', then exactly the id's lower-cased last min(6, \|userId\|) characters. Where the base's dashes go is stated by `BaseSlugSeparator`, and `SlugShape` ties the base part to `BaseSlug`. |
| Slug.BaseSlugEmptyIff | actions/workspace-actions.ts:139-142 | The base slug is empty iff the lower-cased name has no ASCII letter or digit. |
| Slug.SlugOfSymbolsOnlyName | actions/workspace-actions.ts:139-146 | A name without ASCII letters or digits gives the slug "-" + suffix. |
| Slug.BaseSlugFixesWellFormed | actions/workspace-actions.ts:139-142 | Normalising an already well-formed base slug leaves it unchanged. |
| Slug.BaseSlugIdempotent | actions/workspace-actions.ts:139-142 | Normalising twice is normalising once. |
| Slug.SlugShape | actions/workspace-actions.ts:145-146 | The slug is the base slug, then '-', then exactly the suffix; its length is \|base\| + 1 + min(6, \|userId\|). The copies at lib/user-signup.ts:138-139 and lib/auth.ts:75-76 are the same function, so this holds for them too. |
| Slug.SlugEqualIff | actions/workspace-actions.ts:138-147 | For ids of at least six characters, two slugs are equal iff their base slugs are equal and their lower-cased suffixes are equal. |
| Slug.SameSuffixSameSlug | actions/workspace-actions.ts:144-146 | Two ids that differ only before their last six characters, or only in the case of those characters, give the same slug for the same name. |
| Store.Database.AddWorkspace | actions/workspace-actions.ts:52-65 | Appends the row under the next id, advances the counter, keeps ids unique and changes no other table. |
| Store.Database.AddMember | actions/workspace-actions.ts:74-80 | Appends the membership and changes nothing else. |
| Store.Database.AddProject | actions/workspace-actions.ts:89-97 | Appends the row under the next id, advances the counter, keeps ids unique and changes no other table. |
| Store.Database.SetUserName | actions/workspace-actions.ts:107-110 | Maps the user id to the new name and changes nothing else. |
| Store.FindById | actions/project-actions.ts:69-80 | Returns the index of a row with the id, or None exactly when no row has it. |
| Store.RemoveAt | actions/photo-actions.ts:145-147 | Deleting one row keeps ids unique. It removes exactly the rows that carry that row's id. |
| Provisioning.StepsCompleted | actions/workspace-actions.ts:49-134 | Counts the writes that complete before the failing one: at most 4, and 4 exactly when nothing fails. |
| Provisioning.Provision | actions/workspace-actions.ts:52-97 | Writes a FREE/10/0 workspace under the next id, then its OWNER membership, then the ACTIVE "My First Project". Rows written before a failing step remain. Succeeds iff all three writes do; a failure carries the error's message. |
| Provisioning.UpdateDisplayName | actions/workspace-actions.ts:105-112 | Writes the display name unless that call fails; no other table changes. |
| WorkspaceActions.DeriveNames | actions/workspace-actions.ts:29-39 | With business data: the company name and "first last". Otherwise a non-empty user name gives name + "'s Workspace". Otherwise "User" and "My Workspace". |
| WorkspaceActions.CreateWorkspaceForUser | actions/workspace-actions.ts:8-135 | Without a session user it fails with "No authenticated user found" and leaves the store unchanged. A throwing session lookup fails with its own message, unprefixed, and also leaves the store unchanged. Otherwise it gives the exact new rows, and the id counter advances by one per workspace or project row written. The company name is the business company name, or else the workspace name. The VAT number is set only with business data, and the display name is rewritten only with business data. The result is the workspace summary, or the error prefixed "Failed to create workspace: ". |
| WorkspaceActions.NamesWithoutBusinessData | actions/workspace-actions.ts:36-39 | Without business data the workspace name is the one the sign-up callback chooses. |
| UserSignup.DeriveNames | lib/user-signup.ts:21-42 | Business data is recorded exactly when the name is non-empty and parses to an object with truthy `firstName` and `companyName`. |
| UserSignup.BusinessNames | lib/user-signup.ts:25-32 | Business data gives workspace name = companyName and display name = firstName + " " + lastName. |
| UserSignup.PlainNames | lib/user-signup.ts:33-41 | A non-empty name that does not parse, or parses to the wrong shape, is the display name, and the workspace is name + "'s Workspace". |
| UserSignup.DefaultNames | lib/user-signup.ts:21-25 | An absent or empty name keeps "User" and "My Workspace". |
| UserSignup.AgreesWithAuthCallback | lib/user-signup.ts:37-41 | Without business data, the workspace name equals the sign-up callback's. |
| UserSignup.HandleUserSignup | lib/user-signup.ts:6-128 | Throws nothing. Writes the same rows as the other paths: company name from the business data or else the workspace name, VAT number only from business data. The display name is rewritten only for business data and only if every write succeeds. A failing write ends the set-up and leaves the earlier rows. The id counter advances by one per workspace or project row written. |
| AuthSignup.WorkspaceName | lib/auth.ts:21 | name + "'s Workspace" for a non-empty name, otherwise "My Workspace". |
| AuthSignup.OnSignUp | lib/auth.ts:19-63 | Writes the workspace with no company name and no VAT number, then OWNER, then the default project. A failure is swallowed; user names never change. The id counter advances by one per workspace or project row written. |
| Prompts.FilterByCategoryMembers | lib/prompts.ts:117-119 | The filter keeps exactly the entries of the given category. |
| Prompts.GetPromptsByCategory | lib/prompts.ts:117-119 | An entry is in a category's list iff it has that category; every entry of the table is in the catalog, so none is missed. |
| Prompts.CategoryListsPermuteCatalog | lib/prompts.ts:117-119 | The five category lists together are a permutation of the catalog. |
| Prompts.CatalogFilterIsGroup | lib/prompts.ts:9-119 | Each category's list is exactly its commented group of the catalog, in catalog order. |
| Prompts.CategoryListsPermuteTable | lib/prompts.ts:117-119 | For any table, concatenating its five category filters is a permutation of it, so every entry is in exactly one list. |
| Prompts.FilterAppend | lib/prompts.ts:118 | Filtering distributes over concatenation, so the catalog order is kept. |
| Prompts.StagingList | lib/prompts.ts:10-34 | The staging list is the four staging entries in catalog order. |
| Prompts.LightingList | lib/prompts.ts:36-54 | The lighting list is the three lighting entries in catalog order. |
| Prompts.DeclutterList | lib/prompts.ts:56-74 | The declutter list is the three declutter entries in catalog order. |
| Prompts.ExteriorList | lib/prompts.ts:76-94 | The exterior list is the three exterior entries in catalog order. |
| Prompts.RepairList | lib/prompts.ts:96-114 | The repair list is the three repair entries in catalog order. |
| Prompts.CatalogSizes | lib/prompts.ts:9-115 | The catalog has 16 entries: 4 staging and 3 each for lighting, declutter, exterior and repair. |
| Prompts.IdInjective | lib/prompts.ts:11-113 | Two entries have the same id iff they are the same entry. |
| Prompts.CatalogIdsDistinct | lib/prompts.ts:11-113 | The catalog's ids are pairwise distinct. |
| Prompts.NonEmptyIsEmptyIff | lib/prompts.ts:122 | `filter(Boolean)` leaves nothing iff every argument is empty. |
| Prompts.CombinePrompts | lib/prompts.ts:121-123 | The combined prompt is empty iff every argument is empty. |
| Prompts.CombineSingle | lib/prompts.ts:121-123 | A single non-empty prompt comes back unchanged. |
| Prompts.CombineAppend | lib/prompts.ts:121-123 | Combining two argument lists is combining each and joining with ". " when both have non-empty parts. |
| Prompts.ParseRoom | lib/prompts.ts:126-136 | A room type is recognised iff it is one of the seven keys. |
| Prompts.EnhancePromptForRoom | lib/prompts.ts:125-141 | The prompt is always a prefix of the result, and the result is longer iff the room type is one of the seven keys. |
| Prompts.EnhanceCases | lib/prompts.ts:125-141 | An absent, empty or unknown room type leaves the prompt unchanged. A known one appends ", " and exactly its enhancement. |
| FalClient.IsValidBase64DataUri | lib/fal-client.ts:23-26 | Holds iff the lower-cased string starts with "data:image/" + one of jpeg, jpg, png, webp + ";base64,". |
| FalClient.AcceptsAnySuffix | lib/fal-client.ts:24 | Only the prefix is checked; any suffix, even the empty one, is accepted. |
| FalClient.AcceptsUpperCase | lib/fal-client.ts:24 | The match ignores case: "DATA:IMAGE/PNG;BASE64," is accepted. |
| FalClient.RejectsGifAndSvg | lib/fal-client.ts:24 | GIF and SVG data URIs are rejected whatever follows. |
| FalClient.RejectsAtEleven | lib/fal-client.ts:24 | A string whose twelfth character is 'g' or 's' is rejected. |
| FalClient.FormatLetter | lib/fal-client.ts:24 | An accepted string's format starts with j, p or w. |
| FalClient.AnchoredAtStart | lib/fal-client.ts:24 | An accepted string starts with 'd' or 'D', so the prefix is never found later in the string. |
| FalClient.GetFalModel | lib/fal-client.ts:5-15 | Fails with the missing-key message iff the key is absent or empty; otherwise yields the model with that key. |
| FalClient.ValidateApiKey | lib/fal-client.ts:18-20 | The key is valid iff it is set and non-empty. |
| FalClient.ApiKeyCases | lib/fal-client.ts:5-15 | The model factory fails for a missing key and for the empty key, and for nothing else. |
| ImageUtils.ValidateImageFile | lib/image-utils.ts:21-40 | Valid iff the type is one of the four and the size is at most 10·1024·1024. The error is present iff invalid. The type error takes precedence; otherwise the size error is reported. |
| ImageUtils.SizeBoundary | lib/image-utils.ts:32 | 10485760 bytes are accepted; 10485761 are rejected. |
| ImageUtils.TypeIsCaseSensitive | lib/image-utils.ts:25 | "IMAGE/PNG" is rejected with the type error. |
| EditPhotoRoute.Compose | app/api/edit-photo/route.ts:61 | The instruction is the fixed preamble, then the user's prompt, then the fixed postamble; the prompt is exactly the middle part. |
| EditPhotoRoute.Post | app/api/edit-photo/route.ts:27-130 | The status is 200, 400 or 500, and 200 iff an edited image is returned. An upstream request carries exactly the body's image. |
| EditPhotoRoute.NoKeyFirst | app/api/edit-photo/route.ts:30-38 | Without a key the answer is the same 500 whatever the body and the upstream, and nothing is sent. |
| EditPhotoRoute.UnparseableBody | app/api/edit-photo/route.ts:120-129 | With a key, a body that does not parse gives "Internal server error. Please try again." with 500, and nothing is sent. |
| EditPhotoRoute.MissingFields | app/api/edit-photo/route.ts:44-52 | With a key, a missing or empty image or prompt gives the 400, and nothing is sent. |
| EditPhotoRoute.BadRequestIff | app/api/edit-photo/route.ts:43-52 | A 400 happens exactly for a missing field after the key check. |
| EditPhotoRoute.InvalidImage | app/api/edit-photo/route.ts:55-58 | An image that is not a valid data URI gives a 500 with the format message, and the upstream is never called. |
| EditPhotoRoute.CalledIff | app/api/edit-photo/route.ts:54-80 | The upstream is called iff the key, both fields and the data URI pass. The request then carries the composed prompt, the image, the configured count and format, and sync mode. |
| EditPhotoRoute.UpstreamFailures | app/api/edit-photo/route.ts:82-92 | A non-ok status, an empty image list or a thrown error gives a 500 with the matching message. |
| Common.NatToString | app/api/edit-photo/route.ts:85 | The status is printed as decimal digits, with no leading zero except for the number 0 itself. |
| Common.NatToStringValue | app/api/edit-photo/route.ts:85 | The printed digits denote exactly the status, so the upstream error message names the real status. |
| EditPhotoRoute.SuccessIff | app/api/edit-photo/route.ts:94-109 | A 200 happens iff the upstream was called and returned at least one image. The payload is then the first image with its size, the composed prompt, the model name, the format and the cost per image. |
| EditPhotoRoute.Get | app/api/edit-photo/route.ts:133-142 | Reports the key as configured iff it is set and non-empty, together with the model name and the cost per image. |
| EditPhotoRoute.HealthAgreesWithPost | app/api/edit-photo/route.ts:138 | The health check reports no key exactly when `POST` stops at its first check. |
| Common.RemoveFirst | components/EditHistoryDB.tsx:86 | With an occurrence the result is exactly one pattern shorter; without one the string is unchanged. |
| EditHistory.StripAsWritten | components/EditHistoryDB.tsx:86 | The display text is at most as long as the stored text and loses at most the two pattern lengths; stored text holding neither pattern is shown unchanged. |
| EditHistory.StripComposed | components/EditHistoryDB.tsx:86 | Never longer than the stored text; a stored text that starts with the preamble and ends with the postamble is exactly the composition of the result. |
| EditHistory.StripAsWrittenRoundTrip | components/EditHistoryDB.tsx:86 | The history view's stripping recovers the prompt when the postamble occurs in prompt + postamble only at the end. |
| EditHistory.StripAsWrittenLosesPrompt | components/EditHistoryDB.tsx:86 | For a prompt that starts with the postamble, the stripping as written returns a different string than the prompt. |
| EditHistory.StripComposedRoundTrip | components/EditHistoryDB.tsx:86 | The anchored stripping recovers every prompt. |
| EditHistory.StripComposedAgrees | components/EditHistoryDB.tsx:86 | Wherever the stripping as written is right, the anchored one gives the same text. |
| SiteHeader.StripTrailingSlash | components/site-header.tsx:18 | At most one trailing '/' is removed. |
| SiteHeader.Split | components/site-header.tsx:19 | Splitting on '/' gives at least one piece, and no piece contains '/'. |
| SiteHeader.Segments | components/site-header.tsx:19 | The segments are non-empty and contain no '/'. |
| SiteHeader.TrailingSlashIrrelevant | components/site-header.tsx:18-19 | Removing the trailing slash does not change the segments. |
| SiteHeader.SegmentsOfPath | components/site-header.tsx:19 | A path built from non-empty, slash-free segments splits back into exactly those segments. |
| SiteHeader.TitleForSegments | components/site-header.tsx:21-87 | Every breadcrumb list starts at {Oversikt, /dashboard} and ends with the title without a link. The title is one of the eight fixed titles, and breadcrumbs are missing exactly for "Oversikt" and "Dashboard". |
| SiteHeader.GetPageTitle | components/site-header.tsx:16-88 | Every breadcrumb list starts at {Oversikt, /dashboard} and ends with the title without a link. The title is one of the eight fixed titles. |
| SiteHeader.OnlySegmentsDecide | components/site-header.tsx:18-21 | The page depends only on the segments; the "/dashboard" test is subsumed by the one-segment test. |
| SiteHeader.TitleOfPath | components/site-header.tsx:16-88 | For any segments, with or without a trailing slash, the page is the dispatch on those segments. |
| SiteHeader.FirstSegmentIgnored | components/site-header.tsx:21-84 | The first segment is never inspected: "/foo/projects" is titled like "/dashboard/projects". |
| SiteHeader.RootIsDashboard | components/site-header.tsx:86-87 | "/" and "" fall through to "Dashboard" without breadcrumbs. |
| SiteHeader.SingleSegment | components/site-header.tsx:21-23 | Every one-segment path, "/dashboard" among them, is "Oversikt" without breadcrumbs. |
| SiteHeader.EditorPages | components/site-header.tsx:25-44 | Under "editor", 2 segments give "Rediger nytt bilde" with 2 crumbs and 3 give "Rediger eiendom" with 3 crumbs. 4 or more fall through to "Dashboard". |
| SiteHeader.SectionPages | components/site-header.tsx:46-84 | projects, history, settings and help give their fixed title with two crumbs. |
| SiteHeader.DisplayTitle | components/site-header.tsx:99 | A non-empty title prop wins; otherwise the derived title is shown. |
| SiteHeader.DisplayBreadcrumbs | components/site-header.tsx:100 | Any breadcrumbs prop wins, even an empty one; otherwise the derived crumbs are shown. |
| Middleware.Decide | middleware.ts:5-42 | The session is checked iff the path is protected. The request passes iff the path is unprotected or a session is present. A redirect carries the original path as `from`. |
| Middleware.IsProtectedPath | middleware.ts:7-12 | A path is protected iff it starts with "/dashboard". |
| Middleware.ProtectedExamples | middleware.ts:7-12 | The test is a bare prefix test: "/dashboardX" is protected, "/dash" is not. |
| Middleware.UnprotectedPasses | middleware.ts:14-41 | An unprotected path passes without a session check, whatever the session would be. |
| Middleware.FailClosed | middleware.ts:27-38 | A missing session and a failed lookup redirect alike, back to the same path. |
| ProjectActions.CreateProject | actions/project-actions.ts:7-51 | No session gives "Unauthorized". A non-member gets "Access denied" and nothing is created. A failing lookup, or a failing write by a member, gives "Failed to create project". Success iff a member and no store error; it appends exactly one ACTIVE project with the given fields, created by the caller. |
| ProjectActions.Updated | actions/project-actions.ts:86-92 | The name changes only to a non-empty given name. The description changes whenever one is supplied, even "". No other field changes. |
| ProjectActions.UpdateProject | actions/project-actions.ts:53-100 | Succeeds iff the caller is a member, of any role, of the project's workspace and no store error occurs. A missing project or non-member gets "Project not found or access denied"; a failing lookup, or a failing write with access, gets "Failed to update project". It replaces that one row in place, and changes nothing otherwise. |
| ProjectActions.ArchivedRow | actions/project-actions.ts:128-133 | Sets status ARCHIVED and keeps every other field. |
| ProjectActions.ArchiveIdempotent | actions/project-actions.ts:128-133 | Archiving twice is archiving once, and an archived project is unchanged. |
| ProjectActions.ArchiveAccessImpliesUpdateAccess | actions/project-actions.ts:110-122 | Whoever may archive a project may also update it. |
| ProjectActions.ArchiveProject | actions/project-actions.ts:102-141 | Succeeds iff the caller is OWNER or ADMIN of the project's workspace and no store error occurs. Otherwise "Project not found or insufficient permissions", or "Failed to archive project" for a failing lookup or a failing write with access. It archives that row in place, never removes a row, and changes nothing otherwise. |
| Queries.SortDescCorrect | actions/photo-actions.ts:49-51 | Sorting yields a newest-first permutation. |
| Queries.TakeOfSorted | actions/photo-actions.ts:52 | Taking from a sorted list keeps it sorted. What is taken is no older than what is left, and a short list is taken whole. |
| Queries.Latest | actions/photo-actions.ts:49-52 | Returns min(n, \|s\|) elements of the input, newest first, and no element more often than the input holds it. Everything left out is no newer than anything kept, and an input of at most n is kept whole. |
| Queries.LatestKeepsOrOutranks | actions/photo-actions.ts:49-52 | An element is either kept or older than everything kept, and is kept whenever the input fits. |
| PhotoActions.PhotoOf | actions/photo-actions.ts:28-30 | Finds a photo with the given id, or reports that none has it. |
| PhotoActions.EditsInScope | actions/photo-actions.ts:27-35 | Every candidate is an edit whose photo exists and is in the workspace, and in the project when one is given. |
| PhotoActions.EditsInScopeComplete | actions/photo-actions.ts:27-35 | Every edit whose photo is in scope is a candidate. |
| PhotoActions.GetProjectEdits | actions/photo-actions.ts:6-60 | No session gives "Unauthorized" and a non-member "Access denied". Data comes back iff a member and no store error: exactly min(50, edits in scope) edits, newest first, each with its photo, none repeated beyond its count in scope. |
| PhotoActions.ProjectEditsComplete | actions/photo-actions.ts:49-52 | An edit in scope that is not returned is no newer than any returned edit, and with at most 50 in scope all are returned. |
| PhotoActions.LatestEditOf | actions/photo-actions.ts:90-96 | At most one edit is carried, and it is one of the photo's own edits. |
| PhotoActions.LatestEditIsLatest | actions/photo-actions.ts:90-96 | A photo carries at most one edit. That edit is one of its own and no newer edit exists; none is carried iff the photo has no edits. |
| PhotoActions.GetWorkspacePhotos | actions/photo-actions.ts:62-115 | The same access rules. Data is exactly min(100, photos in scope) photos, newest first, each carrying its latest edit, none repeated beyond its count in scope. |
| PhotoActions.WorkspacePhotosComplete | actions/photo-actions.ts:83-107 | A photo in scope that is not returned is no newer than any returned photo, and with at most 100 in scope all are returned, each with its latest edit. |
| PhotoActions.NewestPhotos | actions/photo-actions.ts:83-108 | Exactly min(100, photos in scope) photos, newest first, each with its latest edit. They are exactly the selected photos, in the same order, so none is repeated beyond its count in scope. |
| PhotoActions.ScopedPhotos | actions/photo-actions.ts:83-89 | A photo is in the list iff it is in the table, in the workspace, and in the project when one is given. |
| PhotoActions.NewestPhotosKeepSmallScope | actions/photo-actions.ts:83-107 | With at most 100 photos in scope, every photo in scope is listed with its latest edit. |
| PhotoActions.NewestPhotosLeaveOutOlder | actions/photo-actions.ts:83-107 | A photo in scope that is not listed is no newer than any listed photo. |
| PhotoActions.PhotosInScope | actions/photo-actions.ts:83-107 | Exactly min(100, photos in scope) photos from the table, all in scope, newest first, none repeated beyond its count in scope. A photo in scope that is left out is no newer than any kept one. With at most 100 in scope, the result is a permutation of all of them. |
| PhotoActions.CanDelete | actions/photo-actions.ts:125-139 | Deletion rights require that an edit with that id exists and that the caller holds OWNER, ADMIN or EDITOR in some workspace. |
| PhotoActions.CanDeleteFound | actions/photo-actions.ts:125-139 | With unique edit ids, deletion rights for an existing edit depend only on the caller's role in the workspace of that edit's photo. |
| PhotoActions.ViewerListsButCannotDelete | actions/photo-actions.ts:133 | A member whose only role in the workspace is VIEWER may list its edits but may delete none of them. |
| PhotoActions.DeletePhotoEdit | actions/photo-actions.ts:117-154 | Succeeds iff the caller is OWNER, ADMIN or EDITOR of the workspace of the edit's photo, and no store error occurs. Without the right it gets "Edit not found or insufficient permissions"; a failing lookup, or a failing write with the right, gets "Failed to delete edit". It removes exactly that edit; every other edit and every other table is untouched. Otherwise nothing changes. |

## Left out

- Unicode: `toLowerCase` is modelled on ASCII letters only. The case-insensitive regex test (no `u` flag) ignores ASCII case only, so there it is exact.
- JSON values: a parsed sign-up name or request body may hold non-string values in the fields read. Only absent, string or unparseable values are modelled.
- Sessions: in the project and photo actions, `getSession` is called inside the `try`, so a throwing call is folded into the action's first fault. In `createWorkspaceForUser` it is called before the `try`, and the model gives it its own outcome. The session itself is an input.
- `from` parameter: the URL encoding of the `from` query parameter and the sign-in URL are left out; the redirect carries the raw path.
- Environment: `NUM_OUTPUT_IMAGES` and `OUTPUT_FORMAT` are read as already parsed configuration values. `parseInt` is not modelled.
- Timestamps: the health check's timestamp and the creation times written by the database are not modelled. Creation times are inputs on photos and edits.
- Floating point: the cost per image is an opaque real constant; `resizeImage` and cost formatting are not modelled.
- ProjectActions.CreateProject: the ACTIVE status comes from the database schema's default, which is not part of this model. It is written explicitly.
- PhotoActions.GetWorkspacePhotos: the `project` relation included with each photo (its id and name) is not returned.
- Room types: the JavaScript prototype keys, such as `roomEnhancements["toString"]`, are not modelled; exactly the seven listed keys are recognised.
- Project filter: an empty-string `projectId` is falsy and is modelled as an absent one.
- Display name: updating a user row that does not exist is not modelled; user names are a map.
- Roles: roles other than OWNER, ADMIN, EDITOR and VIEWER are not modelled.
- Sorting: the database's order among equal timestamps is unspecified. The model uses one particular stable order, and the properties hold for it.
- Unique constraints: the database's unique constraints on slug and on (user, workspace) are not modelled, nor are cascades.
- Cache and logs: `revalidatePath` and all logging have no observable effect here and are left out.
- Client code: the React views, the client-side quota check, `getFalModel`'s client construction, `betterAuth` configuration and the middleware matcher are not part of this model.

## Findings

| source | as written | input that shows it | evidently intended | confidence | as-written member | corrected member |
|---|---|---|---|---|---|---|
| components/EditHistoryDB.tsx:86 | The stored instruction is shown after deleting the first occurrence of the preamble and then the first occurrence of the postamble. | A prompt that starts with the postamble text followed by "x": the first match of the postamble is inside the prompt, so the view shows "x" + postamble. | Show the prompt the user typed, i.e. undo exactly the wrapping added at app/api/edit-photo/route.ts:61. | low (the prompt must contain the long postamble sentence); not executed | EditHistory.StripAsWrittenLosesPrompt | EditHistory.StripComposedRoundTrip |
