# minijobs-connect, modelled in Dafny

minijobs-connect is a marketplace for small jobs. Clients publish jobs, workers apply to them, and administrators moderate users, roles, jobs and applications. The application is a set of React views over one hosted Postgres store. This project models what those views compute and what they write. It has four layers.

- **Entities** (`schema.dfy`):
  - the rows of `jobs`, `job_applications`, `profiles` and `user_roles`;
  - the five enumerations with their value lists and key round trips;
  - the insert and update shapes, and what a partial update does to a row.
- **The store** (`store.dfy`): the four tables are a value of maps keyed by id.
  - Each write is a pure function that takes an optional injected fault and returns the new tables and the error.
  - The store refuses an application to a missing job (23503, foreign_key_violation) and a second application by the same worker to the same job (23505, unique_violation). A job delete while applications still refer to the job is assumed to be refused (23503), not cascaded: the generated types do not show the foreign key's `ON DELETE` action.
  - At most one profile per `user_id` is likewise assumed (`Store.OneProfilePerUser`, part of `Valid`). The generated types show no unique constraint on that column, but the profile page reads a user's profile with `maybeSingle()` (src/pages/dashboard/Profile.tsx:55), which relies on it.
  - `Store.Database` is the client. It is a class whose methods apply those writes to its `tables` field.
  - The answer to a read is a parameter. A ghost predicate states what a truthful store may answer to that query, including its order.
- **Shared rules**:
  - `text.dfy`: lower-casing, substring search, and the `"" ↔ null` column conventions;
  - `lists.dfy`: filtering, de-duplication and `Map` construction;
  - `navigation.dfy`: sidebar highlighting.
- **The views**: one module per page or dialog. A view's React state is a class. Its handlers are methods that write through the `Database` and replace the local copy. Each method is tied to a pure function, and to an invariant saying the local copy mirrors the store.

## Model

| member | source | states |
|---|---|---|
| Schema.AccountStatusValuesMatchEnum | src/integrations/supabase/types.ts:378 | the `account_status` constant array has three distinct entries, each the key of the enumeration value at its position, so the array and the union list the same values |
| Schema.AccountStatusKeyRoundTrip | src/integrations/supabase/types.ts:186 | parsing an account status's key gives back that status |
| Schema.AccountStatusAtOrdinal | src/integrations/supabase/types.ts:378 | the account status at a position of the value list has that position |
| Schema.AppRoleValuesMatchEnum | src/integrations/supabase/types.ts:379 | the `app_role` array has exactly the two distinct keys `admin` and `user`, in the order the union gives them |
| Schema.AppRoleKeyRoundTrip | src/integrations/supabase/types.ts:187 | parsing a role's key gives back that role |
| Schema.AppRoleAtOrdinal | src/integrations/supabase/types.ts:379 | the role at a position of the value list has that position |
| Schema.JobCategoryValuesMatchEnum | src/integrations/supabase/types.ts:380-389 | the `job_category` array has exactly 8 distinct entries, one per category, each the category's key |
| Schema.JobCategoryKeyRoundTrip | src/integrations/supabase/types.ts:188-196 | parsing a category's key gives back that category |
| Schema.JobCategoryAtOrdinal | src/integrations/supabase/types.ts:380-389 | the category at a position of the value list has that position |
| Schema.JobStatusValuesMatchEnum | src/integrations/supabase/types.ts:390 | the `job_status` array has exactly 5 distinct entries: open, assigned, approved, completed, cancelled |
| Schema.JobStatusKeyRoundTrip | src/integrations/supabase/types.ts:197 | parsing a job status's key gives back that status |
| Schema.JobStatusAtOrdinal | src/integrations/supabase/types.ts:390 | the job status at a position of the value list has that position |
| Schema.ProvinceValuesMatchEnum | src/integrations/supabase/types.ts:391-444 | the `province` array has exactly 52 distinct entries, one per province, each the province's key |
| Schema.ProvinceKeyRoundTrip | src/integrations/supabase/types.ts:198-250 | parsing a province's key gives back that province |
| Schema.ProvinceAtOrdinal | src/integrations/supabase/types.ts:391-444 | the province at a position of the value list has that position |
| Schema.PatchJob | src/integrations/supabase/types.ts:81-95 | a job update never changes the id, the publisher or the creation time, and sets the status exactly when the update carries one |
| Schema.StatusPatchOnlyStatus | src/integrations/supabase/types.ts:81-95 | an update carrying only a status changes the status and nothing else |
| Schema.PatchProfile | src/integrations/supabase/types.ts:132-149 | a profile update never changes the id, the user or the creation time, and leaves the email alone when it does not carry one |
| Schema.AccountStatusPatchOnlyStatus | src/integrations/supabase/types.ts:132-149 | an update carrying only an account status changes that column and nothing else |
| Store.NewJob | src/integrations/supabase/types.ts:67-80 | an inserted job carries the insert's required columns; an absent status becomes `open`, and an absent assignee or estimated date becomes null |
| Store.InsertJobKeepsValid | src/integrations/supabase/types.ts:67-80 | a job insert keeps the store's constraints, and a failed insert changes nothing |
| Store.UpdateJobKeepsValid | src/integrations/supabase/types.ts:81-95 | a job update keeps the constraints and the set of job ids |
| Store.DeleteJobKeepsValid | src/integrations/supabase/types.ts:42-49 | a job delete keeps every application's `job_id` pointing at a stored job, and a delete carried out removes the job |
| Store.DeleteApplicationsKeepsValid | src/integrations/supabase/types.ts:42-49 | deleting a job's applications keeps the constraints and, when carried out, leaves no application referring to the job |
| Store.InsertApplicationKeepsValid | src/integrations/supabase/types.ts:26-33 | an application insert keeps the foreign key and the one-application-per-worker-and-job constraint |
| Store.UpdateApplicationStatusKeepsValid | src/integrations/supabase/types.ts:34-41 | an application status update keeps the constraints |
| Store.UpdateProfilesKeepsValid | src/integrations/supabase/types.ts:132-149 | a profile update keeps the constraints and the set of profile ids |
| Store.InsertRoleKeepsValid | src/integrations/supabase/types.ts:151-170 | a role insert keeps the constraints |
| Store.DeleteRolesKeepsValid | src/integrations/supabase/types.ts:151-170 | a role delete keeps the constraints |
| Store.DuplicateApplicationRefused | src/pages/JobDetail.tsx:123 | an application to a stored job is refused with 23505 exactly when the same worker already applied to it; either way the pair is stored afterwards |
| Store.ReferencedJobNotDeleted | src/integrations/supabase/types.ts:42-49 | a job some application refers to is not deleted: the store answers 23503 and changes nothing |
| Store.DeleteAfterApplicationsSucceeds | src/pages/admin/AdminJobs.tsx:134-146 | once a job's applications are deleted, deleting the job fails only by an injected fault |
| Store.FreshKey | src/integrations/supabase/types.ts:29 | the id the store generates for a new row is not in use |
| Store.FetchedProfiles | src/pages/admin/AdminJobs.tsx:77-80 | a truthful answer to a `user_id in (...)` read holds exactly the stored profiles of the listed users |
| Store.ProfilesByUserFinds | src/pages/admin/AdminJobs.tsx:82-84 | the map built from that answer has a user exactly when the user has a stored profile, and then maps the user to it |
| Store.Database.InsertJob | src/pages/CreateJob.tsx:72-81 | the client's insert applies the store's insert under a fresh id and keeps the constraints |
| Store.Database.UpdateJob | src/pages/admin/AdminJobs.tsx:102-105 | the client's update applies the store's update by id and keeps the constraints |
| Store.Database.DeleteJob | src/pages/admin/AdminJobs.tsx:141-144 | the client's delete applies the store's job delete and keeps the constraints |
| Store.Database.DeleteApplicationsOf | src/pages/admin/AdminJobs.tsx:135-138 | the client's delete removes the job's applications through the store and keeps the constraints |
| Store.Database.InsertApplication | src/pages/JobDetail.tsx:110-116 | the client's insert applies the store's application insert under a fresh id and keeps the constraints |
| Store.Database.UpdateApplicationStatus | src/components/admin/ViewApplicationsDialog.tsx:88-91 | the client's update applies the store's status update and keeps the constraints |
| Store.Database.UpdateProfiles | src/pages/dashboard/Profile.tsx:101-104 | the client's update applies the store's profile update to the rows the key selects and keeps the constraints |
| Store.Database.InsertRole | src/components/admin/ManageRolesDialog.tsx:63-65 | the client's insert applies the store's role insert under a fresh id and keeps the constraints |
| Store.Database.DeleteRoles | src/components/admin/ManageRolesDialog.tsx:71-75 | the client's delete applies the store's role delete and keeps the constraints |
| Text.LowerChar | src/pages/admin/AdminJobs.tsx:160 | a lowered character is never upper case; a capital moves to its lower-case letter, and any other character is kept |
| Text.ToLower | src/pages/admin/AdminJobs.tsx:160 | `toLowerCase` keeps the length and lowers each character in place |
| Text.ToLowerIdempotent | src/pages/admin/AdminJobs.tsx:160 | lowering twice is lowering once |
| Text.IncludesIffOccurs | src/pages/admin/AdminJobs.tsx:160 | `includes` holds exactly when the needle occurs at some position of the text |
| Text.IncludesEmpty | src/pages/admin/AdminUsers.tsx:112-118 | every text includes the empty search |
| Text.IncludesSelf | src/pages/admin/AdminUsers.tsx:113-117 | every text includes itself |
| Text.OrNull | src/pages/JobDetail.tsx:115 | `s \|\| null` is null exactly for the empty string and otherwise the string |
| Text.OrEmpty | src/pages/dashboard/Profile.tsx:60-71 | `v \|\| ""` is the empty string for null and otherwise the value |
| Text.OrEmptyOrNull | src/pages/dashboard/Profile.tsx:60-92 | a field typed in the form comes back unchanged after `\|\| null` and then `\|\| ""` |
| Text.OrNullOrEmpty | src/pages/dashboard/Profile.tsx:60-92 | a stored column survives `\|\| ""` and then `\|\| null` exactly when it is not the empty string |
| AdminJobs.PublisherIds | src/pages/admin/AdminJobs.tsx:76 | every job's publisher is among the ids, every id is some job's publisher, and each id appears once |
| AdminJobs.Attach | src/pages/admin/AdminJobs.tsx:86-90 | each job keeps its place and carries a publisher exactly when the profile map has its publisher |
| AdminJobs.FetchMirrorsStore | src/pages/admin/AdminJobs.tsx:68-71 | after a truthful read of all jobs, the list holds every stored job, each as stored |
| AdminJobs.FetchNamesPublishers | src/pages/admin/AdminJobs.tsx:76-90 | when the profile read succeeded, each job carries its publisher's stored name, or none when the publisher has no profile |
| AdminJobs.WithStatus | src/pages/admin/AdminJobs.tsx:109-111 | the job with the given id gets the new status; every other job and every other field is unchanged |
| AdminJobs.StatusChangeKeepsMirror | src/pages/admin/AdminJobs.tsx:102-111 | a status write the store accepted, followed by the local rewrite, keeps the list mirroring the store |
| AdminJobs.Without | src/pages/admin/AdminJobs.tsx:148 | the list keeps exactly the jobs whose id differs from the deleted one |
| AdminJobs.WithoutKeepsOrder | src/pages/admin/AdminJobs.tsx:148 | the remaining jobs stay in their order |
| AdminJobs.DeleteOutcome | src/pages/admin/AdminJobs.tsx:134-146 | the two-step delete succeeds exactly when the job delete is not faulted and the application delete either succeeded or had nothing to delete; on success exactly that job leaves the store |
| AdminJobs.DeleteKeepsMirror | src/pages/admin/AdminJobs.tsx:148 | removing the deleted job from a mirroring list keeps it mirroring the store without that job |
| AdminJobs.FilteredJobs | src/pages/admin/AdminJobs.tsx:159-164 | a job is shown exactly when it is in the list and passes the search, status and category tests |
| AdminJobs.FilteredJobsMeaning | src/pages/admin/AdminJobs.tsx:159-164 | a job is shown exactly when its lowered title contains the lowered query, its status key equals the status filter or that is `all`, and likewise for its category |
| AdminJobs.NoFilterShowsAll | src/pages/admin/AdminJobs.tsx:49-51 | with an empty search and both filters at `all`, every job is shown, in order |
| AdminJobs.AdminJobsPage.constructor | src/pages/admin/AdminJobs.tsx:47-60 | the page starts loading, with no jobs, an empty search, both filters at `all` and no delete pending |
| AdminJobs.AdminJobsPage.FetchJobs | src/pages/admin/AdminJobs.tsx:66-98 | a failed job read keeps the list; otherwise the list is the stored jobs newest first, each with its publisher's name when the profile read succeeded; loading ends on every path |
| AdminJobs.AdminJobsPage.ChangeStatus | src/pages/admin/AdminJobs.tsx:100-117 | the status update is written; the list changes only on success and only in the targeted job; a list that mirrored the store still does |
| AdminJobs.AdminJobsPage.RequestDelete | src/pages/admin/AdminJobs.tsx:315-316 | the row's delete button records the job and opens the confirmation |
| AdminJobs.AdminJobsPage.ConfirmDelete | src/pages/admin/AdminJobs.tsx:130-157 | with nothing pending, nothing changes; otherwise the applications and then the job are deleted, the job leaves the list only if its delete succeeded, and the dialog closes and forgets the job on every path |
| JobDetail.OpenJobShowsOneBlock | src/pages/JobDetail.tsx:160-281 | on an open job exactly one block shows: the sign-up prompt for a visitor, the owner note for the publisher, the apply panel for any other signed-in user |
| JobDetail.ClosedJobOffersNothing | src/pages/JobDetail.tsx:213-263 | on a job that is not open there is neither an apply panel nor a sign-up prompt |
| JobDetail.AppliedHidesForm | src/pages/JobDetail.tsx:219-246 | once the user has applied, the apply form is not shown |
| JobDetail.PublisherOf | src/pages/JobDetail.tsx:64-73 | the job carries a publisher name exactly when the profile read succeeded and found a row, and then it is that row's name |
| JobDetail.ApplicationFor | src/pages/JobDetail.tsx:112-116 | the insert names the job and the user, and its message is null exactly when the typed message is empty |
| JobDetail.ApplyToExistingJob | src/pages/JobDetail.tsx:110-128 | applying to a stored job without a fault always marks the job applied, leaves the application stored, and fails exactly when the user had already applied (23505) |
| JobDetail.ApplyToMissingJob | src/pages/JobDetail.tsx:118-128 | applying to a job that is not stored is refused with 23503, changes nothing and does not mark the job applied |
| JobDetail.JobDetailPage.constructor | src/pages/JobDetail.tsx:37-41 | the page starts loading, with no job, not applying, not applied and an empty message |
| JobDetail.JobDetailPage.FetchJob | src/pages/JobDetail.tsx:52-81 | a found job is shown as stored, with its publisher's name exactly when the profile read succeeded and the publisher has a profile; otherwise the job is kept (null renders "not found"); loading ends |
| JobDetail.JobDetailPage.CheckApplication | src/pages/JobDetail.tsx:83-100 | the flag becomes true when a row is found without error and is never reset; a true flag stays backed by a stored application |
| JobDetail.JobDetailPage.EditMessage | src/pages/JobDetail.tsx:228-229 | typing replaces the message |
| JobDetail.JobDetailPage.Apply | src/pages/JobDetail.tsx:102-132 | a visitor is sent to `/auth` and nothing is written; otherwise the application is inserted, the flag becomes true on success or 23505 and is otherwise kept, and `applying` ends false on every path that sends the insert and is untouched for a visitor |
| AdminUsers.RolesOf | src/pages/admin/AdminUsers.tsx:66-70 | a user's role list is the roles of that user's rows, in the order of the read |
| AdminUsers.RolesOfMeaning | src/pages/admin/AdminUsers.tsx:66-70 | a role is in a user's list exactly when some row gives that user that role |
| AdminUsers.RolesOfAbsent | src/pages/admin/AdminUsers.tsx:66-70 | a user without rows has no roles |
| AdminUsers.RolesFromStore | src/pages/admin/AdminUsers.tsx:57-70 | after a truthful read of all role rows, a user's list holds a role exactly when the store gives the user that role |
| AdminUsers.BuildRolesMap | src/pages/admin/AdminUsers.tsx:66-70 | the loop's map has exactly the users with some row, each mapped to its roles in the order of the read |
| AdminUsers.RolesOfStep | src/pages/admin/AdminUsers.tsx:67-69 | each row adds its role to its own user's list and to no other |
| AdminUsers.RolesMapFromStore | src/pages/admin/AdminUsers.tsx:57-70 | the map lists a role for a user exactly when the role read succeeded and the store gives the user that role |
| AdminUsers.NextStatus | src/pages/admin/AdminUsers.tsx:92 | the toggle never yields `pending`, and yields `suspended` exactly from `active` |
| AdminUsers.ToggleTwice | src/pages/admin/AdminUsers.tsx:92 | toggling twice restores an active or suspended account; a pending one ends suspended |
| AdminUsers.FilteredUsers | src/pages/admin/AdminUsers.tsx:111-119 | a user is shown exactly when they are in the list and their lowered first name, last name, email or non-null DNI/NIE contains the lowered query |
| AdminUsers.EmptySearchShowsAll | src/pages/admin/AdminUsers.tsx:111-119 | an empty search shows every user, in order |
| AdminUsers.SearchByEmailFinds | src/pages/admin/AdminUsers.tsx:111-119 | searching for a listed user's email shows that user |
| AdminUsers.WithAccountStatus | src/pages/admin/AdminUsers.tsx:101-103 | the user with the given id gets the new status; every other user and field is unchanged |
| AdminUsers.FetchMirrorsProfiles | src/pages/admin/AdminUsers.tsx:57-64 | after a truthful read of all profiles, the list holds every stored profile, each as stored |
| AdminUsers.ToggleKeepsMirror | src/pages/admin/AdminUsers.tsx:95-103 | an accepted status write, followed by the local rewrite, keeps the list mirroring the store |
| AdminUsers.AdminUsersPage.constructor | src/pages/admin/AdminUsers.tsx:39-49 | the page starts loading, with no users, no roles, an empty search and both dialogs closed |
| AdminUsers.AdminUsersPage.FetchUsers | src/pages/admin/AdminUsers.tsx:55-78 | a failed profile read keeps the list and the roles; otherwise the list is the stored profiles, and the map lists a role exactly when the role read succeeded and the store has it; loading ends |
| AdminUsers.AdminUsersPage.EditUser | src/pages/admin/AdminUsers.tsx:80-83 | the edit dialog opens on the user |
| AdminUsers.AdminUsersPage.ManageRoles | src/pages/admin/AdminUsers.tsx:85-89 | the roles dialog opens on the user's id and full name |
| AdminUsers.AdminUsersPage.ToggleStatus | src/pages/admin/AdminUsers.tsx:91-109 | the toggled status is written by profile id; the list changes only on success and only in that user; a mirroring list stays mirroring |
| CreateJob.PathsDistinct | src/pages/CreateJob.tsx:17-24 | the five field names are distinct |
| CreateJob.Issues | src/pages/CreateJob.tsx:17-24 | validation reports at most one issue per field, so at most five |
| CreateJob.IssuesEmptyIff | src/pages/CreateJob.tsx:17-24 | the form passes exactly when the title has at least 5 characters, the description at least 20, a category and a province are chosen, and the coerced budget is at least 1 |
| CreateJob.PassingBudgetIsNumber | src/pages/CreateJob.tsx:22-57 | a budget that passes parsed to a number of at least 1: a non-numeric budget is coerced to 0 and rejected |
| CreateJob.FieldErrors | src/pages/CreateJob.tsx:63-66 | the loop's error map is the issues keyed by field, the last message winning |
| CreateJob.IssueNamesField | src/pages/CreateJob.tsx:17-24 | a field has an issue exactly when its rule fails |
| CreateJob.FieldErrorIffRuleFails | src/pages/CreateJob.tsx:61-67 | the error map has a field exactly when the field's rule fails |
| CreateJob.FieldErrorsMessages | src/pages/CreateJob.tsx:17-24 | each error is the message of its field's rule |
| CreateJob.Payload | src/pages/CreateJob.tsx:72-81 | the insert is published by the user with status `open` and no assignee, carries the typed title and description, the parsed budget (at least 1) and the chosen category and province, and sends an empty estimated date as null |
| CreateJob.PublishedJobMeetsRules | src/pages/CreateJob.tsx:61-83 | a valid form that the store accepts yields a stored open job of that user that satisfies every rule of the schema |
| CreateJob.CreateJobPage.constructor | src/pages/CreateJob.tsx:29-38 | the form starts blank, with no errors and not loading |
| CreateJob.CreateJobPage.Submit | src/pages/CreateJob.tsx:46-93 | errors are cleared first; an invalid form sets one error per failing field and writes nothing; a valid one inserts the job and goes to `/dashboard/jobs` only if the insert succeeded; loading ends on every path |
| ManageRoles.EveryRoleOffered | src/components/admin/ManageRolesDialog.tsx:18-21 | each role has exactly one checkbox |
| ManageRoles.RoleList | src/components/admin/ManageRolesDialog.tsx:47 | the local list is the roles of the rows read, in order |
| ManageRoles.FetchMirrorsStore | src/components/admin/ManageRolesDialog.tsx:41-47 | after a truthful read, a role is in the list exactly when the store gives the user that role |
| ManageRoles.WithoutRole | src/components/admin/ManageRolesDialog.tsx:78 | revoking keeps exactly the other roles |
| ManageRoles.WithoutRoleKeepsOrder | src/components/admin/ManageRolesDialog.tsx:78 | the other roles keep the order they had |
| ManageRoles.GrantKeepsMirror | src/components/admin/ManageRolesDialog.tsx:63-68 | an accepted grant, followed by appending the role, keeps the list mirroring the store |
| ManageRoles.RevokeKeepsMirror | src/components/admin/ManageRolesDialog.tsx:71-78 | an accepted revoke, which deletes every row of that user and role, followed by filtering the role out, keeps the list mirroring the store |
| ManageRoles.GrantThenRevoke | src/components/admin/ManageRolesDialog.tsx:68-78 | granting a role the user lacked and then revoking it restores the original list |
| ManageRoles.ManageRolesDialog.constructor | src/components/admin/ManageRolesDialog.tsx:26-28 | the dialog starts with no roles, not loading |
| ManageRoles.ManageRolesDialog.ShowFor | src/pages/admin/AdminUsers.tsx:248-254 | passing another user changes only the dialog's user; the checked roles stay until a read for the new user succeeds |
| ManageRoles.ManageRolesDialog.FetchUserRoles | src/components/admin/ManageRolesDialog.tsx:36-54 | with no user nothing happens; otherwise a successful read replaces the list, a failed one keeps it, and fetching ends |
| ManageRoles.ManageRolesDialog.ToggleRole | src/components/admin/ManageRolesDialog.tsx:56-88 | with no user nothing happens; otherwise a grant inserts one row and a revoke deletes the user's rows with that role; the list changes only on success, and then the checkbox shows the requested state |
| JobsListing.SelectFilter | src/pages/Jobs.tsx:47-52 | a select adds at most one constraint |
| JobsListing.ListingQuery | src/pages/Jobs.tsx:41-52 | the query always asks for open jobs newest first, and constrains the category or the province exactly when that select is neither empty nor `all` |
| JobsListing.SelectFilterMeaning | src/pages/Jobs.tsx:47-52 | a select's constraint admits a job exactly when the select is empty, `all`, or the job's key |
| JobsListing.OpenFilterMeaning | src/pages/Jobs.tsx:44 | the status constraint admits exactly the open jobs |
| JobsListing.ListingQueryMeaning | src/pages/Jobs.tsx:41-52 | the query matches a job exactly when it is open and both selects admit its category and its province |
| JobsListing.ListingQueryWellTyped | src/pages/Jobs.tsx:47-52 | every constraint compares an enumeration column with one of its values exactly when each narrowing select holds a valid key |
| JobsListing.FilteredJobs | src/pages/Jobs.tsx:65-69 | a job is shown exactly when its lowered title or description contains the lowered search |
| JobsListing.SearchKeepsOrder | src/pages/Jobs.tsx:65 | the shown jobs are a subsequence of the fetched ones |
| JobsListing.EmptySearchShowsAll | src/pages/Jobs.tsx:65-69 | an empty search shows every fetched job |
| JobsListing.InitialCategory | src/pages/Jobs.tsx:30 | the initial category is never the empty string: a missing or empty `category` parameter gives `all` |
| JobsListing.WithCategory | src/pages/Jobs.tsx:71-79 | changing the category touches no URL parameter other than `category` |
| JobsListing.CategorySurvivesReload | src/pages/Jobs.tsx:30-78 | a category chosen and written to the URL is the one the page starts with when reloaded |
| JobsListing.JobsPage.constructor | src/pages/Jobs.tsx:26-31 | the page starts loading, with no jobs, an empty search, the URL's category and the province at `all` |
| JobsListing.JobsPage.FetchJobs | src/pages/Jobs.tsx:38-63 | a failed read keeps the list; otherwise the list holds exactly the stored open jobs that both selects admit, newest first; loading ends |
| JobsListing.JobsPage.ChangeCategory | src/pages/Jobs.tsx:71-79 | the category changes, and the URL parameter is deleted for `all` and otherwise set |
| JobsListing.JobsPage.ChangeProvince | src/pages/Jobs.tsx:31 | the province select changes the province |
| MyJobs.OwnJobsQuery | src/pages/dashboard/MyJobs.tsx:41-45 | the query asks for jobs newest first |
| MyJobs.OwnJobsQueryMeaning | src/pages/dashboard/MyJobs.tsx:44 | the query matches exactly the jobs the user published |
| MyJobs.FilteredJobs | src/pages/dashboard/MyJobs.tsx:56-58 | the `all` tab shows the list unchanged; any other tab shows exactly the jobs whose status key is the tab |
| MyJobs.WithStatus | src/pages/dashboard/MyJobs.tsx:58 | the jobs kept are exactly those with the status |
| MyJobs.TabShowsStatus | src/pages/dashboard/MyJobs.tsx:56-58 | a status tab shows the jobs with that status, in their original order |
| MyJobs.CountsPartition | src/pages/dashboard/MyJobs.tsx:85-94 | the counts of the five statuses add up to the `all` count, so every job is counted once |
| MyJobs.HiddenStatuses | src/pages/dashboard/MyJobs.tsx:83-95 | approved and cancelled jobs appear under no tab but `all` |
| MyJobs.MyJobsPage.constructor | src/pages/dashboard/MyJobs.tsx:29-31 | the page starts loading, with no jobs and the `all` tab |
| MyJobs.MyJobsPage.FetchJobs | src/pages/dashboard/MyJobs.tsx:33-54 | with no user nothing happens; otherwise a failed read keeps the list, and a successful one lists exactly the user's stored jobs, newest first; loading ends |
| MyJobs.MyJobsPage.SetFilter | src/pages/dashboard/MyJobs.tsx:83 | choosing a tab sets the filter |
| ProfilePage.FormOf | src/pages/dashboard/Profile.tsx:59-71 | loading copies the names and email, shows every null column as the empty string, and shows no province exactly when none is stored |
| ProfilePage.ProvinceColumn | src/pages/dashboard/Profile.tsx:95-99 | an empty province is written as null; a key the column does not know is refused with 22P02 |
| ProfilePage.SavePatch | src/pages/dashboard/Profile.tsx:84-99 | the update writes the names as typed and the province key, never the email or the account status, and can be built exactly when the province is empty or a known key |
| ProfilePage.OfferedProvinceRoundTrip | src/pages/dashboard/Profile.tsx:95-99 | an offered province key is stored and shown back unchanged |
| ProfilePage.StoredProvinceRoundTrip | src/pages/dashboard/Profile.tsx:59-99 | a stored province, or none, survives loading and saving |
| ProfilePage.SaveThenLoad | src/pages/dashboard/Profile.tsx:59-104 | saving a form and loading it again shows the same form, with the stored email; the account status and email are untouched |
| ProfilePage.LoadThenSave | src/pages/dashboard/Profile.tsx:59-104 | loading and saving without edits writes the profile back unchanged exactly when it stores no empty string in a nullable column |
| ProfilePage.SavedProfileShowsForm | src/pages/dashboard/Profile.tsx:84-104 | after a successful save, the user's stored profile loads as the saved form |
| ProfilePage.ProfileView.constructor | src/pages/dashboard/Profile.tsx:28-41 | the page starts loading, with a blank form, not saving |
| ProfilePage.ProfileView.FetchProfile | src/pages/dashboard/Profile.tsx:43-79 | with no user nothing happens; otherwise a found profile replaces the form and loading ends; with one profile per user the form then shows the stored profile |
| ProfilePage.ProfileView.Edit | src/pages/dashboard/Profile.tsx:216-224 | editing changes every field but the disabled email |
| ProfilePage.ProfileView.Save | src/pages/dashboard/Profile.tsx:81-114 | with no user, or with an unknown province, nothing is written; otherwise the update is written to the user's profile, the save reports success exactly when the write succeeded, and with an offered province the saved profile then shows the form |
| EditJob.AssignedColumn | src/components/admin/EditJobDialog.tsx:60 | the assignee is written as null exactly when it is absent, null or empty, and otherwise as itself |
| EditJob.SaveWritesDraft | src/components/admin/EditJobDialog.tsx:52-62 | the update sets each column the draft holds, keeps each it lacks, always sets the assignee, and never touches id, publisher or creation time |
| EditJob.SeedCommutes | src/components/admin/EditJobDialog.tsx:37-42 | editing a seeded draft is seeding from the job with the same edits, which never change the id, publisher, creation time or assignee |
| EditJob.SeededSaveKeepsJob | src/components/admin/EditJobDialog.tsx:37-62 | saving a seeded draft without edits writes the job back unchanged, unless its assignee is the empty string |
| EditJob.SeededSaveWritesEdits | src/components/admin/EditJobDialog.tsx:37-62 | saving a seeded draft after edits writes exactly those edits, whatever status was chosen |
| EditJob.UnseededSaveClearsAssignee | src/components/admin/EditJobDialog.tsx:52-61 | saving a draft that was never seeded changes nothing but setting the assignee to null |
| EditJob.UnseededSaveChangesAssignedJob | src/pages/admin/AdminJobs.tsx:119-122 | on an assigned job, the unseeded save changes the stored row |
| EditJob.EditJobDialog.constructor | src/components/admin/EditJobDialog.tsx:34-35 | the dialog starts closed, not loading, with an empty draft |
| EditJob.EditJobDialog.ShowFor | src/pages/admin/AdminJobs.tsx:119-122 | opening from the jobs page sets the job and opens the dialog, leaving the draft as it was |
| EditJob.EditJobDialog.HandleOpen | src/components/admin/EditJobDialog.tsx:37-42 | opening on a job seeds the draft from it; the open flag follows |
| EditJob.EditJobDialog.OpenFor | src/components/admin/EditJobDialog.tsx:37-42 | opening through `handleOpen` leaves the draft seeded from the job |
| EditJob.EditJobDialog.Edit | src/components/admin/EditJobDialog.tsx:88-183 | a field's change applies to the draft |
| EditJob.EditJobDialog.Submit | src/components/admin/EditJobDialog.tsx:44-75 | with no job nothing happens; otherwise the draft is written by the job's id, the dialog closes exactly on success, a draft seeded from the stored job and then edited writes exactly those edits (for a job whose assignee is not the empty string), and an unseeded one clears the assignee |
| EditUser.SeedCommutes | src/components/admin/EditUserDialog.tsx:45-50 | editing a seeded draft is seeding from the profile with the same edits, which never change the id, user or creation time |
| EditUser.SeededSaveKeepsProfile | src/components/admin/EditUserDialog.tsx:45-73 | saving a seeded draft without edits writes the profile back unchanged |
| EditUser.SeededSaveWritesEdits | src/components/admin/EditUserDialog.tsx:45-73 | saving a seeded draft after edits writes exactly those edits, email and account status included |
| EditUser.EditsStoredAsTyped | src/components/admin/EditUserDialog.tsx:60-72 | any account status, `pending` included, can be written, and a cleared text field is stored as the empty string, not null |
| EditUser.UnseededSaveKeepsProfile | src/components/admin/EditUserDialog.tsx:60-73 | saving a draft that was never seeded leaves the profile unchanged |
| EditUser.SaveAfterEdits | src/components/admin/EditUserDialog.tsx:60-73 | whatever the draft held, later edits are written on top of what it would have written |
| EditUser.StaleEditsReachNextProfile | src/pages/admin/AdminUsers.tsx:80-83 | on the users page, edits typed while the dialog showed an earlier profile are written to the next profile saved, before its own edits |
| EditUser.EditUserDialog.constructor | src/components/admin/EditUserDialog.tsx:42-43 | the dialog starts closed, not loading, with an empty draft |
| EditUser.EditUserDialog.ShowFor | src/pages/admin/AdminUsers.tsx:80-83 | opening from the users page sets the profile and opens the dialog, leaving the draft as it was |
| EditUser.EditUserDialog.HandleOpen | src/components/admin/EditUserDialog.tsx:45-50 | opening on a profile seeds the draft from it; the open flag follows |
| EditUser.EditUserDialog.OpenFor | src/components/admin/EditUserDialog.tsx:45-50 | opening through `handleOpen` leaves the draft seeded from the profile |
| EditUser.EditUserDialog.Edit | src/components/admin/EditUserDialog.tsx:100-218 | a field's change applies to the draft |
| EditUser.EditUserDialog.Submit | src/components/admin/EditUserDialog.tsx:52-86 | with no user nothing happens; otherwise the draft is written by profile id, the dialog closes exactly on success, and a draft seeded from the stored profile and then edited writes exactly those edits |
| ViewApplications.OfferedStatuses | src/components/admin/ViewApplicationsDialog.tsx:32-36 | the select offers exactly pending, accepted and rejected, each once |
| ViewApplications.ApplicantIds | src/components/admin/ViewApplicationsDialog.tsx:62 | the ids are exactly the applicants of the rows, each once |
| ViewApplications.Attach | src/components/admin/ViewApplicationsDialog.tsx:72-77 | each application keeps its place and carries an applicant exactly when the map has its applicant |
| ViewApplications.FetchMirrorsStore | src/components/admin/ViewApplicationsDialog.tsx:53-57 | after a truthful read, the list holds exactly the job's stored applications, each as stored |
| ViewApplications.FetchNamesApplicants | src/components/admin/ViewApplicationsDialog.tsx:62-77 | when the profile read succeeded, each application carries its applicant's stored profile, or none when there is none |
| ViewApplications.WithStatus | src/components/admin/ViewApplicationsDialog.tsx:95-97 | the application with the id gets the new status; every other application and field is unchanged |
| ViewApplications.StatusChangeKeepsMirror | src/components/admin/ViewApplicationsDialog.tsx:88-97 | an accepted status write, followed by the local rewrite, keeps the list mirroring the store |
| ViewApplications.ApplicationsDialog.constructor | src/components/admin/ViewApplicationsDialog.tsx:39-40 | the dialog starts with the job and open flag its owner passes, no applications, not loading |
| ViewApplications.ApplicationsDialog.ShowFor | src/pages/admin/AdminJobs.tsx:339-344 | passing another job or open flag changes only those; the listed applications stay until a read for the new job succeeds |
| ViewApplications.ApplicationsDialog.FetchApplications | src/components/admin/ViewApplicationsDialog.tsx:48-84 | with no job nothing happens; otherwise a failed read keeps the list, and a successful one lists exactly the job's stored applications with their applicants; loading ends |
| ViewApplications.ApplicationsDialog.OnOpenOrJobChange | src/components/admin/ViewApplicationsDialog.tsx:42-46 | the applications are read only while the dialog is open on a job |
| ViewApplications.ApplicationsDialog.ChangeStatus | src/components/admin/ViewApplicationsDialog.tsx:86-103 | the status is written; the list changes only on success and only in that application; a list in sync stays in sync |
| Navigation.AuthRedirect | src/pages/CreateJob.tsx:40-44 | the only redirect is to `/auth` |
| Navigation.AuthRedirectOnlyAnonymous | src/pages/Dashboard.tsx:22-26 | the dashboard and the job form redirect exactly when authentication settled with no user, never while loading |
| Navigation.IsActiveMeaning | src/pages/Admin.tsx:48-51 | an exact link is active exactly on its own path, any other link exactly on the paths that start with its target, and every link on its own path |
| Navigation.DivergingPrefixes | src/pages/Dashboard.tsx:40-43 | two prefix links whose targets differ at a shared position are never active together |
| AdminLayout.AdminSidebarHighlightsOne | src/pages/Admin.tsx:11-15 | on any path at most one admin link is highlighted, and on a link's own path only that link |
| AdminLayout.ContentOnlyForAdmin | src/pages/Admin.tsx:36-46 | the admin pages render exactly when authentication and the check have settled and the user is a signed-in admin |
| AdminLayout.AdminGate.constructor | src/pages/Admin.tsx:21 | the layout starts checking |
| AdminLayout.AdminGate.Check | src/pages/Admin.tsx:23-34 | while loading, no decision; a visitor goes to `/auth`, a non-admin to `/dashboard`, and an admin ends the check, after which the content renders |
| DashboardLayout.DashboardSidebarHighlightsOne | src/pages/Dashboard.tsx:10-15 | on any path at most one dashboard link is highlighted, and on a link's own path only that link |
| DashboardLayout.RenderAndRedirectAgree | src/pages/Dashboard.tsx:28-38 | the spinner shows exactly while loading; a visitor sees nothing and is redirected; a user sees the pages |

## Left out

- The Supabase client, the network and the row-level security policies are outside the model. Each write takes an injected fault, and each read's answer is a parameter bounded by what a truthful store may answer.
- The two reads that `Promise.all` runs together in `src/pages/admin/AdminUsers.tsx` are modelled one after the other.
- Toasts, console logging and markup are left out. Navigation is a returned target path.
- `useAuth` is not part of this model. The user, the admin flag and the loading flag are inputs.
- `lib/constants` is not part of this model. Its label maps only feed the selects. A select is assumed to send an enumeration key; where a key could be anything else, the model lets the store refuse it with 22P02.
- Text.LowerChar, Text.ToLower: lower ASCII and Latin-1 capitals only, not the full Unicode case mapping of `toLowerCase`. Lengths are counted in characters, not UTF-16 code units.
- Budgets are `real`. `parseFloat` is modelled as an optional number, with no value standing for NaN.
- EditJob.Applied: the budget input's `parseFloat` is a real, so a NaN budget cannot be typed. Clearing the input gives NaN in the source, which the request sends as `null` to the NOT NULL `budget` column, so the store refuses the update; the model does not capture that refusal. An emptied estimated date is written as the empty string, as the dialog sends it.
- `updated_at` and the server clock are left out. `created_at` is a natural number that a new row takes from the store.
- The default role inserted for a new user by the database is not visible and is left out.
- Date formatting, the estimated-date `min` and the display of badges and colour maps are presentation only.
- JobDetail.JobDetailPage.Apply: the intermediate `applying == true` state during the request is not observable between two method calls. The method states only that it ends false on every path that sends the insert.
- ProfilePage.ProfileView.Save: `user!` with no user throws before any write. It is modelled as no write and no success.
- `handleViewApplications` of the jobs page only passes the job id and the open flag to the dialog. The dialog stays mounted, so this is `ViewApplications.ApplicationsDialog.ShowFor`, which keeps the list: after a change of job, a failed read shows the previous job's applications.
- ManageRoles.ManageRolesDialog: the dialog stays mounted while the users page passes another user (`ShowFor`). After a failed read for the new user, the previous user's roles stay checked, and a toggle writes for the new user but updates that stale list. The `open` prop is not a field: `FetchUserRoles` is the read the dialog runs when it is open on a user.
- Header, home sections, job cards, the footer, the route table, the payments placeholder, the admin dashboard's counts and the worker's applications list are display code and are not modelled.
- EditUser.EditUserDialog.Submit: an unseeded submit sends an update with no columns. The model treats it as a write that changes nothing.
- Store.AfterDeleteJob: the `job_applications.job_id` foreign key (src/integrations/supabase/types.ts:42-49) is assumed to refuse the delete of a referenced job (NO ACTION or RESTRICT), because its `ON DELETE` action is not visible. Under a cascade the delete would also remove the job's applications.
- Store.ReferencedJobNotDeleted: holds only under the refusing foreign key assumed for Store.AfterDeleteJob.
- AdminJobs.DeleteOutcome: assumes the same refusing foreign key. Under a cascade, the two-step delete would also succeed when the application delete was faulted and applications remained.

## Findings

| source | as written | input that shows it | evidently intended | confidence | as-written member | corrected member |
|---|---|---|---|---|---|---|
| src/pages/admin/AdminJobs.tsx:119-122 | The jobs page opens the edit dialog by setting its `open` prop. The dialog seeds its form only in `handleOpen`, which is its `onOpenChange` callback, so the form is never seeded. `handleSubmit` always sends `assigned_to: formData.assigned_to \|\| null`. | A job with `assigned_to = "u1"`: click Edit, then Save without typing. The update writes `assigned_to = null` and unassigns the job. | Opening the dialog on a job seeds the form from it, so an unedited save leaves the job unchanged. | not executed; medium, because it depends on the dialog component not calling `onOpenChange` for a change of its controlled prop | EditJob.UnseededSaveChangesAssignedJob | EditJob.EditJobDialog.OpenFor |
| src/pages/admin/AdminUsers.tsx:80-83 | The users page opens the edit-user dialog by setting its `user` and `open` props. The dialog seeds its form only in `handleOpen` (src/components/admin/EditUserDialog.tsx:45-50), its `onOpenChange` callback, so the form is never seeded and keeps what was typed for earlier users. | Open on user A, type a first name, save or close; open on user B and save without typing. The update writes A's typed first name to B. | Opening the dialog on a profile seeds the form from it, so a save writes only the edits made for that profile. | not executed; medium, because it depends on the dialog component not calling `onOpenChange` for a change of its controlled prop | EditUser.StaleEditsReachNextProfile | EditUser.EditUserDialog.OpenFor |
