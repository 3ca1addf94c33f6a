# FoodConnect account and food-post workflow, in Dafny

FoodConnect links restaurants that have surplus food with NGOs that collect
it, with an admin who approves accounts. Persistence, authentication and live
updates all belong to a hosted backend; what the application itself decides is
the account and food-post workflow over two tables, `users` and `foodPosts`.
This project models that workflow and proves what it does:

- `types.dfy` (module `Types`): the three closed enumerations (role, user
  status, post status) and the user and food-post records.
- `mock_data.dfy` (module `MockData`): the in-memory store, a class `Store`
  whose two sequence fields are the module-level tables. Its methods replace
  entries by id (`UpdateUserStatus`, `ClaimFoodPost`, `MarkAsPickedUp`) or
  append (`AddFoodPost`, `AddUser`). Each method is stated against a function
  of the old table. The lemmas beside them cover frame, idempotence and
  last-write-wins. They also cover the status/claimant rule: `Available` posts
  have no claimant, `Claimed`/`Picked up` posts have one. Claiming preserves
  the rule; picking up preserves it exactly when the target already had a
  claimant. Neither operation checks the current status, and the model keeps
  it that way.
- `admin_view.dfy` (module `AdminView`): the four counters, the per-city tally
  of approved restaurants and NGOs (a loop over a dictionary, proved against a
  fold), the proof that the per-city bars sum to the counters, the
  user-management table and its approve/reject rule, and the role redirect.
- `ngo_view.dfy` (module `NgoView`): the city-scoped subscription, the
  "Available" and "My Claims" tabs, the blind claim write, and the redirect
  (which does not look at approval).
- `restaurant_view.dfy` (module `RestaurantView`): the construction of a new
  post, the approval gate, the owner-scoped subscription, and the page state
  (a class) that a successful post updates.
- `status_migration.dfy` (module `StatusMigration`): the one-off migration
  that gives every non-admin user without a status the status `pending`, as a
  loop over an array of user documents.
- `session.dfy`, `seqs.dfy`, `wrappers.dfy`: the signed-in user's shape as
  the pages see it, the `filter` / conditional `map` / `find` combinators, and
  `Option`.

None of the table rewrites is guarded. `claimFoodPost`, `markAsPickedUp` and
the NGO page's `updateDoc` overwrite unconditionally: a claim does not check
that the post is still `Available`, so a `Picked up` post can be claimed
again. `updateUserStatus` has no role check, so an admin can be rejected.
`addUser` accepts any role. Sign-up does not call it: the sign-up page
writes the user document itself with `setDoc`
(src/app/(auth)/signup/page.tsx:45-52), and its role picker offers only
restaurant and NGO (src/app/(auth)/signup/page.tsx:124-125).
`LastClaimWins`, `PickUpConsistencyIff`, `ClaimMovesPost`,
`UpdateStatusAdminRule` and `AddUserAdminRule` state the consequences.

The stored user's `status` is optional in the model. The record type declares
it required, but every reader of stored documents handles its absence (the
admin page's spinner guard and "N/A" badge, and the migration).

## Model

| member | source | states |
|---|---|---|
| `Types.RoleName` | src/lib/types.ts:1 | each role is exactly one of the literals admin, restaurant, ngo |
| `Types.RoleNameInjective` | src/lib/types.ts:1 | two roles with the same literal are the same role |
| `Types.StatusName` | src/lib/types.ts:2 | each user status is exactly one of pending, approved, rejected |
| `Types.StatusNameInjective` | src/lib/types.ts:2 | two user statuses with the same literal are the same status |
| `Types.WithId` | src/lib/data.ts:106-110 | a post built from an `Omit<FoodPost, 'id'>` draft carries the given id and exactly the draft's fields |
| `Types.DraftRoundTrip` | src/lib/types.ts:15-25 | a post is its draft plus its id, nothing lost |
| `MockData.UsersWithStatus` | src/lib/data.ts:102 | the table keeps its length; only users carrying the id change, and only in their status |
| `MockData.FindUser` | src/lib/data.ts:103 | the lookup finds something exactly when some user has the id; what it finds is the first user in the table with that id |
| `MockData.UpdatedUserReturned` | src/lib/data.ts:101-104 | `updateUserStatus` returns the first user with the id carrying the new status, or nothing for an absent id |
| `MockData.LastStatusWins` | src/lib/data.ts:102 | two status updates of one user leave the table as the second alone (so repeating one is idempotent) |
| `MockData.PostsClaimed` | src/lib/data.ts:116 | every post with the id becomes `Claimed` by the given NGO whatever its status, other fields kept; other posts unchanged; length kept |
| `MockData.PostsPickedUp` | src/lib/data.ts:121 | every post with the id becomes `Picked up` with its claimant kept as it was; other posts unchanged; length kept |
| `MockData.FindPost` | src/lib/data.ts:117 | the lookup finds something exactly when some post has the id; what it finds is the first post in the table with that id |
| `MockData.LastClaimWins` | src/lib/data.ts:115-117 | a second claim overwrites the first claimant (no check that the post was `Available`) |
| `MockData.PickUpIdempotent` | src/lib/data.ts:120-122 | marking picked up twice is marking it once |
| `MockData.ClaimKeepsConsistency` | src/lib/data.ts:115-117 | claiming preserves the status/claimant rule on every post |
| `MockData.PickUpConsistencyIff` | src/lib/data.ts:120-122 | on a consistent table, pickup keeps the rule iff every post with the id already had a claimant; an `Available` target ends `Picked up` with no claimant |
| `MockData.NewUser` | src/lib/data.ts:133-141 | the new user has status pending, the given name, email, password, role and city, and id `<role>-<stamp>` |
| `MockData.AddUserAdminRule` | src/lib/data.ts:126-143 | appending keeps "every admin is approved" iff the new user is not an admin (no role check) |
| `MockData.UpdateStatusAdminRule` | src/lib/data.ts:101-104 | on a table whose admins are approved, a status update keeps that rule iff it approves or no admin carries the id (no role check) |
| `MockData.NewPostId` | src/lib/data.ts:109 | a new post's id is `post-` followed by the stamp |
| `MockData.SeedUsers` | src/lib/data.ts:6-61 | six seeded users, every admin among them approved, each with a status, no two with the same id |
| `MockData.SeedPosts` | src/lib/data.ts:63-97 | three seeded posts, one `Available`, one `Claimed`, one `Picked up`; all keep the status/claimant rule, no two with the same id |
| `MockData.SeedInvariants` | src/lib/data.ts:6-97 | every seeded post's restaurantId is a seeded restaurant's id, and every seeded claimant a seeded NGO's id |
| `MockData.Store.constructor` | src/lib/data.ts:6-97 | the tables start as the seed rows, which keep both rules |
| `MockData.Store.UpdateUserStatus` | src/lib/data.ts:101-104 | users becomes `UsersWithStatus` of the old table, posts unchanged; returns the first matching user with the new status, or nothing iff the id is absent; on a table whose admins are approved, they stay approved iff the update approves or targets no admin |
| `MockData.Store.AddFoodPost` | src/lib/data.ts:106-113 | appends exactly one post, the draft plus id `post-<stamp>`; earlier posts and users unchanged; a consistent draft keeps the table consistent |
| `MockData.Store.ClaimFoodPost` | src/lib/data.ts:115-118 | posts becomes `PostsClaimed` of the old table; the returned post is `Claimed` by the NGO; consistency preserved |
| `MockData.Store.MarkAsPickedUp` | src/lib/data.ts:120-123 | posts becomes `PostsPickedUp` of the old table; the returned post is `Picked up`; consistency kept iff the target had a claimant |
| `MockData.Store.AddUser` | src/lib/data.ts:126-144 | appends exactly the new pending user; existing users and posts untouched |
| `AdminView.ComputeStats` | src/app/admin/page.tsx:82-87 | food posted is the number of posts; claimed plus available equals posted, so claimed is at most posted; the role counters are at most the number of users |
| `AdminView.Tally` | src/app/admin/page.tsx:91-98 | an unapproved user changes nothing; an approved user's city gets an entry and only its role's counter rises by one; other cities unchanged |
| `AdminView.CityData` | src/app/admin/page.tsx:89-98 | the tally after the loop has visited the users in order; no city's counters add up to more than the number of users |
| `AdminView.CityDataKeys` | src/app/admin/page.tsx:92-95 | the tally has an entry for exactly the cities of approved users (an approved admin's city too) |
| `AdminView.BuildCityData` | src/app/admin/page.tsx:89-100 | the loop that creates and increments entries in place yields the fold `CityData` over the users |
| `AdminView.CityCountsExact` | src/app/admin/page.tsx:96-97 | each city's restaurant (NGO) counter is the number of approved restaurants (NGOs) in that city |
| `AdminView.CityDataOnlyApproved` | src/app/admin/page.tsx:92 | pending, rejected and status-less users never create or change an entry |
| `AdminView.CityTotalsMatchStats` | src/app/admin/page.tsx:83-97 | summing a role's counters over all cities gives the number of approved users of that role |
| `AdminView.StatsMatchCityData` | src/app/admin/page.tsx:83-84 | `totalRestaurants` and `totalNgos` are the sums of the chart's bars |
| `AdminView.TallyAsWritten` | src/app/admin/page.tsx:92-98 | as written, an approved user whose city is an inherited object member leaves the tally unchanged; for any other city the step is the map-based `Tally` |
| `AdminView.CityDataAsWritten` | src/app/admin/page.tsx:90-99 | as written, the chart lists exactly the approved users' cities that are not inherited object members |
| `AdminView.ConstructorCityIsLost` | src/app/admin/page.tsx:93-99 | as written, an approved restaurant in a city named "constructor" is counted in `stats` but absent from the chart; the map-based tally keeps it |
| `AdminView.AsWrittenAgreesOffInheritedNames` | src/app/admin/page.tsx:90-99 | when no approved user's city is an inherited object member, the loop as written and the map-based tally agree |
| `AdminView.ManagedUsers` | src/app/admin/page.tsx:163 | the user table lists every non-admin and never an admin |
| `AdminView.Lower` | src/app/admin/page.tsx:177 | lower-casing keeps the length, leaves no upper-case letter, maps each upper-case letter to its lower-case letter and keeps every other character |
| `AdminView.ShowsDecisionButtons` | src/app/admin/page.tsx:177 | approve/reject are offered exactly to users whose status is not approved, including users with no status |
| `AdminView.AdminRedirects` | src/app/admin/page.tsx:38-46 | once loading ends, the page redirects to /login iff the user is absent or not an admin |
| `AdminView.AdminScreenOf` | src/app/admin/page.tsx:102-108 | the dashboard renders iff loading ended and the user is present with some status, whatever the role |
| `AdminView.AdminDashboardOnlyStaysForAdmins` | src/app/admin/page.tsx:38-108 | a dashboard with no pending redirect implies a signed-in admin; a non-admin with a status gets the dashboard rendered in the pass that redirects it |
| `NgoView.CityFeed` | src/app/ngo/page.tsx:31 | the subscription holds exactly the stored posts of the NGO's city |
| `NgoView.AvailablePosts` | src/app/ngo/page.tsx:44 | the Available tab holds exactly the feed's `Available` posts |
| `NgoView.MyClaims` | src/app/ngo/page.tsx:45 | My Claims holds exactly the feed's posts whose claimant is the NGO's uid; absent or null claimants never match |
| `NgoView.TabsStayInCity` | src/app/ngo/page.tsx:31-45 | both tabs only ever contain posts of the NGO's city |
| `NgoView.TabsAppend` | src/app/ngo/page.tsx:44-45 | both tabs distribute over concatenation of the feed: they are its order-preserving subsequences |
| `NgoView.ClaimWrite` | src/app/ngo/page.tsx:47-57 | the claim fails only when no post has the id; otherwise it is the same blind overwrite as `claimFoodPost`, with no status read |
| `NgoView.ClaimedInFeed` | src/app/ngo/page.tsx:49-52 | after a claim every copy of the post in the city feed is `Claimed` by the claimer, whatever its earlier status |
| `NgoView.ClaimMovesPost` | src/app/ngo/page.tsx:44-52 | after a claim the post is in the claimer's My Claims and not in Available, and has left any other NGO's My Claims |
| `NgoView.NgoRedirects` | src/app/ngo/page.tsx:23-27 | once loading ends, the page redirects iff the user is absent or not an NGO |
| `NgoView.NgoScreenOf` | src/app/ngo/page.tsx:59-61 | the dashboard renders iff loading ended and a user is present; otherwise the spinner |
| `NgoView.NgoNoApprovalGate` | src/app/ngo/page.tsx:23-61 | a signed-in NGO gets the dashboard and no redirect whatever its approval status |
| `RestaurantView.NewPost` | src/app/restaurant/page.tsx:74-83 | a new post is `Available` with no claimant, has the user's city and uid as restaurantId, and copies item name, quantity, pickup time and expiry from the form |
| `RestaurantView.NewPostConsistent` | src/app/restaurant/page.tsx:79-82 | whatever id it gets, a new post keeps the status/claimant rule and is owned by its poster |
| `RestaurantView.OwnerFeedAsWritten` | src/app/restaurant/page.tsx:46-52 | as written, no subscription is set up iff the user's `id` field is missing or empty; otherwise it holds exactly the stored posts whose restaurantId is the uid |
| `RestaurantView.OwnerFeedMissesStoredPosts` | src/app/restaurant/page.tsx:46-52 | as written, a user whose `id` field is missing or empty gets no subscription, though it owns stored posts |
| `RestaurantView.OwnerFeed` | src/app/restaurant/page.tsx:49-52 | the subscription holds exactly the stored posts whose restaurantId is the user's uid |
| `RestaurantView.RestaurantRedirects` | src/app/restaurant/page.tsx:40-44 | once loading ends, the page redirects iff the user is absent or not a restaurant |
| `RestaurantView.RestaurantScreenOf` | src/app/restaurant/page.tsx:119-136 | the dashboard and form render iff the user's status is approved; otherwise the status screen with that status (or the spinner) |
| `RestaurantView.PostFormOnlyForApprovedRestaurants` | src/app/restaurant/page.tsx:40-136 | the post form stays up with no redirect only for an approved restaurant |
| `RestaurantView.RestaurantPage.constructor` | src/app/restaurant/page.tsx:31-38 | the page starts with no posts, the form closed and empty |
| `RestaurantView.RestaurantPage.ReceiveSnapshot` | src/app/restaurant/page.tsx:54-61 | a snapshot replaces the list with the owner feed (the uid-scoped subscription); for a user with a non-empty `id` this is the snapshot the written subscription delivers; the form is untouched |
| `RestaurantView.RestaurantPage.PostFood` | src/app/restaurant/page.tsx:67-108 | on success the created post is appended after the earlier ones, the form closes and its four fields reset; on failure list and form are kept; without a user nothing changes |
| `StatusMigration.NeedsDefault` | src/app/admin/run-migration.tsx:14 | the candidates are exactly the restaurants and NGOs that have no status |
| `StatusMigration.WrittenIds` | src/app/admin/run-migration.tsx:12-16 | a run writes at most one id per document (which ids: `WrittenIdsAreCandidates`) |
| `StatusMigration.Migrated` | src/app/admin/run-migration.tsx:14-15 | a non-admin without status gets pending; anyone else is unchanged; only the status field is written |
| `StatusMigration.MigrateAll` | src/app/admin/run-migration.tsx:12-17 | the run applies the per-user rule to every document |
| `StatusMigration.WrittenIdsAreCandidates` | src/app/admin/run-migration.tsx:14-15 | exactly the status-less non-admins are written; no user with a status and no admin is ever written |
| `StatusMigration.MigrationOutcome` | src/app/admin/run-migration.tsx:12-17 | after a run every non-admin has a status, admins are unchanged, set statuses are unchanged |
| `StatusMigration.MigrationIdempotent` | src/app/admin/run-migration.tsx:14-15 | a second run finds no candidate, writes nothing and changes nothing |
| `StatusMigration.NoCandidatesNoWrites` | src/app/admin/run-migration.tsx:14 | a table without candidates is written nowhere |
| `StatusMigration.SetDefaultStatuses` | src/app/admin/run-migration.tsx:10-17 | the loop over the documents leaves them as `MigrateAll` of the snapshot and reports the written ids |

## Findings

| source | as written | input that shows it | evidently intended | confidence | as-written member | corrected member |
|---|---|---|---|---|---|---|
| src/app/restaurant/page.tsx:47 | the owner subscription is set up only if the signed-in user has a non-empty `id` field; the session user is `{ uid, ...userData }` and sign-up stores no `id` in the user document | a restaurant that signed up (no `id` field) and owns stored posts | subscribe by `uid`, which the query on line 51 already uses | medium, not executed | `RestaurantView.OwnerFeedMissesStoredPosts` | `RestaurantView.OwnerFeed` |
| src/app/admin/page.tsx:93 | `!cityCounts[u.city]` on a plain object is false for inherited member names, so no own entry is made and `Object.entries` drops the city | one approved restaurant whose city is "constructor" | every approved user's city has its own entry and the bars sum to the counters | medium, not executed | `AdminView.ConstructorCityIsLost` | `AdminView.CityTotalsMatchStats` |

## Left out

- Backend I/O: `onSnapshot`, `updateDoc`, `addDoc`, `getDocs` and `getDoc` become operations on in-memory sequences. `src/lib/firestore.ts` is not part of this model. Neither is the asynchronous `addFoodPost` (src/lib/data.ts:146-156), which only forwards to the backend.
- The admin page's `handleUpdateStatus` (src/app/admin/page.tsx:69-80) is a single backend write. Its effect on the table is `MockData.UsersWithStatus`.
- The auth context's listener and profile fetch are not modelled. Only the shape of the user it hands to the pages is (`Session.SessionUser`).
- Ids from `Date.now()` are a caller-supplied stamp. Their uniqueness is not claimed, and the tables may hold duplicate ids. The table rewrites then change every copy, and `find` returns the first.
- Dates: `expiryTime` is an opaque integer. The parsing of the form's expiry string is a parameter of `PostFood`, and date-fns formatting is not modelled. The seed's "one day ago" is taken as 24 hours.
- Concurrency: the migration's unawaited writes are applied in order and all land. Racing claims are not modelled, because the code has no conditional write to model.
- Presentation is not modelled: markup, toasts, charts, the header and the status screen's content. Router effects are reduced to the redirect decision.
- The order of the chart's entries (JavaScript key ordering) is not modelled. The tally is a map from city to counts.
- `AdminView.Lower`: models ASCII lower-casing only. Every status literal is ASCII lower case.
- `RestaurantView.RestaurantPage.PostFood`: the intermediate state while the write is awaited (`isSubmitting` true) is not observable in the model. Only the final state is stated.
- `MockData.Store.UpdateUserStatus`: requires the status to be approved or rejected. That is the parameter's declared type.
