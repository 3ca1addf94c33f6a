/** The in-memory mock store of `src/lib/data.ts`: two module-level tables,
    `users` and `foodPosts`, with their seed rows and the helper functions
    that replace entries by id or append new ones. None of the helpers checks
    the current state of the entry it rewrites. */
module MockData {
  import opened Wrappers
  import opened Seqs
  import opened Types

  // ---------------------------------------------------------------------
  // The table rewrites, as functions of the old table
  // ---------------------------------------------------------------------

  /** `users.map(user => user.id === userId ? { ...user, status } : user)`.
      Only the status of users carrying `userId` changes. */
  function UsersWithStatus(users: seq<User>, userId: string, status: UserStatus): (r: seq<User>)
    ensures |r| == |users|
    ensures forall i :: 0 <= i < |users| ==> r[i].(status := users[i].status) == users[i]
    ensures forall i :: 0 <= i < |users| ==>
              r[i].status == if users[i].id == userId then Some(status) else users[i].status
  {
    UpdateWhere(users, (u: User) => u.id == userId, (u: User) => u.(status := Some(status)))
  }

  /** `users.find(u => u.id === userId)`. */
  function FindUser(users: seq<User>, userId: string): (r: Option<User>)
    ensures r.Some? <==> exists i :: 0 <= i < |users| && users[i].id == userId
    ensures r.Some? ==> r.value.id == userId && r.value in users
    ensures r.Some? ==> exists i :: 0 <= i < |users| && users[i] == r.value &&
                                    forall j :: 0 <= j < i ==> users[j].id != userId
  {
    Find((u: User) => u.id == userId, users)
  }

  /** The user `updateUserStatus` returns is the first user with that id,
      now carrying the new status; absent ids give nothing. */
  lemma UpdatedUserReturned(users: seq<User>, userId: string, status: UserStatus)
    ensures FindUser(UsersWithStatus(users, userId, status), userId) ==
            if FindUser(users, userId).Some?
            then Some(FindUser(users, userId).value.(status := Some(status)))
            else None
  {
    FindUpdated((u: User) => u.id == userId, users, (u: User) => u.(status := Some(status)));
  }

  /** Setting a status twice leaves the table as setting it once; more
      generally the later of two decisions on one user wins. */
  lemma LastStatusWins(users: seq<User>, userId: string, first: UserStatus, second: UserStatus)
    ensures UsersWithStatus(UsersWithStatus(users, userId, first), userId, second) ==
            UsersWithStatus(users, userId, second)
  {
    var once := UsersWithStatus(users, userId, second);
    var twice := UsersWithStatus(UsersWithStatus(users, userId, first), userId, second);
    assert forall i :: 0 <= i < |users| ==> twice[i] == once[i];
  }

  /** `foodPosts.map(post => post.id === postId ? {...post, status: 'Claimed',
      claimedByNgoId: ngoId} : post)`: an unconditional overwrite of status and
      claimant, whatever the post's current status. */
  function PostsClaimed(posts: seq<FoodPost>, postId: string, ngoId: string): (r: seq<FoodPost>)
    ensures |r| == |posts|
    ensures forall i :: 0 <= i < |posts| && posts[i].id == postId ==>
              r[i].status == Claimed && r[i].claimedByNgoId == Some(ngoId) &&
              r[i].(status := posts[i].status, claimedByNgoId := posts[i].claimedByNgoId) == posts[i]
    ensures forall i :: 0 <= i < |posts| && posts[i].id != postId ==> r[i] == posts[i]
  {
    UpdateWhere(posts, (p: FoodPost) => p.id == postId,
                (p: FoodPost) => p.(status := Claimed, claimedByNgoId := Some(ngoId)))
  }

  /** `foodPosts.map(post => post.id === postId ? {...post, status: 'Picked up'}
      : post)`: the claimant is kept as it is, whatever it is. */
  function PostsPickedUp(posts: seq<FoodPost>, postId: string): (r: seq<FoodPost>)
    ensures |r| == |posts|
    ensures forall i :: 0 <= i < |posts| && posts[i].id == postId ==>
              r[i].status == PickedUp && r[i].(status := posts[i].status) == posts[i]
    ensures forall i :: 0 <= i < |posts| && posts[i].id != postId ==> r[i] == posts[i]
  {
    UpdateWhere(posts, (p: FoodPost) => p.id == postId, (p: FoodPost) => p.(status := PickedUp))
  }

  /** `foodPosts.find(p => p.id === postId)`. */
  function FindPost(posts: seq<FoodPost>, postId: string): (r: Option<FoodPost>)
    ensures r.Some? <==> exists i :: 0 <= i < |posts| && posts[i].id == postId
    ensures r.Some? ==> r.value.id == postId && r.value in posts
    ensures r.Some? ==> exists i :: 0 <= i < |posts| && posts[i] == r.value &&
                                    forall j :: 0 <= j < i ==> posts[j].id != postId
  {
    Find((p: FoodPost) => p.id == postId, posts)
  }

  /** Every post of the table keeps the status/claimant rule. */
  predicate AllConsistent(posts: seq<FoodPost>)
  {
    forall i :: 0 <= i < |posts| ==> ClaimConsistent(posts[i])
  }

  /** A second claim of the same post silently replaces the first claimant:
      there is no check that the post was still `Available`. */
  lemma LastClaimWins(posts: seq<FoodPost>, postId: string, first: string, second: string)
    ensures PostsClaimed(PostsClaimed(posts, postId, first), postId, second) ==
            PostsClaimed(posts, postId, second)
  {
    var once := PostsClaimed(posts, postId, second);
    var twice := PostsClaimed(PostsClaimed(posts, postId, first), postId, second);
    assert forall i :: 0 <= i < |posts| ==> twice[i] == once[i];
  }

  /** Marking a post picked up twice is marking it once. */
  lemma PickUpIdempotent(posts: seq<FoodPost>, postId: string)
    ensures PostsPickedUp(PostsPickedUp(posts, postId), postId) == PostsPickedUp(posts, postId)
  {
    var once := PostsPickedUp(posts, postId);
    assert forall i :: 0 <= i < |posts| ==> PostsPickedUp(once, postId)[i] == once[i];
  }

  /** Claiming keeps the status/claimant rule. */
  lemma ClaimKeepsConsistency(posts: seq<FoodPost>, postId: string, ngoId: string)
    requires AllConsistent(posts)
    ensures AllConsistent(PostsClaimed(posts, postId, ngoId))
  {
  }

  /** On a consistent table, marking a post picked up keeps the rule exactly
      when every post with that id already has a claimant: picking up an
      `Available` post yields a `Picked up` post with no claimant. */
  lemma PickUpConsistencyIff(posts: seq<FoodPost>, postId: string)
    requires AllConsistent(posts)
    ensures AllConsistent(PostsPickedUp(posts, postId)) <==>
            forall i :: 0 <= i < |posts| && posts[i].id == postId ==> posts[i].claimedByNgoId.Some?
  {
    var r := PostsPickedUp(posts, postId);
    if !forall i :: 0 <= i < |posts| && posts[i].id == postId ==> posts[i].claimedByNgoId.Some? {
      var i :| 0 <= i < |posts| && posts[i].id == postId && posts[i].claimedByNgoId.None?;
      assert !ClaimConsistent(r[i]);
    }
  }

  // ---------------------------------------------------------------------
  // Record construction for the two appends
  // ---------------------------------------------------------------------

  /** The user `addUser` builds: id `${role}-${stamp}` (the stamp stands for
      `Date.now()`), the given fields, and status `pending`. */
  function NewUser(name: string, email: string, password: string, role: UserRole,
                   city: string, stamp: string): (u: User)
    ensures u.status == Some(Pending) && u.password == Some(password)
    ensures u.name == name && u.email == email && u.role == role && u.city == city
    ensures u.id == RoleName(role) + "-" + stamp
  {
    User(RoleName(role) + "-" + stamp, name, email, Some(password), role, Some(Pending), city)
  }

  /** Every admin in the table is approved (the rule the seed data keeps). */
  predicate AdminsApproved(users: seq<User>)
  {
    forall i :: 0 <= i < |users| ==> users[i].role == Admin ==> users[i].status == Some(Approved)
  }

  /** `addUser` has no role check: appending keeps every admin approved
      exactly when the new user is not an admin. */
  lemma AddUserAdminRule(users: seq<User>, name: string, email: string, password: string,
                         role: UserRole, city: string, stamp: string)
    requires AdminsApproved(users)
    ensures AdminsApproved(users + [NewUser(name, email, password, role, city, stamp)]) <==> role != Admin
  {
    var all := users + [NewUser(name, email, password, role, city, stamp)];
    assert all[|users|].role == role;
  }

  /** `updateUserStatus` has no role check either: on a table whose admins
      are approved, a decision keeps that rule exactly when it approves or
      no admin carries the id. */
  lemma UpdateStatusAdminRule(users: seq<User>, userId: string, status: UserStatus)
    requires AdminsApproved(users)
    ensures AdminsApproved(UsersWithStatus(users, userId, status)) <==>
            status == Approved ||
            forall i :: 0 <= i < |users| && users[i].id == userId ==> users[i].role != Admin
  {
    var r := UsersWithStatus(users, userId, status);
    if status != Approved &&
       !forall i :: 0 <= i < |users| && users[i].id == userId ==> users[i].role != Admin {
      var i :| 0 <= i < |users| && users[i].id == userId && users[i].role == Admin;
      assert r[i].role == Admin && r[i].status == Some(status);
    }
  }

  /** The id `addFoodPost` gives a post: `post-${stamp}`. */
  function NewPostId(stamp: string): (id: string)
    ensures |id| == 5 + |stamp| && id[..5] == "post-" && id[5..] == stamp
  {
    "post-" + stamp
  }

  // ---------------------------------------------------------------------
  // Seed rows
  // ---------------------------------------------------------------------

  /** The six seeded users: one approved admin, and restaurants and NGOs in
      every status; each has a status, and no two share an id. */
  function SeedUsers(): (r: seq<User>)
    ensures |r| == 6 && AdminsApproved(r)
    ensures forall i :: 0 <= i < |r| ==> r[i].status.Some?
    ensures forall i, j :: 0 <= i < j < |r| ==> r[i].id != r[j].id
  {
    [ User("admin-1", "Admin User", "admin@foodconnect.com", Some("password123"),
           Admin, Some(Approved), "New York"),
      User("restaurant-1", "The Good Eatery", "restaurant@foodconnect.com", Some("password123"),
           Restaurant, Some(Approved), "New York"),
      User("restaurant-2", "Savory Bites", "restaurant2@foodconnect.com", Some("password123"),
           Restaurant, Some(Pending), "Los Angeles"),
      User("ngo-1", "Community Food Bank", "ngo@foodconnect.com", Some("password123"),
           Ngo, Some(Approved), "New York"),
      User("ngo-2", "Helping Hands", "ngo2@foodconnect.com", Some("password123"),
           Ngo, Some(Rejected), "New York"),
      User("ngo-3", "LA Food Share", "ngo3@foodconnect.com", Some("password123"),
           Ngo, Some(Approved), "Los Angeles") ]
  }

  /** Milliseconds in an hour; the seed expiries are `now` plus 24 and 12
      hours and minus one day (taken as 24 hours). */
  const HourMs: int := 3600000

  /** The three seeded posts, one per post status; they keep the
      status/claimant rule, and no two share an id. */
  function SeedPosts(now: int): (r: seq<FoodPost>)
    ensures |r| == 3 && AllConsistent(r)
    ensures forall i, j :: 0 <= i < j < |r| ==> r[i].id != r[j].id
    ensures r[0].status == Available && r[1].status == Claimed && r[2].status == PickedUp
  {
    [ FoodPost("post-1", "restaurant-1", "Surplus Bread Loaves", "20 loaves", now + 24 * HourMs,
               "Today, 4 PM - 6 PM", Available, None, "New York"),
      FoodPost("post-2", "restaurant-1", "Vegetable Soup", "15 liters", now + 12 * HourMs,
               "Today, 8 PM - 9 PM", Claimed, Some("ngo-1"), "New York"),
      FoodPost("post-3", "restaurant-1", "Assorted Pastries", "3 boxes", now - 24 * HourMs,
               "Yesterday, 5 PM - 7 PM", PickedUp, Some("ngo-1"), "New York") ]
  }

  /** The seed tables refer to each other correctly: every post's
      restaurant is a seeded restaurant, and every claimant a seeded NGO. */
  lemma SeedInvariants(now: int)
    ensures forall i :: 0 <= i < |SeedPosts(now)| ==>
              exists j :: 0 <= j < |SeedUsers()| && SeedUsers()[j].id == SeedPosts(now)[i].restaurantId &&
                          SeedUsers()[j].role == Restaurant
    ensures forall i :: 0 <= i < |SeedPosts(now)| && SeedPosts(now)[i].claimedByNgoId.Some? ==>
              exists j :: 0 <= j < |SeedUsers()| && Some(SeedUsers()[j].id) == SeedPosts(now)[i].claimedByNgoId &&
                          SeedUsers()[j].role == Ngo
  {
    var users, posts := SeedUsers(), SeedPosts(now);
    assert users[1].id == "restaurant-1" && users[1].role == Restaurant;
    assert users[3].id == "ngo-1" && users[3].role == Ngo;
  }

  // ---------------------------------------------------------------------
  // The module-level tables
  // ---------------------------------------------------------------------

  class Store {
    var users: seq<User>
    var foodPosts: seq<FoodPost>

    /** The tables as the module is loaded, `now` standing for `new Date()`. */
    constructor (now: int)
      ensures users == SeedUsers() && foodPosts == SeedPosts(now)
      ensures AllConsistent(foodPosts) && AdminsApproved(users)
    {
      users := SeedUsers();
      foodPosts := SeedPosts(now);
    }

    /** `updateUserStatus`: reassign `users` with the status of every user
        carrying `userId` replaced, and return the first such user. */
    method UpdateUserStatus(userId: string, status: UserStatus) returns (found: Option<User>)
      requires status != Pending
      modifies this
      ensures users == UsersWithStatus(old(users), userId, status)
      ensures foodPosts == old(foodPosts)
      ensures found.Some? <==> exists i :: 0 <= i < |old(users)| && old(users)[i].id == userId
      ensures found.Some? ==> found == Some(FindUser(old(users), userId).value.(status := Some(status)))
      ensures AdminsApproved(old(users)) ==>
                (AdminsApproved(users) <==>
                 status == Approved ||
                 forall i :: 0 <= i < |old(users)| && old(users)[i].id == userId ==> old(users)[i].role != Admin)
    {
      users := UsersWithStatus(users, userId, status);
      found := FindUser(users, userId);
      UpdatedUserReturned(old(users), userId, status);
      if AdminsApproved(old(users)) {
        UpdateStatusAdminRule(old(users), userId, status);
      }
    }

    /** The synchronous `addFoodPost`: push the draft completed with a fresh
        id and return it. */
    method AddFoodPost(post: PostDraft, stamp: string) returns (newPost: FoodPost)
      modifies this
      ensures newPost.id == NewPostId(stamp) && DraftOf(newPost) == post
      ensures foodPosts == old(foodPosts) + [newPost]
      ensures users == old(users)
      ensures AllConsistent(old(foodPosts)) && ClaimConsistent(newPost) ==> AllConsistent(foodPosts)
    {
      newPost := WithId(post, NewPostId(stamp));
      foodPosts := foodPosts + [newPost];
    }

    /** `claimFoodPost`: overwrite status and claimant of the posts carrying
        `postId`, and return the first of them. */
    method ClaimFoodPost(postId: string, ngoId: string) returns (found: Option<FoodPost>)
      modifies this
      ensures foodPosts == PostsClaimed(old(foodPosts), postId, ngoId)
      ensures users == old(users)
      ensures found == FindPost(foodPosts, postId)
      ensures found.Some? ==> found.value.status == Claimed && found.value.claimedByNgoId == Some(ngoId)
      ensures AllConsistent(old(foodPosts)) ==> AllConsistent(foodPosts)
    {
      foodPosts := PostsClaimed(foodPosts, postId, ngoId);
      found := FindPost(foodPosts, postId);
    }

    /** `markAsPickedUp`: overwrite the status of the posts carrying `postId`,
        and return the first of them. */
    method MarkAsPickedUp(postId: string) returns (found: Option<FoodPost>)
      modifies this
      ensures foodPosts == PostsPickedUp(old(foodPosts), postId)
      ensures users == old(users)
      ensures found == FindPost(foodPosts, postId)
      ensures found.Some? ==> found.value.status == PickedUp
      ensures AllConsistent(old(foodPosts)) ==>
                (AllConsistent(foodPosts) <==>
                 forall i :: 0 <= i < |old(foodPosts)| && old(foodPosts)[i].id == postId ==>
                               old(foodPosts)[i].claimedByNgoId.Some?)
    {
      foodPosts := PostsPickedUp(foodPosts, postId);
      found := FindPost(foodPosts, postId);
      if AllConsistent(old(foodPosts)) {
        PickUpConsistencyIff(old(foodPosts), postId);
      }
    }

    /** `addUser`: push a new pending user and return it. */
    method AddUser(name: string, email: string, password: string, role: UserRole,
                   city: string, stamp: string) returns (newUser: User)
      modifies this
      ensures newUser == NewUser(name, email, password, role, city, stamp)
      ensures users == old(users) + [newUser]
      ensures foodPosts == old(foodPosts)
    {
      newUser := NewUser(name, email, password, role, city, stamp);
      users := users + [newUser];
    }
  }
}
