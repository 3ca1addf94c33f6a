/** The admin dashboard's read model (`src/app/admin/page.tsx`): the four
    counters, the per-city tally of approved restaurants and NGOs, the
    user-management table with its approve/reject buttons, and the role
    redirect. */
module AdminView {
  import opened Wrappers
  import opened Seqs
  import opened Types
  import opened Session

  // ---------------------------------------------------------------------
  // Counters
  // ---------------------------------------------------------------------

  /** Approved users of one role. */
  function ApprovedAs(role: UserRole): User -> bool
  {
    (u: User) => u.status == Some(Approved) && u.role == role
  }

  /** Approved users of one role living in one city. */
  function ApprovedAsIn(role: UserRole, city: string): User -> bool
  {
    (u: User) => u.status == Some(Approved) && u.role == role && u.city == city
  }

  const IsApproved: User -> bool := (u: User) => u.status == Some(Approved)

  const IsClaimedOrPickedUp: FoodPost -> bool :=
    (p: FoodPost) => p.status == Claimed || p.status == PickedUp

  datatype Stats = Stats(totalRestaurants: nat, totalNgos: nat, foodPosted: nat, foodClaimed: nat)

  /** The `stats` memo. Every post is either available or counted as claimed,
      so the claimed count never exceeds the posted count. */
  function ComputeStats(users: seq<User>, posts: seq<FoodPost>): (s: Stats)
    ensures s.foodPosted == |posts|
    ensures s.foodClaimed + |Filter(IsAvailable, posts)| == s.foodPosted
    ensures s.foodClaimed <= s.foodPosted
    ensures s.totalRestaurants <= |users| && s.totalNgos <= |users|
  {
    FilterPartition(IsAvailable, IsClaimedOrPickedUp, posts);
    Stats(|Filter(ApprovedAs(Restaurant), users)|,
          |Filter(ApprovedAs(Ngo), users)|,
          |posts|,
          |Filter(IsClaimedOrPickedUp, posts)|)
  }

  // ---------------------------------------------------------------------
  // Per-city tally
  // ---------------------------------------------------------------------

  datatype CityCounts = CityCounts(restaurants: nat, ngos: nat)

  /** The counter a role increments; admins increment none. */
  function Field(c: CityCounts, role: UserRole): nat
  {
    match role
    case Restaurant => c.restaurants
    case Ngo => c.ngos
    case Admin => 0
  }

  /** The cities of the approved users. */
  function ApprovedCities(users: seq<User>): set<string>
  {
    set i | 0 <= i < |users| && users[i].status == Some(Approved) :: users[i].city
  }

  /** One pass of the `forEach` body over user `u`: unapproved users are
      skipped; an approved user's city gets an entry, and the counter of the
      user's role goes up by one. */
  function Tally(m: map<string, CityCounts>, u: User): (r: map<string, CityCounts>)
    ensures u.status != Some(Approved) ==> r == m
    ensures u.status == Some(Approved) ==> r.Keys == m.Keys + {u.city}
    ensures forall c :: c in m && c != u.city ==> c in r && r[c] == m[c]
    ensures u.status == Some(Approved) ==>
              forall role :: Field(r[u.city], role) ==
                             (if u.city in m then Field(m[u.city], role) else 0) +
                             (if role == u.role && role != Admin then 1 else 0)
  {
    if u.status != Some(Approved) then m
    else
      var c := if u.city in m then m[u.city] else CityCounts(0, 0);
      var c' := match u.role
                case Restaurant => c.(restaurants := c.restaurants + 1)
                case Ngo => c.(ngos := c.ngos + 1)
                case Admin => c;
      m[u.city := c']
  }

  /** Visiting one more user adds its city when the user is approved. */
  lemma ApprovedCitiesSnoc(users: seq<User>)
    requires users != []
    ensures ApprovedCities(users) ==
            ApprovedCities(users[..|users| - 1]) +
            (if users[|users| - 1].status == Some(Approved) then {users[|users| - 1].city} else {})
  {
    var init := users[..|users| - 1];
    assert forall i :: 0 <= i < |init| ==> init[i] == users[i];
  }

  /** `cityCounts` after the loop has visited `users` in order. Each user
      adds at most one to one counter, so no city counts more users than
      were visited. */
  function CityData(users: seq<User>): (r: map<string, CityCounts>)
    ensures forall c :: c in r ==> r[c].restaurants + r[c].ngos <= |users|
  {
    if users == [] then map[]
    else Tally(CityData(users[..|users| - 1]), users[|users| - 1])
  }

  /** Every approved user's city has exactly one entry (an approved admin's
      city too, with zero counts), and no other city has one. */
  lemma {:induction false} CityDataKeys(users: seq<User>)
    ensures CityData(users).Keys == ApprovedCities(users)
  {
    if users != [] {
      CityDataKeys(users[..|users| - 1]);
      ApprovedCitiesSnoc(users);
    }
  }

  /** The `useMemo` that builds `cityCounts`, iterating over the users and
      creating and incrementing entries in place. */
  method BuildCityData(users: seq<User>) returns (cityCounts: map<string, CityCounts>)
    ensures cityCounts == CityData(users)
  {
    cityCounts := map[];
    var i := 0;
    while i < |users|
      invariant 0 <= i <= |users|
      invariant cityCounts == CityData(users[..i])
    {
      var u := users[i];
      assert users[..i + 1][..i] == users[..i];
      ghost var before := cityCounts;
      if u.status == Some(Approved) {
        if u.city !in cityCounts {
          cityCounts := cityCounts[u.city := CityCounts(0, 0)];
        }
        if u.role == Restaurant {
          cityCounts := cityCounts[u.city := cityCounts[u.city].(restaurants := cityCounts[u.city].restaurants + 1)];
        }
        if u.role == Ngo {
          cityCounts := cityCounts[u.city := cityCounts[u.city].(ngos := cityCounts[u.city].ngos + 1)];
        }
      }
      assert cityCounts == Tally(before, u);
      i := i + 1;
    }
    assert users[..i] == users;
  }

  /** The count a city shows for a role, zero when it has no entry. */
  function CountIn(m: map<string, CityCounts>, city: string, role: UserRole): nat
  {
    if city in m then Field(m[city], role) else 0
  }

  /** Each city's counter for a role is the number of approved users of that
      role in that city. */
  lemma {:induction false} CityCountsExact(users: seq<User>, city: string, role: UserRole)
    requires role != Admin
    ensures CountIn(CityData(users), city, role) == |Filter(ApprovedAsIn(role, city), users)|
  {
    if users != [] {
      var init := users[..|users| - 1];
      var last := users[|users| - 1];
      assert users == init + [last];
      CityCountsExact(init, city, role);
      CountInTally(CityData(init), last, city, role);
      FilterAppend(ApprovedAsIn(role, city), init, [last]);
    }
  }

  /** One tally step adds one to a city counter exactly when the visited
      user is an approved user of that role in that city. */
  lemma CountInTally(m: map<string, CityCounts>, u: User, city: string, role: UserRole)
    requires role != Admin
    ensures CountIn(Tally(m, u), city, role) ==
            CountIn(m, city, role) + |Filter(ApprovedAsIn(role, city), [u])|
  {
    assert ApprovedAsIn(role, city)(u) ==> Filter(ApprovedAsIn(role, city), [u]) == [u];
  }

  /** Visiting one more user is one more tally step. */
  lemma CityDataSnoc(users: seq<User>, u: User)
    ensures CityData(users + [u]) == Tally(CityData(users), u)
  {
    assert (users + [u])[..|users|] == users;
  }

  /** Unapproved users never create or change an entry: the tally over all
      users equals the tally over the approved ones. */
  lemma {:induction false} CityDataOnlyApproved(users: seq<User>)
    ensures CityData(users) == CityData(Filter(IsApproved, users))
  {
    if users != [] {
      var init := users[..|users| - 1];
      var last := users[|users| - 1];
      assert users == init + [last];
      CityDataOnlyApproved(init);
      OnlyApprovedStep(init, last);
    }
  }

  lemma OnlyApprovedStep(init: seq<User>, last: User)
    requires CityData(init) == CityData(Filter(IsApproved, init))
    ensures CityData(init + [last]) == CityData(Filter(IsApproved, init + [last]))
  {
    CityDataSnoc(init, last);
    FilterAppend(IsApproved, init, [last]);
    var approved := Filter(IsApproved, init);
    if IsApproved(last) {
      assert Filter(IsApproved, [last]) == [last];
      CityDataSnoc(approved, last);
    } else {
      assert Filter(IsApproved, [last]) == [];
      assert approved + [] == approved;
    }
  }

  /** Some element of a non-empty set of city names. */
  ghost function Pick(cities: set<string>): (c: string)
    requires cities != {}
    ensures c in cities
  {
    var c :| c in cities; c
  }

  /** The sum of one role's counters over all cities of a tally. */
  ghost function Total(m: map<string, CityCounts>, role: UserRole): nat
    decreases |m.Keys|
  {
    if m.Keys == {} then 0
    else
      var c := Pick(m.Keys);
      assert |(m - {c}).Keys| < |m.Keys| by {
        assert (m - {c}).Keys == m.Keys - {c};
      }
      Field(m[c], role) + Total(m - {c}, role)
  }

  /** The sum does not depend on which city is taken out first. */
  lemma {:induction false} TotalRemove(m: map<string, CityCounts>, c: string, role: UserRole)
    requires c in m
    ensures Total(m, role) == Field(m[c], role) + Total(m - {c}, role)
    decreases |m.Keys|
  {
    var d := Pick(m.Keys);
    if d != c {
      var md, mc := m - {d}, m - {c};
      assert md.Keys == m.Keys - {d};
      assert mc.Keys == m.Keys - {c};
      TotalRemove(md, c, role);
      TotalRemove(mc, d, role);
      assert md - {c} == mc - {d};
    }
  }

  /** One tally step adds one to the total of the visiting user's role. */
  lemma TotalTally(m: map<string, CityCounts>, u: User, role: UserRole)
    ensures Total(Tally(m, u), role) ==
            Total(m, role) + (if u.status == Some(Approved) && u.role == role && role != Admin then 1 else 0)
  {
    var r := Tally(m, u);
    if u.status == Some(Approved) {
      TotalRemove(r, u.city, role);
      assert r - {u.city} == m - {u.city};
      if u.city in m {
        TotalRemove(m, u.city, role);
      } else {
        assert m - {u.city} == m;
      }
    }
  }

  /** Summing a role's counters over all cities gives that role's total of
      approved users: the chart and the counters agree. */
  lemma {:induction false} CityTotalsMatchStats(users: seq<User>, role: UserRole)
    requires role != Admin
    ensures Total(CityData(users), role) == |Filter(ApprovedAs(role), users)|
  {
    if users == [] {
      assert CityData(users).Keys == {};
    } else {
      var init := users[..|users| - 1];
      var last := users[|users| - 1];
      assert users == init + [last];
      CityTotalsMatchStats(init, role);
      TotalTally(CityData(init), last, role);
      FilterAppend(ApprovedAs(role), init, [last]);
    }
  }

  /** The restaurant and NGO counters of `stats` are the sums of the chart's
      bars. */
  lemma StatsMatchCityData(users: seq<User>, posts: seq<FoodPost>)
    ensures ComputeStats(users, posts).totalRestaurants == Total(CityData(users), Restaurant)
    ensures ComputeStats(users, posts).totalNgos == Total(CityData(users), Ngo)
  {
    CityTotalsMatchStats(users, Restaurant);
    CityTotalsMatchStats(users, Ngo);
  }

  /** The property names a plain object literal inherits from
      `Object.prototype`. */
  const InheritedNames: set<string> :=
    {"constructor", "toString", "toLocaleString", "valueOf", "hasOwnProperty",
     "isPrototypeOf", "propertyIsEnumerable", "__proto__", "__defineGetter__",
     "__defineSetter__", "__lookupGetter__", "__lookupSetter__"}

  /** The loop body as written over the plain object `cityCounts = {}`: for a
      city named after an inherited member, `!cityCounts[u.city]` is false,
      so no own entry is created, the increment lands on the inherited
      member, and `Object.entries` never lists the city. */
  function TallyAsWritten(m: map<string, CityCounts>, u: User): (r: map<string, CityCounts>)
    ensures u.status == Some(Approved) && u.city in InheritedNames ==> r == m
    ensures u.city !in InheritedNames ==> r == Tally(m, u)
  {
    if u.status == Some(Approved) && u.city in InheritedNames then m else Tally(m, u)
  }

  /** The entries `Object.entries(cityCounts)` lists after the loop as
      written. */
  function CityDataAsWritten(users: seq<User>): (r: map<string, CityCounts>)
    ensures r.Keys == ApprovedCities(users) - InheritedNames
  {
    if users == [] then map[]
    else
      ApprovedCitiesSnoc(users);
      TallyAsWritten(CityDataAsWritten(users[..|users| - 1]), users[|users| - 1])
  }

  /** One approved restaurant in a city called "constructor" is counted by
      `stats` but appears nowhere in the chart, so the bars no longer sum to
      the counter; the map-based tally keeps it. */
  lemma ConstructorCityIsLost()
    ensures var users := [User("restaurant-9", "Corner Deli", "deli@example.com", None,
                               Restaurant, Some(Approved), "constructor")];
            && CityDataAsWritten(users) == map[]
            && Total(CityDataAsWritten(users), Restaurant) == 0
            && ComputeStats(users, []).totalRestaurants == 1
            && CityData(users) == map["constructor" := CityCounts(1, 0)]
  {
    var users := [User("restaurant-9", "Corner Deli", "deli@example.com", None,
                       Restaurant, Some(Approved), "constructor")];
    assert users[..0] == [];
    assert CityDataAsWritten(users).Keys == {};
    assert Filter(ApprovedAs(Restaurant), users) == users;
  }

  /** When no approved user's city is an inherited name, the loop as
      written and the map-based tally agree. */
  lemma {:induction false} AsWrittenAgreesOffInheritedNames(users: seq<User>)
    requires forall i :: 0 <= i < |users| && users[i].status == Some(Approved) ==>
               users[i].city !in InheritedNames
    ensures CityDataAsWritten(users) == CityData(users)
  {
    if users != [] {
      AsWrittenAgreesOffInheritedNames(users[..|users| - 1]);
    }
  }

  // ---------------------------------------------------------------------
  // User-management table
  // ---------------------------------------------------------------------

  /** `users.filter(u => u.role !== 'admin')`: every non-admin, in order,
      and no admin. */
  function ManagedUsers(users: seq<User>): (r: seq<User>)
    ensures forall i :: 0 <= i < |r| ==> r[i].role != Admin && r[i] in users
    ensures forall i :: 0 <= i < |users| && users[i].role != Admin ==> users[i] in r
  {
    Filter((u: User) => u.role != Admin, users)
  }

  /** ASCII `toLowerCase`: no upper-case letter is left, each upper-case
      letter becomes its lower-case letter, and every other character is
      kept. */
  function Lower(s: string): (r: string)
    ensures |r| == |s|
    ensures forall i :: 0 <= i < |r| ==> !('A' <= r[i] <= 'Z')
    ensures forall i :: 0 <= i < |s| && 'A' <= s[i] <= 'Z' ==> r[i] as int == s[i] as int + 32
    ensures forall i :: 0 <= i < |s| && !('A' <= s[i] <= 'Z') ==> r[i] == s[i]
  {
    if s == [] then []
    else [if 'A' <= s[0] <= 'Z' then (s[0] as int + 32) as char else s[0]] + Lower(s[1..])
  }

  /** A string without upper-case letters is its own lower case. */
  lemma LowerOfLowercase(s: string)
    requires forall i :: 0 <= i < |s| ==> !('A' <= s[i] <= 'Z')
    ensures Lower(s) == s
  {
    assert forall i :: 0 <= i < |s| ==> Lower(s)[i] == s[i];
  }

  /** `u.status?.toLowerCase() !== 'approved'`: approve and reject are
      offered to exactly the users not yet approved, including those with no
      status at all (a missing status compares as `undefined`). */
  function ShowsDecisionButtons(u: User): (r: bool)
    ensures r <==> u.status != Some(Approved)
  {
    match u.status
    case None => true
    case Some(s) =>
      LowerOfLowercase(StatusName(s));
      Lower(StatusName(s)) != "approved"
  }

  // ---------------------------------------------------------------------
  // Role guard
  // ---------------------------------------------------------------------

  /** The redirect effect: once loading has finished, a missing user or a
      signed-in non-admin is sent to `/login`. */
  function AdminRedirects(a: AuthState): (r: bool)
    ensures r <==> !a.loading && !SignedInAs(a, Admin)
  {
    if !a.loading && a.user.Some? then a.user.value.role != Admin
    else !a.loading && a.user.None?
  }

  /** What the page renders: the spinner while loading, without a user, or
      for a user with no status; the dashboard otherwise, whatever the role. */
  function AdminScreenOf(a: AuthState): (s: Screen)
    ensures s == Dashboard <==> !a.loading && a.user.Some? && a.user.value.status.Some?
  {
    if a.loading || a.user.None? || a.user.value.status.None? then Spinner else Dashboard
  }

  /** The dashboard stays up (no redirect pending) only for an admin; a
      signed-in non-admin with a status gets the dashboard rendered in the
      same pass that issues its redirect. */
  lemma AdminDashboardOnlyStaysForAdmins(a: AuthState)
    ensures AdminScreenOf(a) == Dashboard && !AdminRedirects(a) ==> SignedInAs(a, Admin)
    ensures !a.loading && a.user.Some? && a.user.value.role != Admin && a.user.value.status.Some? ==>
              AdminScreenOf(a) == Dashboard && AdminRedirects(a)
  {
  }
}
