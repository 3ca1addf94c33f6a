/** The NGO dashboard (`src/app/ngo/page.tsx`): a subscription to the posts
    of the NGO's city, the "Available" and "My Claims" tabs filtered from it,
    the claim button's unconditional write, and the role redirect. */
module NgoView {
  import opened Wrappers
  import opened Seqs
  import opened Types
  import opened Session
  import MockData

  /** The subscription `where('city', '==', user.city)`: the stored posts of
      that city, in the order the store delivers them. */
  function CityFeed(posts: seq<FoodPost>, city: string): (r: seq<FoodPost>)
    ensures forall i :: 0 <= i < |r| ==> r[i].city == city && r[i] in posts
    ensures forall i :: 0 <= i < |posts| && posts[i].city == city ==> posts[i] in r
  {
    Filter((p: FoodPost) => p.city == city, posts)
  }

  /** `posts.filter(p => p.status === 'Available')`. */
  function AvailablePosts(feed: seq<FoodPost>): (r: seq<FoodPost>)
    ensures forall i :: 0 <= i < |r| ==> r[i].status == Available && r[i] in feed
    ensures forall i :: 0 <= i < |feed| && feed[i].status == Available ==> feed[i] in r
  {
    Filter(IsAvailable, feed)
  }

  /** `posts.filter(p => p.claimedByNgoId === user?.uid)`: a missing or null
      claimant never equals a uid. */
  function MyClaims(feed: seq<FoodPost>, uid: string): (r: seq<FoodPost>)
    ensures forall i :: 0 <= i < |r| ==> r[i].claimedByNgoId == Some(uid) && r[i] in feed
    ensures forall i :: 0 <= i < |feed| && feed[i].claimedByNgoId == Some(uid) ==> feed[i] in r
  {
    Filter((p: FoodPost) => p.claimedByNgoId == Some(uid), feed)
  }

  /** Both tabs only ever show posts of the NGO's own city, whatever their
      status or claimant. */
  lemma TabsStayInCity(posts: seq<FoodPost>, city: string, uid: string)
    ensures forall i :: 0 <= i < |AvailablePosts(CityFeed(posts, city))| ==>
              AvailablePosts(CityFeed(posts, city))[i].city == city
    ensures forall i :: 0 <= i < |MyClaims(CityFeed(posts, city), uid)| ==>
              MyClaims(CityFeed(posts, city), uid)[i].city == city
  {
    var feed := CityFeed(posts, city);
    forall i | 0 <= i < |AvailablePosts(feed)|
      ensures AvailablePosts(feed)[i].city == city
    {
      var k :| 0 <= k < |feed| && feed[k] == AvailablePosts(feed)[i];
    }
    forall i | 0 <= i < |MyClaims(feed, uid)|
      ensures MyClaims(feed, uid)[i].city == city
    {
      var k :| 0 <= k < |feed| && feed[k] == MyClaims(feed, uid)[i];
    }
  }

  /** A feed that grows by a batch of posts grows each tab by that batch's
      own matches, appended after the old ones: the tabs are the order-
      preserving subsequences of the feed. */
  lemma TabsAppend(feed: seq<FoodPost>, more: seq<FoodPost>, uid: string)
    ensures AvailablePosts(feed + more) == AvailablePosts(feed) + AvailablePosts(more)
    ensures MyClaims(feed + more, uid) == MyClaims(feed, uid) + MyClaims(more, uid)
  {
    FilterAppend(IsAvailable, feed, more);
    FilterAppend((p: FoodPost) => p.claimedByNgoId == Some(uid), feed, more);
  }

  /** `handleClaim`: `updateDoc` on the post's document with status
      `Claimed` and the NGO's uid, without reading the current status. The
      update fails (and nothing changes) only when no document has that id. */
  function ClaimWrite(posts: seq<FoodPost>, postId: string, uid: string): (r: Option<seq<FoodPost>>)
    ensures r.None? <==> forall i :: 0 <= i < |posts| ==> posts[i].id != postId
    ensures r.Some? ==> r.value == MockData.PostsClaimed(posts, postId, uid)
  {
    if MockData.FindPost(posts, postId).None? then None
    else Some(MockData.PostsClaimed(posts, postId, uid))
  }

  /** After a successful claim every copy of the post in the city feed is
      `Claimed` by the claimer, whatever its status was before. */
  lemma ClaimedInFeed(posts: seq<FoodPost>, postId: string, uid: string, city: string)
    requires ClaimWrite(posts, postId, uid).Some?
    ensures var feed := CityFeed(ClaimWrite(posts, postId, uid).value, city);
            forall i :: 0 <= i < |feed| && feed[i].id == postId ==>
              feed[i].claimedByNgoId == Some(uid) && feed[i].status == Claimed
  {
    var after := ClaimWrite(posts, postId, uid).value;
    var feed := CityFeed(after, city);
    forall i | 0 <= i < |feed| && feed[i].id == postId
      ensures feed[i].claimedByNgoId == Some(uid) && feed[i].status == Claimed
    {
      var k :| 0 <= k < |after| && after[k] == feed[i];
    }
  }

  /** After a successful claim the post leaves the Available tab and shows
      in the claimer's My Claims tab; any earlier claimant silently loses it
      from theirs. */
  lemma ClaimMovesPost(posts: seq<FoodPost>, postId: string, uid: string, other: string, city: string)
    requires ClaimWrite(posts, postId, uid).Some?
    requires other != uid
    ensures var feed := CityFeed(ClaimWrite(posts, postId, uid).value, city);
            forall i :: 0 <= i < |feed| && feed[i].id == postId ==>
              feed[i] in MyClaims(feed, uid) && feed[i] !in AvailablePosts(feed)
    ensures var feed := CityFeed(ClaimWrite(posts, postId, uid).value, city);
            forall i :: 0 <= i < |MyClaims(feed, other)| ==> MyClaims(feed, other)[i].id != postId
  {
    var feed := CityFeed(ClaimWrite(posts, postId, uid).value, city);
    ClaimedInFeed(posts, postId, uid, city);
    forall i | 0 <= i < |MyClaims(feed, other)|
      ensures MyClaims(feed, other)[i].id != postId
    {
      var j :| 0 <= j < |feed| && feed[j] == MyClaims(feed, other)[i];
    }
  }

  /** The redirect effect: once loading has finished, a missing user or a
      signed-in user who is not an NGO is sent to `/login`. */
  function NgoRedirects(a: AuthState): (r: bool)
    ensures r <==> !a.loading && !SignedInAs(a, Ngo)
  {
    !a.loading && (a.user.None? || a.user.value.role != Ngo)
  }

  /** What the page renders: the spinner while loading or without a user,
      the dashboard otherwise. */
  function NgoScreenOf(a: AuthState): (s: Screen)
    ensures s == Dashboard <==> !a.loading && a.user.Some?
    ensures s != Dashboard ==> s == Spinner
  {
    if a.loading || a.user.None? then Spinner else Dashboard
  }

  /** The page does not gate on approval: a signed-in NGO sees the
      dashboard and can claim whether it is pending, approved, rejected or
      without a status. */
  lemma NgoNoApprovalGate(a: AuthState)
    requires SignedInAs(a, Ngo)
    ensures NgoScreenOf(a) == Dashboard && !NgoRedirects(a)
  {
  }
}
