/** The restaurant dashboard (`src/app/restaurant/page.tsx`): the owner-
    scoped subscription, the approval gate, the construction of a new post
    from the form, and the component state that a successful post updates. */
module RestaurantView {
  import opened Wrappers
  import opened Seqs
  import opened Types
  import opened Session

  /** The `newPost` object `handlePostFood` builds from the four form fields
      and the signed-in user; `expiry` stands for `new Date(expiryDate)`. */
  function NewPost(itemName: string, quantity: string, expiry: int, pickupTime: string,
                   user: SessionUser): (d: PostDraft)
    ensures d.status == Available && d.claimedByNgoId.None?
    ensures d.city == user.city && d.restaurantId == user.uid
    ensures d.itemName == itemName && d.quantity == quantity && d.pickupTime == pickupTime
    ensures d.expiryTime == expiry
  {
    PostDraft(user.uid, itemName, quantity, expiry, pickupTime, Available, None, user.city)
  }

  /** Whatever id the store gives it, a new post keeps the status/claimant
      rule and is owned by the poster. */
  lemma NewPostConsistent(itemName: string, quantity: string, expiry: int, pickupTime: string,
                          user: SessionUser, id: string)
    ensures ClaimConsistent(WithId(NewPost(itemName, quantity, expiry, pickupTime, user), id))
    ensures OwnedBy(user.uid)(WithId(NewPost(itemName, quantity, expiry, pickupTime, user), id))
  {
  }

  /** `restaurantId == uid`, the subscription's filter. */
  function OwnedBy(uid: string): FoodPost -> bool
  {
    (p: FoodPost) => p.restaurantId == uid
  }

  /** `!!user.id`: the document has an `id` field and it is not the empty
      string, which JavaScript treats as false. */
  predicate HasId(user: SessionUser)
  {
    user.id.Some? && user.id.value != ""
  }

  /** The subscription as written: the effect returns early when the
      signed-in user's `id` field is missing or empty, and otherwise queries
      by `uid`. `None` means no subscription is set up. */
  function OwnerFeedAsWritten(user: SessionUser, stored: seq<FoodPost>): (r: Option<seq<FoodPost>>)
    ensures r.None? <==> user.id.None? || user.id == Some("")
    ensures r.Some? ==> forall i :: 0 <= i < |r.value| ==>
                          r.value[i].restaurantId == user.uid && r.value[i] in stored
    ensures r.Some? ==> forall i :: 0 <= i < |stored| && stored[i].restaurantId == user.uid ==>
                          stored[i] in r.value
  {
    if !HasId(user) then None else Some(Filter(OwnedBy(user.uid), stored))
  }

  /** A self-registered restaurant's user document stores no `id` field, so
      its subscription is never set up (nor is it for an empty `id`): stored
      posts it owns never reach the page. */
  lemma OwnerFeedMissesStoredPosts(user: SessionUser, stored: seq<FoodPost>)
    requires user.id.None? || user.id == Some("")
    requires exists i :: 0 <= i < |stored| && stored[i].restaurantId == user.uid
    ensures OwnerFeedAsWritten(user, stored).None?
    ensures |OwnerFeed(user, stored)| > 0
  {
  }

  /** The subscription as intended: the stored posts whose `restaurantId` is
      the user's uid, in delivery order, whatever the document's `id` field
      holds. Where the written guard lets the subscription through, the two
      agree. */
  function OwnerFeed(user: SessionUser, stored: seq<FoodPost>): (r: seq<FoodPost>)
    ensures forall i :: 0 <= i < |r| ==> r[i].restaurantId == user.uid && r[i] in stored
    ensures forall i :: 0 <= i < |stored| && stored[i].restaurantId == user.uid ==> stored[i] in r
    ensures user.id.Some? && user.id != Some("") ==> OwnerFeedAsWritten(user, stored) == Some(r)
  {
    Filter(OwnedBy(user.uid), stored)
  }

  /** The redirect effect: once loading has finished, a missing user or a
      signed-in user who is not a restaurant is sent to `/login`. */
  function RestaurantRedirects(a: AuthState): (r: bool)
    ensures r <==> !a.loading && !SignedInAs(a, Restaurant)
  {
    !a.loading && (a.user.None? || a.user.value.role != Restaurant)
  }

  /** What the page renders: the spinner while loading or without a user,
      the status screen while the user's status is not `approved`, the
      dashboard and post form otherwise. */
  function RestaurantScreenOf(a: AuthState): (s: Screen)
    ensures s == Dashboard <==> !a.loading && a.user.Some? && a.user.value.status == Some(Approved)
    ensures s.StatusScreen? <==> !a.loading && a.user.Some? && a.user.value.status != Some(Approved)
    ensures s.StatusScreen? ==> s.status == a.user.value.status
  {
    if a.loading || a.user.None? then Spinner
    else if a.user.value.status != Some(Approved) then StatusScreen(a.user.value.status)
    else Dashboard
  }

  /** The post form stays up (no redirect pending) only for an approved
      restaurant. */
  lemma PostFormOnlyForApprovedRestaurants(a: AuthState)
    ensures RestaurantScreenOf(a) == Dashboard && !RestaurantRedirects(a) ==>
              SignedInAs(a, Restaurant) && a.user.value.status == Some(Approved)
  {
  }

  /** The component's state: the listed posts and the form. */
  class RestaurantPage {
    var posts: seq<FoodPost>
    var isFormOpen: bool
    var isSubmitting: bool
    var itemName: string
    var quantity: string
    var expiryDate: string
    var pickupTime: string

    /** The initial `useState` values. */
    constructor ()
      ensures posts == [] && !isFormOpen && !isSubmitting
      ensures itemName == "" && quantity == "" && expiryDate == "" && pickupTime == ""
    {
      posts := [];
      isFormOpen := false;
      isSubmitting := false;
      itemName, quantity, expiryDate, pickupTime := "", "", "", "";
    }

    /** A snapshot from the owner-scoped subscription replaces the list.
        The page subscribes by `uid` as intended; for a user the written
        guard lets through, that is the snapshot the written subscription
        delivers. */
    method ReceiveSnapshot(user: SessionUser, stored: seq<FoodPost>)
      modifies this
      ensures posts == OwnerFeed(user, stored)
      ensures HasId(user) ==> OwnerFeedAsWritten(user, stored) == Some(posts)
      ensures isFormOpen == old(isFormOpen) && isSubmitting == old(isSubmitting)
      ensures itemName == old(itemName) && quantity == old(quantity)
      ensures expiryDate == old(expiryDate) && pickupTime == old(pickupTime)
    {
      posts := OwnerFeed(user, stored);
    }

    /** `handlePostFood`. Without a user nothing happens. Otherwise the post
        is sent to the store, whose answer is `created`: the id it assigned,
        or `None` when the write threw. On success the created post is
        appended to the list, the form closes and its four fields are
        cleared; on failure the list and the form are kept. Either way the
        submitting flag ends cleared. */
    method PostFood(user: Option<SessionUser>, expiry: int, created: Option<string>)
      returns (newPost: Option<FoodPost>)
      modifies this
      ensures user.None? ==> newPost.None? && posts == old(posts) && isSubmitting == old(isSubmitting)
      ensures user.None? || created.None? ==>
                itemName == old(itemName) && quantity == old(quantity) &&
                expiryDate == old(expiryDate) && pickupTime == old(pickupTime) &&
                isFormOpen == old(isFormOpen)
      ensures user.Some? && created.None? ==> newPost.None? && posts == old(posts) && !isSubmitting
      ensures user.Some? && created.Some? ==>
                && newPost == Some(WithId(NewPost(old(itemName), old(quantity), expiry, old(pickupTime),
                                                  user.value), created.value))
                && posts == old(posts) + [newPost.value]
                && itemName == "" && quantity == "" && expiryDate == "" && pickupTime == ""
                && !isFormOpen && !isSubmitting
    {
      newPost := None;
      if user.None? {
        return;
      }
      isSubmitting := true;
      var draft := NewPost(itemName, quantity, expiry, pickupTime, user.value);
      if created.Some? {
        var createdPost := WithId(draft, created.value);
        posts := posts + [createdPost];
        newPost := Some(createdPost);
        isFormOpen := false;
        itemName, quantity, expiryDate, pickupTime := "", "", "", "";
      }
      isSubmitting := false;
    }
  }
}
