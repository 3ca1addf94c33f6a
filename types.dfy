/** The record types of the application: the three closed enumerations and
    the user and food-post records (`src/lib/types.ts`). */
module Types {
  import opened Wrappers

  /** `UserRole`: exactly one of admin, restaurant, ngo. */
  datatype UserRole = Admin | Restaurant | Ngo

  /** `UserStatus`: exactly one of pending, approved, rejected. */
  datatype UserStatus = Pending | Approved | Rejected

  /** `FoodPostStatus`: exactly one of Available, Claimed, Picked up. */
  datatype FoodPostStatus = Available | Claimed | PickedUp

  /** A user record. The password is optional. The status is declared
      required, but stored documents may lack it (the migration exists to
      fill it in, and the admin table shows "N/A" for it), so it is kept
      optional here. */
  datatype User = User(
    id: string,
    name: string,
    email: string,
    password: Option<string>,
    role: UserRole,
    status: Option<UserStatus>,
    city: string)

  /** A food post. `claimedByNgoId` may be absent or null, both `None` here;
      the expiry instant is an opaque integer. */
  datatype FoodPost = FoodPost(
    id: string,
    restaurantId: string,
    itemName: string,
    quantity: string,
    expiryTime: int,
    pickupTime: string,
    status: FoodPostStatus,
    claimedByNgoId: Option<string>,
    city: string)

  /** `Omit<FoodPost, 'id'>`: a post before the store gives it an id. */
  datatype PostDraft = PostDraft(
    restaurantId: string,
    itemName: string,
    quantity: string,
    expiryTime: int,
    pickupTime: string,
    status: FoodPostStatus,
    claimedByNgoId: Option<string>,
    city: string)

  /** `{ ...draft, id }`: the draft completed with an id. */
  function WithId(d: PostDraft, id: string): (p: FoodPost)
    ensures p.id == id && DraftOf(p) == d
  {
    FoodPost(id, d.restaurantId, d.itemName, d.quantity, d.expiryTime,
             d.pickupTime, d.status, d.claimedByNgoId, d.city)
  }

  /** A post without its id. */
  function DraftOf(p: FoodPost): PostDraft
  {
    PostDraft(p.restaurantId, p.itemName, p.quantity, p.expiryTime,
              p.pickupTime, p.status, p.claimedByNgoId, p.city)
  }

  /** Splitting a post into its draft and its id loses nothing. */
  lemma DraftRoundTrip(p: FoodPost)
    ensures WithId(DraftOf(p), p.id) == p
  {
  }

  /** The status/claimant rule every post is meant to keep: an `Available`
      post has no claimant, a `Claimed` or `Picked up` post has one. */
  predicate ClaimConsistent(p: FoodPost)
  {
    p.status == Available <==> p.claimedByNgoId.None?
  }

  /** `p.status === 'Available'`. */
  const IsAvailable: FoodPost -> bool := (p: FoodPost) => p.status == Available

  /** The string literal of each role, as stored and as used in ids. */
  function RoleName(r: UserRole): (name: string)
    ensures name in {"admin", "restaurant", "ngo"}
  {
    match r
    case Admin => "admin"
    case Restaurant => "restaurant"
    case Ngo => "ngo"
  }

  /** The string literal of each user status. */
  function StatusName(s: UserStatus): (name: string)
    ensures name in {"pending", "approved", "rejected"}
  {
    match s
    case Pending => "pending"
    case Approved => "approved"
    case Rejected => "rejected"
  }

  /** Distinct roles have distinct literals. */
  lemma RoleNameInjective(a: UserRole, b: UserRole)
    ensures RoleName(a) == RoleName(b) ==> a == b
  {
  }

  /** Distinct statuses have distinct literals. */
  lemma StatusNameInjective(a: UserStatus, b: UserStatus)
    ensures StatusName(a) == StatusName(b) ==> a == b
  {
  }
}
