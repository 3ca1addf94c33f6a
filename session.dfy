/** The signed-in user as the auth context hands it to the pages:
    `{ uid, ...userData }`, the identity provider's subject id spread
    together with the fields of the stored user document. The document has
    an `id` field only if one was stored in it; sign-up stores none. */
module Session {
  import opened Wrappers
  import opened Types

  datatype SessionUser = SessionUser(
    uid: string,
    id: Option<string>,
    name: string,
    role: UserRole,
    status: Option<UserStatus>,
    city: string)

  /** `{ user, loading }` from the auth context. */
  datatype AuthState = AuthState(loading: bool, user: Option<SessionUser>)

  /** The user is known, loading has finished, and the role is `role`. */
  predicate SignedInAs(a: AuthState, role: UserRole)
  {
    !a.loading && a.user.Some? && a.user.value.role == role
  }

  /** What a role page renders: the loading spinner, the account-status
      screen for a user not yet approved, or the page's dashboard. */
  datatype Screen = Spinner | StatusScreen(status: Option<UserStatus>) | Dashboard
}
