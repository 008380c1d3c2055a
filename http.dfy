/** What a request carries into a permission check, and what the check answers. */
module Http {
  import opened Wrappers
  import opened Models

  datatype Method = Get | Post | Put | Patch | Delete | Head | Options

  /** `request.user`: a signed-in user, or Django's AnonymousUser. */
  datatype Requester = Anonymous | SignedIn(user: User)

  /** `request.user.pk`: AnonymousUser has none. */
  function RequesterPk(r: Requester): (pk: Option<UserId>)
    ensures pk.Some? <==> r.SignedIn?
    ensures r.SignedIn? ==> pk == Some(r.user.id)
  {
    match r
    case Anonymous => None
    case SignedIn(u) => Some(u.id)
  }

  /** `board.members.filter(pk=request.user.pk).exists()`. */
  predicate IsMemberOf(r: Requester, b: Board)
  {
    RequesterPk(r).Some? && RequesterPk(r).value in b.members
  }

  /** The outcome of the permission checks for one request. */
  datatype Decision =
    | Allow
      /** A permission class answered False (403). */
    | Deny
      /** A permission class raised NotFound with this detail (404). */
    | NotFound(detail: string)
      /** The view's object lookup found no row (404). */
    | NoObject
      /**
       * The request was refused without any authenticator accepting it:
       * DRF's `permission_denied` raises NotAuthenticated instead of 403.
       */
    | NotAuthenticated
      /** The view has no handler for the method (405). */
    | MethodNotAllowed
      /** OPTIONS, answered by DRF's metadata handler without an object check. */
    | Metadata
}
