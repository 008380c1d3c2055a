/** `IsOwnerOrMember` (boards_app/api/permissions.py): the object check on a board. */
module BoardPermissions {
  import opened Models
  import opened Http

  /**
   * `IsOwnerOrMember.has_object_permission`: DELETE needs the owner, every
   * other method the owner or a member. There is no superuser exception.
   */
  function IsOwnerOrMember(user: User, verb: Method, board: Board): (allowed: bool)
    ensures verb == Delete ==> (allowed <==> user.id == board.owner)
    ensures verb != Delete ==> (allowed <==> user.id == board.owner || user.id in board.members)
  {
    var isOwner := user.id == board.owner;
    var isMember := user.id in board.members;
    if verb == Delete then isOwner else isOwner || isMember
  }

  /** Whether the owner may delete does not depend on who the members are. */
  lemma DeleteIgnoresMembership(user: User, board: Board, members: set<UserId>)
    ensures IsOwnerOrMember(user, Delete, board) == IsOwnerOrMember(user, Delete, board.(members := members))
  {
  }

  /** A member who is not the owner may read and edit but not delete. */
  lemma MemberMayEditButNotDelete(user: User, board: Board, verb: Method)
    requires user.id in board.members && user.id != board.owner
    ensures IsOwnerOrMember(user, verb, board) <==> verb != Delete
  {
  }

  /** A user who is neither owner nor member is refused every method. */
  lemma OutsiderRefused(user: User, board: Board, verb: Method)
    requires user.id != board.owner && user.id !in board.members
    ensures !IsOwnerOrMember(user, verb, board)
  {
  }

  /** The superuser flag plays no part: a superuser outsider is refused like any outsider. */
  lemma NoSuperuserBypass(user: User, board: Board, verb: Method)
    ensures IsOwnerOrMember(user.(isSuperuser := true), verb, board) == IsOwnerOrMember(user.(isSuperuser := false), verb, board)
  {
  }

  /** The right to delete is the strongest: whoever may delete may use every method. */
  lemma DeleteRightIsStrongest(user: User, board: Board, verb: Method)
    requires IsOwnerOrMember(user, Delete, board)
    ensures IsOwnerOrMember(user, verb, board)
  {
  }
}
