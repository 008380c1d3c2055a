/** The task views of tasks_app/api/views.py. */
module TaskViews {
  import opened Wrappers
  import opened Models
  import opened Query
  import opened Http
  import opened TaskPermissions

  /** The task names `u` as its assignee or as its reviewer. */
  function AssignedOrReviewing(u: UserId): Task -> bool
  {
    (t: Task) => t.assignee == Some(u) || t.reviewer == Some(u)
  }

  /**
   * `AssignedToMeTaskListView.get_queryset`: the tasks whose assignee or
   * reviewer is the requesting user, in table order. Both columns live on
   * the task row, so the query joins nothing and `distinct()` removes
   * nothing. Board membership is not consulted.
   */
  function AssignedToMe(user: User, tasks: seq<Task>): (r: seq<Task>)
    ensures |r| <= |tasks|
    ensures forall t :: t in r ==> t in tasks && (t.assignee == Some(user.id) || t.reviewer == Some(user.id))
    ensures forall t :: t in tasks && (t.assignee == Some(user.id) || t.reviewer == Some(user.id)) ==> t in r
  {
    Filter(tasks, AssignedOrReviewing(user.id))
  }

  /** Each task appears once, also when the user is both its assignee and its reviewer. */
  lemma AssignedToMeOnce(user: User, tasks: seq<Task>)
    requires UniqueBy(tasks, (t: Task) => t.id)
    ensures UniqueBy(AssignedToMe(user, tasks), (t: Task) => t.id)
  {
    FilterUnique(tasks, AssignedOrReviewing(user.id), (t: Task) => t.id);
  }

  /** The list is the same whoever the members of the boards are: a task on a foreign board is still listed. */
  lemma AssignedOnForeignBoard(user: User, t: Task, tasks: seq<Task>, b: Board)
    requires t in tasks && t.assignee == Some(user.id)
    requires b.id == t.board && user.id !in b.members && user.id != b.owner
    ensures t in AssignedToMe(user, tasks)
  {
  }

  /**
   * `TasksCreateView`: the only permission class is IsBoardMember. The view
   * lists no authentication class, so the project's defaults apply;
   * `hasAuthenticators` says whether there are any. A refusal of a request
   * no authenticator accepted (AnonymousUser) becomes NotAuthenticated,
   * any other refusal a 403; NotFound from the permission passes through.
   * Once the permission passes, a create view handles only POST: OPTIONS
   * gets the metadata answer and every other method (HEAD included, as
   * there is no GET handler) a 405.
   */
  function TasksCreateAccess(requester: Requester, verb: Method, board: Option<int>, boards: seq<Board>,
                             hasAuthenticators: bool): (d: Decision)
    ensures d == Allow || d == Deny || d == NotFound(BoardNotFound) || d == NotAuthenticated
         || d == MethodNotAllowed || d == Metadata
    ensures d == MethodNotAllowed <==> verb != Post && verb != Options
    ensures d == Metadata <==> verb == Options
    ensures verb == Post && Falsy(board) ==> d == Allow
    ensures d == Allow ==> verb == Post
    ensures d == NotFound(BoardNotFound) <==>
      verb == Post && !Falsy(board) && forall b :: b in boards ==> b.id != board.value
    ensures requester.Anonymous? ==>
      (d == NotAuthenticated <==>
         hasAuthenticators && verb == Post && !Falsy(board) && exists b :: b in boards && b.id == board.value)
    ensures requester.SignedIn? || !hasAuthenticators ==> d != NotAuthenticated
    ensures d == Deny ==>
      && (requester.SignedIn? || !hasAuthenticators)
      && verb == Post && exists b :: b in boards && b.id == board.value && !IsMemberOf(requester, b)
    ensures d == Allow && verb == Post && !Falsy(board) ==>
      requester.SignedIn? && exists b :: b in boards && b.id == board.value && requester.user.id in b.members
  {
    var decision := IsBoardMember(requester, verb, board, boards);
    if decision == Deny && requester.Anonymous? && hasAuthenticators then NotAuthenticated
    else if decision != Allow then decision
    else if verb == Post then Allow
    else if verb == Options then Metadata
    else MethodNotAllowed
  }

  /** With authentication configured, an anonymous POST naming an existing board is told to authenticate. */
  lemma AnonymousPostToExistingBoard(b: Board, boards: seq<Board>)
    requires b in boards && b.id != 0
    ensures TasksCreateAccess(Anonymous, Post, Some(b.id), boards, true) == NotAuthenticated
  {
  }

  /** An anonymous POST that names no board passes every permission of the create view. */
  lemma AnonymousCreateWithoutBoard(boards: seq<Board>)
    ensures TasksCreateAccess(Anonymous, Post, None, boards, true) == Allow
    ensures TasksCreateAccess(Anonymous, Post, None, boards, false) == Allow
  {
  }
}
