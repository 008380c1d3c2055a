/** The permission classes of tasks_app/api/permissions.py. */
module TaskPermissions {
  import opened Wrappers
  import opened Models
  import opened Query
  import opened Http

  const BoardNotFound := "Board not found."
  const TaskNotFound := "Task not found."

  /** Python's `not v` for an id taken from the request: absent, null or 0. */
  predicate Falsy(v: Option<int>)
  {
    v.None? || v.value == 0
  }

  function HasBoardId(id: int): Board -> bool
  {
    (b: Board) => b.id == id
  }

  function HasTaskId(id: int): Task -> bool
  {
    (t: Task) => t.id == id
  }

  /** Every task's board is a row of `boards` (the foreign key the database enforces). */
  predicate TasksReferenceBoards(tasks: seq<Task>, boards: seq<Board>)
  {
    forall t :: t in tasks ==> exists b :: b in boards && b.id == t.board
  }

  /**
   * `IsBoardMember.has_permission`: only a POST is checked. A POST whose
   * `board` field is falsy passes; one naming a board that does not exist
   * raises NotFound; otherwise the requester must be a member of that board
   * (being its owner is not enough).
   */
  function IsBoardMember(requester: Requester, verb: Method, board: Option<int>, boards: seq<Board>): (d: Decision)
    ensures d == Allow || d == Deny || d == NotFound(BoardNotFound)
    ensures verb != Post || Falsy(board) ==> d == Allow
    ensures d == NotFound(BoardNotFound) <==>
      verb == Post && !Falsy(board) && forall b :: b in boards ==> b.id != board.value
    ensures d == Deny ==>
      verb == Post && exists b :: b in boards && b.id == board.value && !IsMemberOf(requester, b)
    ensures d == Allow && verb == Post && !Falsy(board) ==>
      exists b :: b in boards && b.id == board.value && IsMemberOf(requester, b)
  {
    if verb == Post then
      if Falsy(board) then Allow
      else
        match First(boards, HasBoardId(board.value))
        case None => NotFound(BoardNotFound)
        case Some(b) => if IsMemberOf(requester, b) then Allow else Deny
    else Allow
  }

  /**
   * `IsTaskOwnerBoardMember.has_permission`: with a truthy `task_id` in the
   * URL, the task must exist (else NotFound) and the requester must be a
   * member of its board; without one, the request passes.
   */
  function IsTaskOwnerBoardMember(requester: Requester, taskId: Option<int>, tasks: seq<Task>, boards: seq<Board>): (d: Decision)
    requires TasksReferenceBoards(tasks, boards)
    ensures d == Allow || d == Deny || d == NotFound(TaskNotFound)
    ensures Falsy(taskId) ==> d == Allow
    ensures d == NotFound(TaskNotFound) <==> !Falsy(taskId) && forall t :: t in tasks ==> t.id != taskId.value
    ensures d == Deny ==>
      exists t, b :: t in tasks && t.id == taskId.value && b in boards && b.id == t.board && !IsMemberOf(requester, b)
    ensures d == Allow && !Falsy(taskId) ==>
      exists t, b :: t in tasks && t.id == taskId.value && b in boards && b.id == t.board && IsMemberOf(requester, b)
  {
    if Falsy(taskId) then Allow
    else
      match First(tasks, HasTaskId(taskId.value))
      case None => NotFound(TaskNotFound)
      case Some(t) =>
        match First(boards, HasBoardId(t.board))
        case None => assert false; Deny
        case Some(b) => if IsMemberOf(requester, b) then Allow else Deny
  }

  /** `IsTaskOwnerBoardMember.has_object_permission`: membership of the task's board, nothing else. */
  function TaskObjectPermission(requester: Requester, task: Task, board: Board): (allowed: bool)
    requires board.id == task.board
    ensures allowed <==> requester.SignedIn? && requester.user.id in board.members
  {
    IsMemberOf(requester, board)
  }

  /** `IsAuthor.has_object_permission`: the requester wrote the comment. */
  function IsAuthor(requester: Requester, comment: Comment): (allowed: bool)
    ensures allowed <==> requester.SignedIn? && requester.user.id == comment.author
  {
    match requester
    case Anonymous => false
    case SignedIn(u) => u.id == comment.author
  }

  // ----- properties -----

  /** On a table with unique ids, a POST naming an existing board passes exactly when the requester is a member. */
  lemma PostToExistingBoard(requester: Requester, b: Board, boards: seq<Board>)
    requires UniqueBy(boards, (x: Board) => x.id)
    requires b in boards && b.id != 0
    ensures IsBoardMember(requester, Post, Some(b.id), boards) == (if IsMemberOf(requester, b) then Allow else Deny)
  {
    match First(boards, HasBoardId(b.id))
    case Some(found) =>
      UniqueKeyDetermines(boards, (x: Board) => x.id, found, b);
  }

  /** The owner of a board who is not among its members may not create a task on it. */
  lemma OwnerNeedsMembership(owner: User, b: Board, boards: seq<Board>)
    requires UniqueBy(boards, (x: Board) => x.id)
    requires b in boards && b.id != 0 && b.owner == owner.id && owner.id !in b.members
    ensures IsBoardMember(SignedIn(owner), Post, Some(b.id), boards) == Deny
  {
    PostToExistingBoard(SignedIn(owner), b, boards);
  }

  /** Anyone, signed in or not, passes the check with a POST that names no board. */
  lemma PostWithoutBoardPasses(requester: Requester, boards: seq<Board>)
    ensures IsBoardMember(requester, Post, None, boards) == Allow
    ensures IsBoardMember(requester, Post, Some(0), boards) == Allow
  {
  }

  /** AnonymousUser is never a member, so it is refused on every existing board. */
  lemma AnonymousRefusedOnExistingBoard(b: Board, boards: seq<Board>)
    requires b in boards && b.id != 0
    ensures IsBoardMember(Anonymous, Post, Some(b.id), boards) == Deny
  {
  }

  /** The superuser flag plays no part in the task checks. */
  lemma TaskChecksIgnoreSuperuser(u: User, verb: Method, board: Option<int>, taskId: Option<int>,
                                  tasks: seq<Task>, boards: seq<Board>, c: Comment)
    requires TasksReferenceBoards(tasks, boards)
    ensures IsBoardMember(SignedIn(u.(isSuperuser := true)), verb, board, boards)
         == IsBoardMember(SignedIn(u.(isSuperuser := false)), verb, board, boards)
    ensures IsTaskOwnerBoardMember(SignedIn(u.(isSuperuser := true)), taskId, tasks, boards)
         == IsTaskOwnerBoardMember(SignedIn(u.(isSuperuser := false)), taskId, tasks, boards)
    ensures IsAuthor(SignedIn(u.(isSuperuser := true)), c) == IsAuthor(SignedIn(u.(isSuperuser := false)), c)
  {
  }

  /** On tables with unique ids, an existing task passes exactly when the requester is a member of its board. */
  lemma ExistingTaskNeedsMembership(requester: Requester, t: Task, b: Board, tasks: seq<Task>, boards: seq<Board>)
    requires TasksReferenceBoards(tasks, boards)
    requires UniqueBy(tasks, (x: Task) => x.id) && UniqueBy(boards, (x: Board) => x.id)
    requires t in tasks && t.id != 0 && b in boards && b.id == t.board
    ensures IsTaskOwnerBoardMember(requester, Some(t.id), tasks, boards) == (if IsMemberOf(requester, b) then Allow else Deny)
  {
    match First(tasks, HasTaskId(t.id))
    case Some(ft) =>
      UniqueKeyDetermines(tasks, (x: Task) => x.id, ft, t);
      match First(boards, HasBoardId(t.board))
      case Some(fb) =>
        UniqueKeyDetermines(boards, (x: Board) => x.id, fb, b);
  }

  /** Being assignee or reviewer neither grants nor withholds the object-level task check. */
  lemma TaskObjectIgnoresRoles(requester: Requester, task: Task, board: Board, assignee: Option<UserId>, reviewer: Option<UserId>)
    requires board.id == task.board
    ensures TaskObjectPermission(requester, task, board)
         == TaskObjectPermission(requester, task.(assignee := assignee, reviewer := reviewer), board)
  {
  }

  /** The owner of the comment's board who did not write it may not delete it. */
  lemma BoardOwnerIsNotAuthor(owner: User, c: Comment, b: Board)
    requires b.owner == owner.id && c.author != owner.id
    ensures !IsAuthor(SignedIn(owner), c)
  {
  }
}
