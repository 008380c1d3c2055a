/**
 * The database as one value: the five tables the core touches, the next
 * primary keys, the integrity the database and the model validation
 * guarantee, and the ON DELETE CASCADE rules of the foreign keys.
 */
module Database {
  import opened Wrappers
  import opened Models
  import opened Query
  import TaskPermissions

  /** Token rows: Token.user is a one-to-one key to the user, `key` its secret. */
  type TokenTable = map<UserId, string>

  datatype Db = Db(
    users: seq<User>,
    boards: seq<Board>,
    tasks: seq<Task>,
    comments: seq<Comment>,
    tokens: TokenTable,
    nextUserId: UserId,
    nextBoardId: BoardId)

  function UserIds(users: seq<User>): set<UserId>
  {
    set u | u in users :: u.id
  }

  function BoardIds(boards: seq<Board>): set<BoardId>
  {
    set b | b in boards :: b.id
  }

  function TaskIds(tasks: seq<Task>): set<TaskId>
  {
    set t | t in tasks :: t.id
  }

  /** A nullable foreign key: absent, or one of `ids`. */
  predicate NullOrIn(o: Option<UserId>, ids: set<UserId>)
  {
    o.Some? ==> o.value in ids
  }

  /** Primary keys and unique columns, and auto-increment ids that start at 1. */
  ghost predicate KeysValid(db: Db)
  {
    && UniqueBy(db.users, (u: User) => u.id)
    && UniqueBy(db.users, (u: User) => u.username)
    && UniqueBy(db.boards, (b: Board) => b.id)
    && UniqueBy(db.tasks, (t: Task) => t.id)
    && UniqueBy(db.comments, (c: Comment) => c.id)
    && 0 < db.nextUserId && 0 < db.nextBoardId
    && (forall u :: u in db.users ==> 0 < u.id < db.nextUserId)
    && (forall b :: b in db.boards ==> 0 < b.id < db.nextBoardId)
    && (forall u, v :: u in db.tokens && v in db.tokens && u != v ==> db.tokens[u] != db.tokens[v])
  }

  /** Every foreign key names an existing row. */
  ghost predicate ReferencesValid(db: Db)
  {
    var users := UserIds(db.users);
    && (forall b :: b in db.boards ==> b.owner in users && b.members <= users)
    && (forall t :: t in db.tasks ==>
          t.board in BoardIds(db.boards) && NullOrIn(t.assignee, users) && NullOrIn(t.reviewer, users))
    && (forall c :: c in db.comments ==> c.task in TaskIds(db.tasks) && c.author in users)
    && db.tokens.Keys <= users
  }

  /** Column lengths and choice lists. */
  ghost predicate FieldsValid(db: Db)
  {
    && (forall b :: b in db.boards ==> BoardFieldsValid(b))
    && (forall t :: t in db.tasks ==> TaskFieldsValid(t))
    && (forall c :: c in db.comments ==> CommentFieldsValid(c))
  }

  ghost predicate Valid(db: Db)
  {
    KeysValid(db) && ReferencesValid(db) && FieldsValid(db)
  }

  /** The foreign key of tasks to boards, in the form the permission checks state it. */
  lemma ValidTasksReferenceBoards(db: Db)
    requires Valid(db)
    ensures TaskPermissions.TasksReferenceBoards(db.tasks, db.boards)
  {
    forall t | t in db.tasks ensures exists b :: b in db.boards && b.id == t.board {
      var b :| b in db.boards && b.id == t.board;
    }
  }

  // ----- row predicates -----

  function BoardIsNot(id: BoardId): Board -> bool { (b: Board) => b.id != id }
  function TaskOffBoard(id: BoardId): Task -> bool { (t: Task) => t.board != id }
  function TaskIsNot(id: TaskId): Task -> bool { (t: Task) => t.id != id }
  function TaskNotIn(ids: set<TaskId>): Task -> bool { (t: Task) => t.id !in ids }
  function CommentOffTasks(ids: set<TaskId>): Comment -> bool { (c: Comment) => c.task !in ids }
  function UserIsNot(id: UserId): User -> bool { (u: User) => u.id != id }
  function NotOwnedBy(id: UserId): Board -> bool { (b: Board) => b.owner != id }
  function DropMember(id: UserId): Board -> Board { (b: Board) => b.(members := b.members - {id}) }
  function CommentSurvives(tasks: set<TaskId>, author: UserId): Comment -> bool
  {
    (c: Comment) => c.task !in tasks && c.author != author
  }

  // ----- cascades -----

  /** The ids of the tasks on board `id`. */
  function TasksOnBoard(tasks: seq<Task>, id: BoardId): (r: set<TaskId>)
    ensures forall t :: t in tasks && t.board == id ==> t.id in r
  {
    set t | t in tasks && t.board == id :: t.id
  }

  /** Deleting a board: its tasks go with it, and their comments with them. */
  function DeleteBoard(db: Db, id: BoardId): (r: Db)
    ensures r.users == db.users && r.tokens == db.tokens
    ensures r.nextUserId == db.nextUserId && r.nextBoardId == db.nextBoardId
    ensures forall b :: b in r.boards <==> b in db.boards && b.id != id
    ensures forall t :: t in r.tasks <==> t in db.tasks && t.board != id
    ensures forall c :: c in r.comments ==> c in db.comments
    ensures forall c :: c in db.comments ==>
      (c in r.comments <==> forall t :: t in db.tasks && t.id == c.task ==> t.board != id)
  {
    var doomed := TasksOnBoard(db.tasks, id);
    db.(boards := Filter(db.boards, BoardIsNot(id)),
        tasks := Filter(db.tasks, TaskOffBoard(id)),
        comments := Filter(db.comments, CommentOffTasks(doomed)))
  }

  /** Deleting a task: its comments go with it. */
  function DeleteTask(db: Db, id: TaskId): (r: Db)
    ensures r.users == db.users && r.boards == db.boards && r.tokens == db.tokens
    ensures r.nextUserId == db.nextUserId && r.nextBoardId == db.nextBoardId
    ensures forall t :: t in r.tasks <==> t in db.tasks && t.id != id
    ensures forall c :: c in r.comments <==> c in db.comments && c.task != id
  {
    db.(tasks := Filter(db.tasks, TaskIsNot(id)),
        comments := Filter(db.comments, CommentOffTasks({id})))
  }

  /** The ids of the boards `id` owns. */
  function OwnedBoards(boards: seq<Board>, id: UserId): set<BoardId>
  {
    set b | b in boards && b.owner == id :: b.id
  }

  /** The ids of the tasks that go when user `id` goes: on an owned board, or assigned to or reviewed by `id`. */
  function DoomedTasks(tasks: seq<Task>, owned: set<BoardId>, id: UserId): set<TaskId>
  {
    set t | t in tasks && (t.board in owned || t.assignee == Some(id) || t.reviewer == Some(id)) :: t.id
  }

  /**
   * Deleting a user: the boards they own (with their tasks and comments),
   * the tasks they are assignee or reviewer of (with their comments), the
   * comments they wrote, their token and their memberships.
   */
  function DeleteUser(db: Db, id: UserId): (r: Db)
    ensures forall u :: u in r.users <==> u in db.users && u.id != id
    ensures r.tokens == db.tokens - {id}
    ensures forall b :: b in r.boards ==> b.owner != id && id !in b.members
    ensures forall b :: b in r.boards ==>
      exists x :: x in db.boards && x.owner != id && b == x.(members := x.members - {id})
    ensures forall b :: b in db.boards && b.owner != id ==> b.(members := b.members - {id}) in r.boards
    ensures forall t :: t in r.tasks ==> t in db.tasks && t.assignee != Some(id) && t.reviewer != Some(id)
    ensures forall t :: t in r.tasks <==>
      t in db.tasks && t.id !in DoomedTasks(db.tasks, OwnedBoards(db.boards, id), id)
    ensures forall c :: c in r.comments ==> c in db.comments && c.author != id
    ensures forall c :: c in r.comments <==>
      c in db.comments && c.task !in DoomedTasks(db.tasks, OwnedBoards(db.boards, id), id) && c.author != id
    ensures r.nextUserId == db.nextUserId && r.nextBoardId == db.nextBoardId
  {
    var doomed := DoomedTasks(db.tasks, OwnedBoards(db.boards, id), id);
    db.(users := Filter(db.users, UserIsNot(id)),
        boards := MapRows(Filter(db.boards, NotOwnedBy(id)), DropMember(id)),
        tasks := Filter(db.tasks, TaskNotIn(doomed)),
        comments := Filter(db.comments, CommentSurvives(doomed, id)),
        tokens := db.tokens - {id})
  }

  // ----- integrity is preserved -----

  lemma DeleteBoardPreservesValid(db: Db, id: BoardId)
    requires Valid(db)
    ensures Valid(DeleteBoard(db, id))
  {
    var r := DeleteBoard(db, id);
    var doomed := TasksOnBoard(db.tasks, id);
    FilterUnique(db.boards, BoardIsNot(id), (b: Board) => b.id);
    FilterUnique(db.tasks, TaskOffBoard(id), (t: Task) => t.id);
    FilterUnique(db.comments, CommentOffTasks(doomed), (c: Comment) => c.id);
    forall t | t in r.tasks ensures t.board in BoardIds(r.boards) {
      var b :| b in db.boards && b.id == t.board;
      assert b in r.boards;
    }
    forall c | c in r.comments ensures c.task in TaskIds(r.tasks) {
      var t :| t in db.tasks && t.id == c.task;
      assert t.board != id;
      assert t in r.tasks;
    }
  }

  lemma DeleteTaskPreservesValid(db: Db, id: TaskId)
    requires Valid(db)
    ensures Valid(DeleteTask(db, id))
  {
    var r := DeleteTask(db, id);
    FilterUnique(db.tasks, TaskIsNot(id), (t: Task) => t.id);
    FilterUnique(db.comments, CommentOffTasks({id}), (c: Comment) => c.id);
    forall c | c in r.comments ensures c.task in TaskIds(r.tasks) {
      var t :| t in db.tasks && t.id == c.task;
      assert t in r.tasks;
    }
  }

  lemma DeleteUserKeepsKeys(db: Db, id: UserId)
    requires Valid(db)
    ensures KeysValid(DeleteUser(db, id))
  {
    var r := DeleteUser(db, id);
    var doomed := DoomedTasks(db.tasks, OwnedBoards(db.boards, id), id);
    var kept := Filter(db.boards, NotOwnedBy(id));
    FilterUnique(db.users, UserIsNot(id), (u: User) => u.id);
    FilterUnique(db.users, UserIsNot(id), (u: User) => u.username);
    FilterUnique(db.boards, NotOwnedBy(id), (b: Board) => b.id);
    MapRowsUnique(kept, DropMember(id), (b: Board) => b.id);
    FilterUnique(db.tasks, TaskNotIn(doomed), (t: Task) => t.id);
    FilterUnique(db.comments, CommentSurvives(doomed, id), (c: Comment) => c.id);
    forall b | b in r.boards ensures 0 < b.id < r.nextBoardId {
      var i :| 0 <= i < |r.boards| && r.boards[i] == b;
      assert kept[i] in kept;
    }
  }

  lemma DeleteUserKeepsUsers(db: Db, id: UserId)
    requires Valid(db)
    ensures forall u :: u in UserIds(db.users) && u != id ==> u in UserIds(DeleteUser(db, id).users)
  {
    var r := DeleteUser(db, id);
    forall u | u in UserIds(db.users) && u != id ensures u in UserIds(r.users) {
      var x :| x in db.users && x.id == u;
      assert x in r.users;
    }
  }

  lemma DeleteUserKeepsBoardReferences(db: Db, id: UserId)
    requires Valid(db)
    ensures var r := DeleteUser(db, id);
            forall b :: b in r.boards ==>
              b.owner in UserIds(r.users) && b.members <= UserIds(r.users) && BoardFieldsValid(b)
  {
    var r := DeleteUser(db, id);
    DeleteUserKeepsUsers(db, id);
    forall b | b in r.boards
      ensures b.owner in UserIds(r.users) && b.members <= UserIds(r.users) && BoardFieldsValid(b)
    {
      var x :| x in Filter(db.boards, NotOwnedBy(id)) && b == DropMember(id)(x);
    }
  }

  /** A task that survives the user's deletion is not on an owned board and does not name the user. */
  lemma SurvivingTask(tasks: seq<Task>, owned: set<BoardId>, id: UserId, t: Task)
    requires t in tasks && t.id !in DoomedTasks(tasks, owned, id)
    ensures t.board !in owned && t.assignee != Some(id) && t.reviewer != Some(id)
  {
  }

  /** A board not owned by the deleted user survives it, without that user among its members. */
  lemma SurvivingBoard(db: Db, id: UserId, b: Board)
    requires b in db.boards && b.id !in OwnedBoards(db.boards, id)
    ensures b.(members := b.members - {id}) in DeleteUser(db, id).boards
    ensures b.id in BoardIds(DeleteUser(db, id).boards)
  {
    var kept := Filter(db.boards, NotOwnedBy(id));
    assert b in kept;
    var i :| 0 <= i < |kept| && kept[i] == b;
    assert DeleteUser(db, id).boards[i] == DropMember(id)(b);
  }

  lemma DeleteUserKeepsTaskReferences(db: Db, id: UserId)
    requires Valid(db)
    ensures var r := DeleteUser(db, id);
            forall t :: t in r.tasks ==>
              t.board in BoardIds(r.boards) && NullOrIn(t.assignee, UserIds(r.users))
              && NullOrIn(t.reviewer, UserIds(r.users)) && TaskFieldsValid(t)
  {
    var r := DeleteUser(db, id);
    var owned := OwnedBoards(db.boards, id);
    var doomed := DoomedTasks(db.tasks, owned, id);
    DeleteUserKeepsUsers(db, id);
    forall t | t in r.tasks
      ensures t.board in BoardIds(r.boards) && NullOrIn(t.assignee, UserIds(r.users))
      ensures NullOrIn(t.reviewer, UserIds(r.users)) && TaskFieldsValid(t)
    {
      assert t in db.tasks && t.id !in doomed;
      SurvivingTask(db.tasks, owned, id, t);
      var b :| b in db.boards && b.id == t.board;
      SurvivingBoard(db, id, b);
    }
  }

  /** A task id outside `doomed` is still there after the doomed tasks go. */
  lemma KeptTaskId(tasks: seq<Task>, doomed: set<TaskId>, id: TaskId)
    requires id in TaskIds(tasks) && id !in doomed
    ensures id in TaskIds(Filter(tasks, TaskNotIn(doomed)))
  {
    var t :| t in tasks && t.id == id;
    assert t in Filter(tasks, TaskNotIn(doomed));
  }

  lemma DeleteUserKeepsCommentReferences(db: Db, id: UserId)
    requires Valid(db)
    ensures var r := DeleteUser(db, id);
            forall c :: c in r.comments ==>
              c.task in TaskIds(r.tasks) && c.author in UserIds(r.users) && CommentFieldsValid(c)
  {
    var r := DeleteUser(db, id);
    var doomed := DoomedTasks(db.tasks, OwnedBoards(db.boards, id), id);
    DeleteUserKeepsUsers(db, id);
    assert r.tasks == Filter(db.tasks, TaskNotIn(doomed));
    forall c | c in r.comments ensures c.task in TaskIds(r.tasks) {
      assert CommentSurvives(doomed, id)(c);
      KeptTaskId(db.tasks, doomed, c.task);
    }
  }

  lemma DeleteUserPreservesValid(db: Db, id: UserId)
    requires Valid(db)
    ensures Valid(DeleteUser(db, id))
  {
    DeleteUserKeepsKeys(db, id);
    DeleteUserKeepsUsers(db, id);
    DeleteUserKeepsBoardReferences(db, id);
    DeleteUserKeepsTaskReferences(db, id);
    DeleteUserKeepsCommentReferences(db, id);
  }

  // ----- nothing of the deleted row is left behind -----

  /**
   * After a board is deleted no task refers to it and no comment refers to
   * one of its tasks; every other task and comment is still there.
   */
  lemma DeleteBoardCascades(db: Db, id: BoardId)
    requires Valid(db)
    ensures var r := DeleteBoard(db, id);
            && id !in BoardIds(r.boards)
            && (forall t :: t in r.tasks ==> t.board != id)
            && (forall c :: c in r.comments ==> c.task !in TasksOnBoard(db.tasks, id))
            && (forall c :: c in db.comments && c.task !in TasksOnBoard(db.tasks, id) ==> c in r.comments)
  {
    var r := DeleteBoard(db, id);
    forall c | c in db.comments && c.task !in TasksOnBoard(db.tasks, id) ensures c in r.comments {
      forall t | t in db.tasks && t.id == c.task ensures t.board != id {
      }
    }
    forall c | c in r.comments ensures c.task !in TasksOnBoard(db.tasks, id) {
      var t :| t in db.tasks && t.id == c.task;
      assert t.board != id;
      forall t' | t' in db.tasks && t'.id == c.task ensures t'.board != id {
        UniqueKeyDetermines(db.tasks, (x: Task) => x.id, t, t');
      }
    }
  }

  /** After a user is deleted, no row of any table refers to them. */
  lemma DeleteUserLeavesNoReference(db: Db, id: UserId)
    requires Valid(db)
    ensures var r := DeleteUser(db, id);
            && id !in UserIds(r.users) && id !in r.tokens
            && (forall b :: b in r.boards ==> b.owner != id && id !in b.members)
            && (forall t :: t in r.tasks ==>
                  t.assignee != Some(id) && t.reviewer != Some(id) && t.board in BoardIds(r.boards))
            && (forall c :: c in r.comments ==> c.author != id && c.task in TaskIds(r.tasks))
  {
    DeleteUserPreservesValid(db, id);
  }
}
