/** The derived fields of boards_app/api/serializers.py, recomputed from the tables on every read. */
module BoardSerializers {
  import opened Models
  import opened Query
  import TaskPermissions
  import Auth

  function OnBoard(id: BoardId): Task -> bool
  {
    (t: Task) => t.board == id
  }

  function WithStatus(status: string): Task -> bool
  {
    (t: Task) => t.status == status
  }

  function WithPriority(priority: string): Task -> bool
  {
    (t: Task) => t.priority == priority
  }

  function OnTask(id: TaskId): Comment -> bool
  {
    (c: Comment) => c.task == id
  }

  /** `board.tasks`: the tasks whose board is this board, in table order. */
  function BoardTasks(tasks: seq<Task>, id: BoardId): (r: seq<Task>)
    ensures forall t :: t in r ==> t in tasks && t.board == id
    ensures forall t :: t in tasks && t.board == id ==> t in r
  {
    Filter(tasks, OnBoard(id))
  }

  /** `get_member_count`: how many distinct users are members. */
  function MemberCount(b: Board): (n: nat)
  {
    |b.members|
  }

  /** `get_ticket_count`: how many tasks are on the board. */
  function TicketCount(tasks: seq<Task>, id: BoardId): (n: nat)
    ensures n <= |tasks|
  {
    |BoardTasks(tasks, id)|
  }

  /** `get_tasks_to_do_count`: the board's tasks with status "to-do". */
  function ToDoCount(tasks: seq<Task>, id: BoardId): (n: nat)
    ensures n <= TicketCount(tasks, id)
  {
    |Filter(BoardTasks(tasks, id), WithStatus("to-do"))|
  }

  /**
   * `get_tasks_high_prio_count` as written: it filters on the STATUS column
   * for "high", a value that is not a status choice.
   */
  function HighPrioCountAsWritten(tasks: seq<Task>, id: BoardId): (n: nat)
    ensures n <= TicketCount(tasks, id)
  {
    |Filter(BoardTasks(tasks, id), WithStatus("high"))|
  }

  /** The high-priority count the field's name promises: the board's tasks with priority "high". */
  function HighPrioCount(tasks: seq<Task>, id: BoardId): (n: nat)
    ensures n <= TicketCount(tasks, id)
  {
    |Filter(BoardTasks(tasks, id), WithPriority("high"))|
  }

  /** `TaskInBoardSerializer.get_comments_count`: the comments on the task. */
  function CommentsCount(comments: seq<Comment>, id: TaskId): (n: nat)
    ensures n <= |comments|
    ensures n == 0 <==> forall c :: c in comments ==> c.task != id
  {
    var on := Filter(comments, OnTask(id));
    assert on != [] ==> on[0] in on;
    |on|
  }

  /** `BoardMemberSerializer.get_fullname`: the user's first name. */
  function Fullname(u: User): (name: string)
  {
    u.firstName
  }

  // ----- properties -----

  /** A registered member is shown with the full name given at registration. */
  lemma FullnameIsRegisteredName(id: UserId, data: Auth.RegistrationData)
    requires data.email.Some?
    ensures Fullname(Auth.NewAccount(id, data)) == data.fullname
  {
  }

  /** Members are a set: adding an existing member leaves the count, a new one raises it by one. */
  lemma MemberCountOfSet(b: Board, u: UserId)
    ensures u in b.members ==> MemberCount(b.(members := b.members + {u})) == MemberCount(b)
    ensures u !in b.members ==> MemberCount(b.(members := b.members + {u})) == MemberCount(b) + 1
  {
    if u in b.members {
      assert b.members + {u} == b.members;
    }
  }

  /** With every task valid, the high-prio count as written is always 0. */
  lemma HighPrioAsWrittenIsZero(tasks: seq<Task>, id: BoardId)
    requires forall t :: t in tasks ==> TaskFieldsValid(t)
    ensures HighPrioCountAsWritten(tasks, id) == 0
  {
    FilterNone(BoardTasks(tasks, id), WithStatus("high"));
  }

  /** A board with one high-priority task: the count as written says 0, the intended one 1. */
  lemma HighPrioAsWrittenMissesHighPriority()
    ensures var t := Task(1, 1, "Fix login", "", "to-do", "high", Wrappers.None, Wrappers.None, Wrappers.None);
            HighPrioCountAsWritten([t], 1) == 0 && HighPrioCount([t], 1) == 1
  {
  }

  lemma {:induction false} StatusPartitionOf(ts: seq<Task>)
    requires forall t :: t in ts ==> TaskFieldsValid(t)
    ensures |ts| == |Filter(ts, WithStatus("to-do"))| + |Filter(ts, WithStatus("in-progress"))|
                  + |Filter(ts, WithStatus("review"))| + |Filter(ts, WithStatus("done"))|
  {
    if ts != [] {
      assert ts[0] in ts;
      ValidTaskEnumerations(ts[0]);
      StatusPartitionOf(ts[1..]);
    }
  }

  lemma {:induction false} PriorityPartitionOf(ts: seq<Task>)
    requires forall t :: t in ts ==> TaskFieldsValid(t)
    ensures |ts| == |Filter(ts, WithPriority("low"))| + |Filter(ts, WithPriority("medium"))|
                  + |Filter(ts, WithPriority("high"))|
  {
    if ts != [] {
      assert ts[0] in ts;
      ValidTaskEnumerations(ts[0]);
      PriorityPartitionOf(ts[1..]);
    }
  }

  /** With every task valid, the ticket count is the sum of the counts per status. */
  lemma TicketsByStatus(tasks: seq<Task>, id: BoardId)
    requires forall t :: t in tasks ==> TaskFieldsValid(t)
    ensures var ts := BoardTasks(tasks, id);
            TicketCount(tasks, id) == ToDoCount(tasks, id) + |Filter(ts, WithStatus("in-progress"))|
                                     + |Filter(ts, WithStatus("review"))| + |Filter(ts, WithStatus("done"))|
  {
    StatusPartitionOf(BoardTasks(tasks, id));
  }

  /** The intended high-prio count is one part of the split of the tickets by priority. */
  lemma TicketsByPriority(tasks: seq<Task>, id: BoardId)
    requires forall t :: t in tasks ==> TaskFieldsValid(t)
    ensures var ts := BoardTasks(tasks, id);
            TicketCount(tasks, id) == |Filter(ts, WithPriority("low"))| + |Filter(ts, WithPriority("medium"))|
                                     + HighPrioCount(tasks, id)
  {
    PriorityPartitionOf(BoardTasks(tasks, id));
  }

  /** A board no task refers to (a new one, say) has no tickets and nothing to do. */
  lemma UnreferencedBoardCounts(tasks: seq<Task>, boards: seq<Board>, id: BoardId)
    requires TaskPermissions.TasksReferenceBoards(tasks, boards)
    requires forall b :: b in boards ==> b.id != id
    ensures TicketCount(tasks, id) == 0 && ToDoCount(tasks, id) == 0 && HighPrioCount(tasks, id) == 0
  {
    forall t | t in tasks ensures t.board != id {
      var b :| b in boards && b.id == t.board;
    }
    FilterNone(tasks, OnBoard(id));
  }
}
