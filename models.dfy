/**
 * The persisted entities: Django's User (the fields the application reads),
 * Board (boards_app/models.py), Task and Comments (tasks_app/models.py),
 * with the closed choice lists and the column length bounds.
 */
module Models {
  import opened Wrappers

  type UserId = nat
  type BoardId = nat
  type TaskId = nat
  type CommentId = nat
  /** A `DateField` value, kept opaque (a day number). */
  type Date = nat
  /** A `DateTimeField` value assigned once by the server clock, kept opaque. */
  type Timestamp = nat

  /**
   * A Django auth user. `password` is the credential `set_password` stored;
   * how it is hashed is not modelled.
   */
  datatype User = User(
    id: UserId,
    username: string,
    email: string,
    firstName: string,
    isSuperuser: bool,
    password: string)

  /** A board: a title, exactly one owner and a set of member users. */
  datatype Board = Board(id: BoardId, title: string, owner: UserId, members: set<UserId>)

  /** A task on one board; assignee, reviewer and due date are nullable columns. */
  datatype Task = Task(
    id: TaskId,
    board: BoardId,
    title: string,
    description: string,
    status: string,
    priority: string,
    assignee: Option<UserId>,
    reviewer: Option<UserId>,
    dueDate: Option<Date>)

  /** A comment on one task by one author. */
  datatype Comment = Comment(
    id: CommentId,
    author: UserId,
    task: TaskId,
    content: string,
    createdAt: Timestamp)

  const TitleMaxLength: nat := 255
  const ContentMaxLength: nat := 255
  const StatusMaxLength: nat := 11
  const PriorityMaxLength: nat := 6

  /** The stored values of `STATUS_CHOICES`. */
  const StatusChoices: seq<string> := ["to-do", "in-progress", "review", "done"]
  /** The stored values of `PRIORITY_CHOICES`. */
  const PriorityChoices: seq<string> := ["low", "medium", "high"]

  /** The column constraints on a board row. */
  predicate BoardFieldsValid(b: Board)
  {
    |b.title| <= TitleMaxLength
  }

  /** The column and choice constraints on a task row. */
  predicate TaskFieldsValid(t: Task)
  {
    && |t.title| <= TitleMaxLength
    && |t.status| <= StatusMaxLength && t.status in StatusChoices
    && |t.priority| <= PriorityMaxLength && t.priority in PriorityChoices
  }

  /** The column constraints on a comment row. */
  predicate CommentFieldsValid(c: Comment)
  {
    |c.content| <= ContentMaxLength
  }

  /** `Board.__str__`: the board's title. */
  function BoardStr(b: Board): (s: string)
    ensures BoardFieldsValid(b) ==> |s| <= TitleMaxLength
  {
    b.title
  }

  /** Every choice fits its column, and the longest choice fills it exactly. */
  lemma ChoicesFitColumns()
    ensures forall s :: s in StatusChoices ==> |s| <= StatusMaxLength
    ensures forall s :: s in PriorityChoices ==> |s| <= PriorityMaxLength
    ensures |"in-progress"| == StatusMaxLength && |"medium"| == PriorityMaxLength
  {
  }

  /** A valid task's status is one of the four workflow states and its priority one of three levels. */
  lemma ValidTaskEnumerations(t: Task)
    requires TaskFieldsValid(t)
    ensures t.status == "to-do" || t.status == "in-progress" || t.status == "review" || t.status == "done"
    ensures t.priority == "low" || t.priority == "medium" || t.priority == "high"
    ensures t.status != "high"
  {
  }
}
