# KanMind backend: access rules, counters, cascades and accounts

This project is a Dafny model of the rules in the KanMind kanban REST
backend (Django with Django REST Framework). Signed-in users create
boards, add members, put tasks on boards and comment on tasks. The model
covers:

- **Permission classes.** `IsOwnerOrMember` guards a board: DELETE needs
  the owner, every other method needs the owner or a member.
  `IsBoardMember` guards task creation, `IsTaskOwnerBoardMember` guards a
  task through its board, and `IsAuthor` guards a comment. Each is a
  decision function over the tables. The outcomes are:
  - `Allow`;
  - `Deny`: a permission class answered False;
  - `NotFound` with its detail string (404);
  - `NoObject`: the view's own lookup found nothing (404);
  - `NotAuthenticated`: how DRF reports a refusal when authentication
    is configured but no authenticator accepted the request (401/403
    "not authenticated" instead of a plain 403);
  - `MethodNotAllowed` (405);
  - `Metadata`: the OPTIONS answer.
  The view functions turn `Deny` into the view's actual answer.
- **Visibility.** The board list is every board for a superuser.
  Otherwise it is the boards the user owns or belongs to. The model
  states the query as Django runs it: a LEFT OUTER JOIN on the member
  table, then `distinct()`. It proves this equal to a plain filter that
  lists each board once. The "assigned to me" list holds the tasks whose
  assignee or reviewer is the user. The detail view's checks and its
  serializer choice are modelled too.
- **Derived fields.**
  - The board serializer's counts, the comment count per task and a
    member's full name.
  - Board creation: members are popped from the validated data, the board
    is created, then its member set is set.
- **The store.**
  - The five tables (users, boards, tasks, comments, tokens) and their
    keys, foreign keys, column bounds and choice lists.
  - The ON DELETE CASCADE chains of the foreign keys, as pure functions
    on a `Db` value, with lemmas that each keeps the integrity.
  - A `Store` class whose fields are the tables. Its methods (create a
    board, delete a board, task or user, register, issue a token, the
    registration and login endpoints) change the fields. Each method's
    contract ties the new state to those functions.
- **Accounts.**
  - Registration checks, in order: the email must be given, then the
    password confirmation, then email uniqueness, then the unique
    username column.
  - Login validation: unknown email or wrong password.
  - The email-check endpoint's ordered answers.
  - `Token.objects.get_or_create`.

Tables are sequences in primary-key order. An ORM `filter` is
`Query.Filter`, `count()` is the length of a filter, and `get()` is
`Query.Get`. `Query.Get` tells no row, one row and several rows apart;
several rows stand for Django's uncaught `MultipleObjectsReturned`,
which is a 500. Python's `not board_id` is modelled as "absent or 0".
`check_password` is a function parameter, and so is a freshly generated
token key.

Points where the code does less than its names, docstrings or comments
suggest. The model keeps them as written:

- No permission class has a superuser exception. The only bypass is in
  the board list (`BoardPermissions.NoSuperuserBypass`,
  `TaskPermissions.TaskChecksIgnoreSuperuser`,
  `BoardViews.SuperuserListedButRefused`).
- A POST that creates a task with no `board` passes `IsBoardMember`,
  although its docstring grants POST "only if the user is a member"
  (tasks_app/api/permissions.py:9-19, `TaskPermissions.PostWithoutBoardPasses`).
- `tasks_high_prio_count` filters the status column for "high", not the
  priority column. See Findings.
- On a failed field validation, the registration endpoint answers 201,
  not 400, as its docstring admits (auth_app/api/views.py:38,
  `Store.Store.RegistrationPost`).
- The registration email is optional (`User.email` allows blanks).
  Without one, `save` fails reading it: a 500
  (`Auth.RegistrationOutcome`).

## Model

| member | source | states |
|---|---|---|
| Models.BoardStr | boards_app/models.py:17-18 | a board's string form is its title, so it fits the 255-character column |
| Models.ChoicesFitColumns | tasks_app/models.py:8-35 | every status choice fits the 11-character column and every priority choice the 6-character one; "in-progress" and "medium" fill them exactly |
| Models.ValidTaskEnumerations | tasks_app/models.py:8-35 | a valid task's status is one of to-do, in-progress, review, done, and its priority one of low, medium, high; in particular the status is never "high" |
| Http.RequesterPk | tasks_app/api/permissions.py:22 | `request.user.pk` is the signed-in user's id; AnonymousUser has none |
| Query.Filter | tasks_app/api/views.py:21 | a queryset filter keeps every row that satisfies the predicate as often as the table holds it, and no other row |
| Query.Get | auth_app/api/serializers.py:59-63 | `get()` is no row iff none matches, one row iff exactly one matches (and it is that row), several rows iff two or more match |
| Query.GetOnUniqueKey | auth_app/api/serializers.py:60 | a `get()` on a unique column never finds several rows |
| Query.FilterAppend | auth_app/api/serializers.py:33 | filtering a table with a row appended is filtering the table, then the row |
| BoardPermissions.IsOwnerOrMember | boards_app/api/permissions.py:11-19 | DELETE is allowed iff the user is the owner; any other method iff the user is the owner or a member |
| BoardPermissions.DeleteIgnoresMembership | boards_app/api/permissions.py:16-17 | whether DELETE is allowed does not depend on the member set |
| BoardPermissions.MemberMayEditButNotDelete | boards_app/api/permissions.py:16-19 | a member who is not the owner is allowed every method except DELETE |
| BoardPermissions.OutsiderRefused | boards_app/api/permissions.py:12-19 | a user who is neither owner nor member is refused every method |
| BoardPermissions.NoSuperuserBypass | boards_app/api/permissions.py:11-19 | the superuser flag does not change the decision |
| BoardPermissions.DeleteRightIsStrongest | boards_app/api/permissions.py:16-19 | whoever may DELETE a board may use every method on it |
| TaskPermissions.IsBoardMember | tasks_app/api/permissions.py:13-25 | non-POST and POST with a falsy board pass; NotFound("Board not found.") iff the POST names a board that does not exist; Deny only on an existing board the requester is not a member of; Allow on a named board only when the requester is a member |
| TaskPermissions.PostToExistingBoard | tasks_app/api/permissions.py:21-22 | a POST naming an existing board passes exactly when the requester is a member of it |
| TaskPermissions.OwnerNeedsMembership | tasks_app/api/permissions.py:22 | the owner of a board who is not also a member is refused |
| TaskPermissions.PostWithoutBoardPasses | tasks_app/api/permissions.py:16-19 | a POST whose board is missing or 0 passes for anyone |
| TaskPermissions.AnonymousRefusedOnExistingBoard | tasks_app/api/permissions.py:22 | AnonymousUser is refused on every existing board |
| TaskPermissions.TaskChecksIgnoreSuperuser | tasks_app/api/permissions.py:13-55 | the superuser flag changes none of the three task-side checks |
| TaskPermissions.IsTaskOwnerBoardMember | tasks_app/api/permissions.py:33-41 | a falsy `task_id` passes; NotFound("Task not found.") iff no task has the id; Allow or Deny exactly on the existing task's board, by membership |
| TaskPermissions.ExistingTaskNeedsMembership | tasks_app/api/permissions.py:36-38 | an existing task passes exactly when the requester is a member of its board |
| TaskPermissions.TaskObjectPermission | tasks_app/api/permissions.py:43-45 | the object-level task check passes iff the requester is signed in and a member of the task's board |
| TaskPermissions.TaskObjectIgnoresRoles | tasks_app/api/permissions.py:43-45 | being assignee or reviewer neither grants nor withholds the object-level task check |
| TaskPermissions.IsAuthor | tasks_app/api/permissions.py:54-55 | allowed iff the requester is signed in and wrote the comment |
| TaskPermissions.BoardOwnerIsNotAuthor | tasks_app/api/permissions.py:54-55 | owning the comment's board does not make its owner the author |
| BoardViews.JoinMultiplicity | boards_app/api/views.py:22 | a board contributes rows to the joined query iff the user owns it or is a member |
| BoardViews.JoinRows | boards_app/api/views.py:22 | the joined query holds exactly the owned or joined boards, possibly repeated |
| BoardViews.DistinctFrom | boards_app/api/views.py:22 | `distinct()` keeps every row once and adds none |
| BoardViews.VisibleBoards | boards_app/api/views.py:16-22 | a superuser sees the whole table; anyone else sees a board iff they own it or are a member, each board once |
| BoardViews.DistinctJoinIsFilter | boards_app/api/views.py:22 | on a table with unique ids, the distinct join is the plain filter by owner-or-member, in table order, with unique ids |
| BoardViews.JoinRepeatsOwnedBoards | boards_app/api/views.py:22 | without `distinct()` an owned board with two members is listed twice |
| BoardViews.DetailSerializerFor | boards_app/api/views.py:33-37 | PATCH and PUT choose the write serializer; every other method the read serializer |
| BoardViews.BoardDetailAccess | boards_app/api/views.py:28-37 | anonymous requests are refused as unauthenticated for every method; a signed-in POST is 405 and OPTIONS always the metadata answer; any other method on a missing board is a 404, and on an existing board is allowed or refused, never anything else |
| BoardViews.DetailAccessIsOwnerOrMember | boards_app/api/views.py:28-31 | on unique ids, a signed-in GET, HEAD, PUT, PATCH or DELETE on an existing board is allowed exactly when `IsOwnerOrMember` allows it on that board |
| BoardViews.ListedIffReadable | boards_app/api/views.py:16-31 | for a non-superuser a board is listed iff its detail may be read |
| BoardViews.SuperuserListedButRefused | boards_app/api/views.py:19-20 | a superuser lists a board whose detail they are still refused |
| TaskViews.AssignedToMe | tasks_app/api/views.py:18-21 | a task is listed iff its assignee or its reviewer is the user |
| TaskViews.AssignedToMeOnce | tasks_app/api/views.py:21 | each listed task appears once, also when the user is both assignee and reviewer |
| TaskViews.AssignedOnForeignBoard | tasks_app/api/views.py:18-21 | a task is listed even on a board the user neither owns nor belongs to |
| TaskViews.TasksCreateAccess | tasks_app/api/views.py:9-12 | OPTIONS gets the metadata answer and every method but POST a 405; a board-less POST passes; a missing board is NotFound("Board not found."); an anonymous POST naming an existing board is "not authenticated" when authentication is configured; a 403 for a non-member who is signed in, or anonymous with no authenticator configured; a pass only for a POST, and on a named board only for a signed-in member |
| TaskViews.AnonymousPostToExistingBoard | tasks_app/api/views.py:9-12 | an anonymous POST naming an existing board is told to authenticate |
| TaskViews.AnonymousCreateWithoutBoard | tasks_app/api/views.py:9-12 | an anonymous POST with no board passes every permission of the create view |
| BoardSerializers.BoardTasks | boards_app/api/serializers.py:41-42 | `board.tasks` holds exactly the tasks whose board is this board |
| BoardSerializers.MemberCountOfSet | boards_app/api/serializers.py:38-39 | the member count counts distinct users: adding a member already present leaves it, a new one raises it by one |
| BoardSerializers.TicketCount | boards_app/api/serializers.py:41-42 | the ticket count is the number of the board's tasks, at most the table size |
| BoardSerializers.ToDoCount | boards_app/api/serializers.py:44-45 | the to-do count never exceeds the ticket count |
| BoardSerializers.TicketsByStatus | boards_app/api/serializers.py:41-45 | with valid tasks, the ticket count is the to-do count plus the counts of the other three statuses |
| BoardSerializers.HighPrioCountAsWritten | boards_app/api/serializers.py:47-48 | the high-prio count as written, on the status column, never exceeds the ticket count |
| BoardSerializers.HighPrioAsWrittenIsZero | boards_app/api/serializers.py:47-48 | with valid tasks, the count as written is always 0 |
| BoardSerializers.HighPrioAsWrittenMissesHighPriority | boards_app/api/serializers.py:47-48 | a board with one high-priority task gets count 0 as written and 1 as intended |
| BoardSerializers.HighPrioCount | boards_app/api/serializers.py:47-48 | the intended count, on the priority column, never exceeds the ticket count |
| BoardSerializers.TicketsByPriority | boards_app/api/serializers.py:47-48 | with valid tasks, the intended count is the high part of the split of the tickets by priority |
| BoardSerializers.CommentsCount | boards_app/api/serializers.py:87-88 | a task's comment count is 0 iff no comment is on the task, and at most the table size |
| BoardSerializers.FullnameIsRegisteredName | boards_app/api/serializers.py:62-63 | a member is shown with the first name, which is the full name given at registration |
| BoardSerializers.UnreferencedBoardCounts | boards_app/api/serializers.py:41-48 | a board no task refers to has ticket, to-do and high-prio counts 0 |
| Database.ValidTasksReferenceBoards | tasks_app/models.py:31 | in a valid database every task's board exists |
| Database.TasksOnBoard | tasks_app/models.py:31 | the doomed set holds the id of every task on the board |
| Database.DeleteBoard | tasks_app/models.py:31 | deleting a board removes it and exactly the tasks on it, and keeps a comment iff its task stays; users, tokens and the id counters are untouched |
| Database.DeleteBoardPreservesValid | tasks_app/models.py:31-50 | deleting a board keeps key, reference and column integrity |
| Database.DeleteBoardCascades | tasks_app/models.py:31-50 | after a board delete no task refers to it, no comment refers to one of its tasks, and every other comment stays |
| Database.DeleteTask | tasks_app/models.py:50 | deleting a task removes it and exactly its comments; users, boards, tokens and the id counters are untouched |
| Database.DeleteTaskPreservesValid | tasks_app/models.py:50 | deleting a task keeps key, reference and column integrity |
| Database.DeleteUser | tasks_app/models.py:36-49 | deleting a user removes exactly the user, their token, the boards they own, the tasks on those boards or naming them as assignee or reviewer, and the comments on those tasks or by them; every other board stays with the user dropped from its members, every other task and comment stays unchanged |
| Database.SurvivingBoard | boards_app/models.py:14-15 | a board the user does not own survives the user's deletion, with the user removed from its members |
| Database.SurvivingTask | tasks_app/models.py:31-37 | a surviving task is on no owned board and names the user as neither assignee nor reviewer |
| Database.DeleteUserKeepsKeys | boards_app/models.py:15 | deleting a user keeps every key unique and every id in range |
| Database.DeleteUserKeepsUsers | boards_app/models.py:15 | every other user survives |
| Database.DeleteUserKeepsBoardReferences | boards_app/models.py:14-15 | the surviving boards' owners and members all exist |
| Database.DeleteUserKeepsTaskReferences | tasks_app/models.py:31-37 | the surviving tasks' boards, assignees and reviewers all exist |
| Database.DeleteUserKeepsCommentReferences | tasks_app/models.py:49-50 | the surviving comments' tasks and authors all exist |
| Database.DeleteUserPreservesValid | tasks_app/models.py:31-50 | deleting a user keeps key, reference and column integrity |
| Database.DeleteUserLeavesNoReference | boards_app/models.py:14-15 | after a user delete no row names them as owner, member, assignee, reviewer or author, and they hold no token |
| Auth.EmailExistsMeans | auth_app/api/serializers.py:33 | the email exists iff some user has it |
| Auth.NewAccount | auth_app/api/serializers.py:37-43 | the new account's username and email are the email, its first name the full name, its credential the password; it is not a superuser |
| Auth.RegistrationOutcome | auth_app/api/serializers.py:23-45 | each outcome iff its condition, in order: an absent email fails reading it; "Passwords don't match." iff the passwords differ; "User with this email already exists." iff they match and the email is used; a username clash iff only the username is taken; success iff all checks pass, with the new account |
| Auth.ValidateLogin | auth_app/api/serializers.py:55-71 | "User doesn't exist." iff no user has the email; a crash iff several do; with exactly one holder, "Wrong password" iff its check fails, and otherwise the input data with that user added |
| Auth.EmailCheck | auth_app/api/views.py:135-150 | 400 "Email missing" iff the parameter is absent or empty; 400 "Invalid email format" iff present but lacking '@' or '.'; 404 "Email not found" iff well-formed and unknown; the one holder's id, email and first name when exactly one user has it; a crash iff several do |
| Auth.GetOrCreateToken | auth_app/api/views.py:47 | a user with a token gets it back and nothing changes; a user without one gets the fresh key stored; a row is created iff none existed |
| Auth.TokenIdempotent | auth_app/api/views.py:102 | a second call returns the same key and creates nothing |
| Auth.TokenKeysStayUnique | auth_app/api/views.py:47 | storing an unused key keeps token keys unique |
| Auth.UniqueEmailsNeverCrash | auth_app/api/serializers.py:60 | when emails are unique, login and the email check never crash on several rows |
| Auth.AppendNewEmail | auth_app/api/serializers.py:33-44 | after appending an account with a new email, `get(email=...)` finds exactly it |
| Auth.LoginAfterRegistration | auth_app/api/serializers.py:55-71 | right after a registration, logging in with the same email and password yields the new account |
| Auth.EmailCheckAfterRegistration | auth_app/api/views.py:142-148 | right after a registration, the email check returns the new account's id, email and full name |
| Store.Store.constructor | tasks_app/models.py:23-52 | a store opened on a valid database holds it |
| Store.Store.InsertBoard | boards_app/api/serializers.py:34 | the board is appended with the next id, no members and a fresh id; nothing else changes |
| Store.Store.SetMembers | boards_app/api/serializers.py:35 | the board with the id gets exactly the given members; integrity is kept |
| Store.Store.CreateBoard | boards_app/api/serializers.py:31-36 | the created board has the next id, the title, the owner and exactly the supplied members, and is appended; it starts with member count equal to its members and no tickets; nothing else changes |
| Store.Store.PerformCreate | boards_app/api/views.py:24-25 | a board created through the list view is owned by the requesting user, has the title and members given and the next board id, and is appended; the board counter advances by one; nothing else changes |
| Store.Store.DeleteBoard | tasks_app/models.py:31-50 | the new state is the board cascade of the old one, and valid |
| Store.Store.DeleteTask | tasks_app/models.py:50 | the new state is the task cascade of the old one, and valid |
| Store.Store.DeleteUser | tasks_app/models.py:36-49 | the new state is the user cascade of the old one, and valid |
| Store.Store.SaveUser | auth_app/api/serializers.py:44 | the new account is appended with the next id and integrity is kept; nothing else changes |
| Store.Store.Register | auth_app/api/serializers.py:23-45 | the outcome is the ordered registration check; on success exactly the new account is appended and its email now exists; otherwise the users are unchanged |
| Store.Store.IssueToken | auth_app/api/views.py:47 | the token table and key are those of get-or-create on the old table; integrity is kept |
| Store.Store.RegistrationPost | auth_app/api/views.py:40-58 | field errors answer 201 and change nothing; a rejected save answers 400 with its error; a missing email or a username clash is a 500 and changes nothing; success appends the account with the next id, stores a fresh token and answers 201 with token, fullname = username (the email), email and user id; boards, tasks and comments are never touched |
| Store.Store.LoginPost | auth_app/api/views.py:96-112 | field errors and refused logins answer 400 and create no token; success answers 200 with the get-or-create token, fullname = username, email and user id; only the token table can change |
| Store.BoardsReplacedKeepsValid | boards_app/models.py:13-15 | a board table with unique ids, existing owners and members, short titles and the old ids keeps integrity |
| Store.InsertBoardKeepsValid | boards_app/models.py:13-15 | appending a board with the next id, an existing owner and a short title keeps integrity |
| Store.SetMembersKeepsValid | boards_app/models.py:14 | setting a board's members to existing users keeps integrity |
| Store.SetMembersOfNewBoard | boards_app/api/serializers.py:34-35 | setting the members of the board just appended leaves every other row alone |
| Store.RegisterKeepsValid | auth_app/api/serializers.py:37-44 | appending an account with the next id and an unused username keeps integrity |

## Left out

- The HTTP transport, routing, the token authentication class and
  response rendering. Permission outcomes are `Decision` values; the
  auth endpoints answer `AuthReply` values with their status codes.
- Password hashing: the stored credential is kept as given, and
  `check_password` is a parameter of the login functions.
- Token key generation: the new key is a parameter that must not be in
  use already.
- The clock: `created_at` is an opaque number.
- The ORM: tables are sequences, and the model fixes the row order the
  database leaves open. Primary-key lookups take the first match
  (`Query.First`). That is the only match on a table with unique ids,
  which the lemmas require where it matters.
- Field validation by the serializers (types, required fields, the
  email field format, the choice list on task input). The endpoints take
  its verdict as the parameter `fieldsValid`. Request values other than
  absent, 0 or an integer (a string `board`, for instance) are not
  represented.
- Creating, updating and listing tasks and comments through
  tasks_app/api/serializers.py. That file is not part of this model. Its
  `comments_count` returns the constant 0, and the `AssignedTaskSerializer`
  imported by tasks_app/api/views.py does not exist in it. Only the
  queryset of the assigned-to-me list is modelled.
- `BoardDetailReadSerializer.get_comments_count`
  (boards_app/api/serializers.py:103-104): it is not among the declared
  fields, so it is never output.
- Routing: the detail view, the assigned-to-me list and
  `email_check_view` are modelled as declared. However,
  boards_app/api/urls.py routes only the board list,
  tasks_app/api/urls.py only task creation, and auth_app/api/urls.py
  only registration and login.
- Project settings: the default authentication classes are not part of
  this model. `TaskViews.TasksCreateAccess` takes whether there are any
  as the parameter `hasAuthenticators`.
- The content of the OPTIONS answer (DRF's metadata class): OPTIONS
  always answers `Metadata`. The lookup inside the metadata handler only
  shapes that content, and it is not modelled.
- `BoardDetailWriteSerializer` updates of title and members: only the
  choice of serializer is modelled.
- Concurrency and transactions: each store method runs alone and in
  full.
- BoardSerializers.MemberCount: carries no contract of its own. It is
  the size of the member set, and `BoardSerializers.MemberCountOfSet`
  states what that means.
- BoardSerializers.Fullname: carries no contract of its own.
  `BoardSerializers.FullnameIsRegisteredName` connects it to
  registration.
- The admin configuration: it only lays out the admin pages.

## Findings

| source | as written | input that shows it | evidently intended | confidence | as-written member | corrected member |
|---|---|---|---|---|---|---|
| boards_app/api/serializers.py:47-48 | `tasks_high_prio_count` counts the board's tasks whose **status** is "high"; no status choice is "high" (tasks_app/models.py:8-13), so on valid data the count is always 0 | a board with one task of status "to-do" and priority "high": the count is 0 | count the board's tasks whose **priority** is "high" (1 for that board) | not executed | BoardSerializers.HighPrioCountAsWritten | BoardSerializers.HighPrioCount |
