/**
 * The database as the views and serializers change it: a store object
 * whose tables are fields. Each write states the resulting tables; the
 * integrity of module Database is kept by every one.
 */
module Store {
  import opened Wrappers
  import opened Models
  import opened Query
  import opened Database
  import opened Auth
  import BoardSerializers

  /** `validated_data` of BoardSerializer once `save(owner=...)` has added the owner. */
  datatype BoardData = BoardData(title: string, members: set<UserId>, owner: UserId)

  /** The body and status of the registration and login responses. */
  datatype AuthReply =
    | TokenIssued(status: nat, token: string, fullname: string, email: string, userId: UserId)
      /** A `{'Error': ...}` body. */
    | Refused(status: nat, error: string)
      /** The serializer's field errors. */
    | FieldErrors(status: nat)
      /** An exception the view does not catch (500). */
    | ServerError

  function WithMembers(id: BoardId, members: set<UserId>): Board -> Board
  {
    (b: Board) => if b.id == id then b.(members := members) else b
  }

  class Store {
    var users: seq<User>
    var boards: seq<Board>
    var tasks: seq<Task>
    var comments: seq<Comment>
    var tokens: TokenTable
    var nextUserId: UserId
    var nextBoardId: BoardId

    function Snapshot(): Db
      reads this
    {
      Db(users, boards, tasks, comments, tokens, nextUserId, nextBoardId)
    }

    ghost predicate Valid()
      reads this
    {
      Database.Valid(Snapshot())
    }

    constructor (db: Db)
      requires Database.Valid(db)
      ensures Valid() && Snapshot() == db
    {
      users, boards, tasks, comments, tokens := db.users, db.boards, db.tasks, db.comments, db.tokens;
      nextUserId, nextBoardId := db.nextUserId, db.nextBoardId;
    }

    // ----- boards -----

    /** `Board.objects.create(...)` without members: appended with the next id. */
    method InsertBoard(title: string, owner: UserId) returns (board: Board)
      requires Valid()
      requires owner in UserIds(users) && |title| <= TitleMaxLength
      modifies this
      ensures Valid()
      ensures board == Board(old(nextBoardId), title, owner, {})
      ensures forall b :: b in old(boards) ==> b.id != board.id
      ensures boards == old(boards) + [board] && nextBoardId == old(nextBoardId) + 1
      ensures users == old(users) && tasks == old(tasks) && comments == old(comments)
      ensures tokens == old(tokens) && nextUserId == old(nextUserId)
    {
      board := Board(nextBoardId, title, owner, {});
      NewBoardIdIsFresh(Snapshot());
      InsertBoardKeepsValid(Snapshot(), board);
      boards := boards + [board];
      nextBoardId := nextBoardId + 1;
    }

    /** `board.members.set(members)`: the board with that id gets exactly `members`. */
    method SetMembers(id: BoardId, members: set<UserId>)
      requires Valid() && members <= UserIds(users)
      modifies this
      ensures Valid()
      ensures boards == MapRows(old(boards), WithMembers(id, members))
      ensures users == old(users) && tasks == old(tasks) && comments == old(comments)
      ensures tokens == old(tokens) && nextUserId == old(nextUserId) && nextBoardId == old(nextBoardId)
    {
      SetMembersKeepsValid(Snapshot(), id, members);
      boards := MapRows(boards, WithMembers(id, members));
    }

    /**
     * `BoardSerializer.create`: take the members out of the validated data,
     * create the board from the rest, then set its members. The board is
     * appended with the next id, has no tasks yet, and nothing else changes.
     */
    method CreateBoard(data: BoardData) returns (board: Board)
      requires Valid()
      requires data.owner in UserIds(users) && data.members <= UserIds(users)
      requires |data.title| <= TitleMaxLength
      modifies this
      ensures Valid()
      ensures board == Board(old(nextBoardId), data.title, data.owner, data.members)
      ensures boards == old(boards) + [board] && nextBoardId == old(nextBoardId) + 1
      ensures users == old(users) && tasks == old(tasks) && comments == old(comments)
      ensures tokens == old(tokens) && nextUserId == old(nextUserId)
      ensures BoardSerializers.MemberCount(board) == |data.members|
      ensures BoardSerializers.TicketCount(tasks, board.id) == 0
    {
      ghost var before := boards;
      ValidTasksReferenceBoards(Snapshot());
      var membersData := data.members;
      var created := InsertBoard(data.title, data.owner);
      SetMembers(created.id, membersData);
      SetMembersOfNewBoard(before, created, membersData);
      board := created.(members := membersData);
      BoardSerializers.UnreferencedBoardCounts(tasks, before, board.id);
    }

    /** `BoardListCreateView.perform_create`: the requesting user becomes the owner. */
    method PerformCreate(requester: User, title: string, members: set<UserId>) returns (board: Board)
      requires Valid()
      requires requester.id in UserIds(users) && members <= UserIds(users)
      requires |title| <= TitleMaxLength
      modifies this
      ensures Valid()
      ensures board.owner == requester.id && board.title == title && board.members == members
      ensures board.id == old(nextBoardId) && boards == old(boards) + [board]
      ensures nextBoardId == old(nextBoardId) + 1 && nextUserId == old(nextUserId)
      ensures users == old(users) && tasks == old(tasks) && comments == old(comments) && tokens == old(tokens)
    {
      board := CreateBoard(BoardData(title, members, requester.id));
    }

    /** Deleting a board, with its tasks and their comments. */
    method DeleteBoard(id: BoardId)
      requires Valid()
      modifies this
      ensures Valid()
      ensures Snapshot() == Database.DeleteBoard(old(Snapshot()), id)
    {
      var doomed := TasksOnBoard(tasks, id);
      comments := Filter(comments, CommentOffTasks(doomed));
      tasks := Filter(tasks, TaskOffBoard(id));
      boards := Filter(boards, BoardIsNot(id));
      DeleteBoardPreservesValid(old(Snapshot()), id);
    }

    /** Deleting a task, with its comments. */
    method DeleteTask(id: TaskId)
      requires Valid()
      modifies this
      ensures Valid()
      ensures Snapshot() == Database.DeleteTask(old(Snapshot()), id)
    {
      comments := Filter(comments, CommentOffTasks({id}));
      tasks := Filter(tasks, TaskIsNot(id));
      DeleteTaskPreservesValid(old(Snapshot()), id);
    }

    /** Deleting a user, with everything their foreign keys cascade to. */
    method DeleteUser(id: UserId)
      requires Valid()
      modifies this
      ensures Valid()
      ensures Snapshot() == Database.DeleteUser(old(Snapshot()), id)
    {
      var next := Database.DeleteUser(Snapshot(), id);
      DeleteUserPreservesValid(Snapshot(), id);
      users, boards, tasks, comments, tokens := next.users, next.boards, next.tasks, next.comments, next.tokens;
    }

    // ----- accounts -----

    /**
     * `RegistrationSerializer.save`: the checks of `RegistrationOutcome` in
     * order; on success the new account is appended with the next id.
     */
    method Register(data: RegistrationData) returns (outcome: SaveOutcome)
      requires Valid()
      modifies this
      ensures Valid()
      ensures outcome == RegistrationOutcome(old(users), old(nextUserId), data)
      ensures outcome.Saved? ==> users == old(users) + [outcome.account] && nextUserId == old(nextUserId) + 1
      ensures outcome.Saved? ==> EmailExists(users, data.email.value) && !EmailExists(old(users), data.email.value)
      ensures !outcome.Saved? ==> users == old(users) && nextUserId == old(nextUserId)
      ensures boards == old(boards) && tasks == old(tasks) && comments == old(comments)
      ensures tokens == old(tokens) && nextBoardId == old(nextBoardId)
    {
      if data.email.None? {
        return MissingEmail;
      }
      var email := data.email.value;
      if data.password != data.repeatedPassword {
        return Rejected(PasswordsDontMatch);
      }
      if EmailExists(users, email) {
        return Rejected(EmailAlreadyUsed);
      }
      var account := User(nextUserId, email, email, data.fullname, false, "");
      account := account.(password := data.password);
      if UsernameExists(users, account.username) {
        return UsernameClash;
      }
      AppendNewEmail(users, account);
      SaveUser(account);
      outcome := Saved(account);
    }

    /** `account.save()` of a new user: appended with the next id; nothing else changes. */
    method SaveUser(account: User)
      requires Valid()
      requires account.id == nextUserId && !UsernameExists(users, account.username)
      modifies this
      ensures Valid()
      ensures users == old(users) + [account] && nextUserId == old(nextUserId) + 1
      ensures boards == old(boards) && tasks == old(tasks) && comments == old(comments)
      ensures tokens == old(tokens) && nextBoardId == old(nextBoardId)
    {
      RegisterKeepsValid(Snapshot(), account);
      users := users + [account];
      nextUserId := nextUserId + 1;
    }

    /** `Token.objects.get_or_create(user=...)`, with `freshKey` standing for the generated key. */
    method IssueToken(user: UserId, freshKey: string) returns (key: string, created: bool)
      requires Valid() && user in UserIds(users)
      requires freshKey !in tokens.Values
      modifies this
      ensures Valid()
      ensures GetOrCreateToken(old(tokens), user, freshKey) == TokenGrant(tokens, key, created)
      ensures users == old(users) && boards == old(boards) && tasks == old(tasks) && comments == old(comments)
      ensures nextUserId == old(nextUserId) && nextBoardId == old(nextBoardId)
    {
      TokenKeysStayUnique(tokens, user, freshKey);
      if user in tokens {
        key, created := tokens[user], false;
      } else {
        tokens := tokens[user := freshKey];
        key, created := freshKey, true;
      }
    }

    /**
     * `RegistrationAPIView.post`: 201 with the field errors when field
     * validation fails; the save's ValidationError as a 400; an exception
     * of `save` (the absent email, the username clash) as a 500; on success
     * a token and 201, with `fullname` taken from the username (the email).
     * Boards, tasks and comments are never touched.
     */
    method RegistrationPost(data: RegistrationData, fieldsValid: bool, freshKey: string) returns (reply: AuthReply)
      requires Valid() && freshKey !in tokens.Values
      modifies this
      ensures Valid()
      ensures boards == old(boards) && tasks == old(tasks) && comments == old(comments)
      ensures nextBoardId == old(nextBoardId)
      ensures !fieldsValid ==> reply == FieldErrors(201) && Snapshot() == old(Snapshot())
      ensures fieldsValid ==> match RegistrationOutcome(old(users), old(nextUserId), data)
        case Rejected(e) => reply == Refused(400, e) && Snapshot() == old(Snapshot())
        case UsernameClash => reply == ServerError && Snapshot() == old(Snapshot())
        case MissingEmail => reply == ServerError && Snapshot() == old(Snapshot())
        case Saved(u) =>
          && users == old(users) + [u]
          && nextUserId == old(nextUserId) + 1
          && tokens == old(tokens)[u.id := freshKey]
          && reply == TokenIssued(201, freshKey, data.email.value, data.email.value, u.id)
    {
      if !fieldsValid {
        return FieldErrors(201);
      }
      var outcome := Register(data);
      match outcome
      case Rejected(e) => reply := Refused(400, e);
      case UsernameClash => reply := ServerError;
      case MissingEmail => reply := ServerError;
      case Saved(account) =>
        assert account.id !in old(tokens) by {
          assert old(tokens).Keys <= UserIds(old(users));
        }
        var key, created := IssueToken(account.id, freshKey);
        reply := TokenIssued(201, key, account.username, account.email, account.id);
    }

    /**
     * `CustomLoginView.post`: 400 with the errors when the serializer is
     * invalid; otherwise the user's token (created if absent) and 200, with
     * `fullname` taken from the username.
     */
    method LoginPost(data: LoginData, fieldsValid: bool, checkPassword: (User, string) -> bool, freshKey: string)
      returns (reply: AuthReply)
      requires Valid() && freshKey !in tokens.Values
      modifies this
      ensures Valid()
      ensures users == old(users) && boards == old(boards) && tasks == old(tasks) && comments == old(comments)
      ensures nextUserId == old(nextUserId) && nextBoardId == old(nextBoardId)
      ensures !fieldsValid ==> reply == FieldErrors(400) && tokens == old(tokens)
      ensures fieldsValid ==> match ValidateLogin(old(users), data, checkPassword)
        case LoginRefused(e) => reply == Refused(400, e) && tokens == old(tokens)
        case LoginCrashed => reply == ServerError && tokens == old(tokens)
        case LoggedIn(v) =>
          var g := GetOrCreateToken(old(tokens), v.user.id, freshKey);
          && tokens == g.tokens
          && reply == TokenIssued(200, g.key, v.user.username, v.user.email, v.user.id)
    {
      if !fieldsValid {
        return FieldErrors(400);
      }
      match ValidateLogin(users, data, checkPassword)
      case LoginRefused(e) => reply := Refused(400, e);
      case LoginCrashed => reply := ServerError;
      case LoggedIn(v) =>
        var user := v.user;
        var key, created := IssueToken(user.id, freshKey);
        reply := TokenIssued(200, key, user.username, user.email, user.id);
    }
  }

  // ----- integrity of the inserts -----

  /** The next board id is not taken. */
  lemma NewBoardIdIsFresh(db: Db)
    requires Database.Valid(db)
    ensures forall b :: b in db.boards ==> b.id != db.nextBoardId
  {
  }

  /** Setting the members of the board just appended leaves the other rows alone. */
  lemma SetMembersOfNewBoard(before: seq<Board>, created: Board, members: set<UserId>)
    requires forall b :: b in before ==> b.id != created.id
    ensures MapRows(before + [created], WithMembers(created.id, members)) == before + [created.(members := members)]
  {
    var s := before + [created];
    var r := MapRows(s, WithMembers(created.id, members));
    forall i | 0 <= i < |before| ensures r[i] == before[i] {
      assert s[i] == before[i] && before[i] in before;
    }
  }

  /** Replacing the board table keeps integrity when the new table keeps the old ids and valid rows. */
  lemma BoardsReplacedKeepsValid(db: Db, boards: seq<Board>, nextBoardId: BoardId)
    requires Database.Valid(db) && db.nextBoardId <= nextBoardId
    requires UniqueBy(boards, (x: Board) => x.id)
    requires forall b :: b in boards ==> 0 < b.id < nextBoardId && BoardFieldsValid(b)
    requires forall b :: b in boards ==> b.owner in UserIds(db.users) && b.members <= UserIds(db.users)
    requires BoardIds(db.boards) <= BoardIds(boards)
    ensures Database.Valid(db.(boards := boards, nextBoardId := nextBoardId))
  {
    var r := db.(boards := boards, nextBoardId := nextBoardId);
    assert KeysValid(r);
    assert ReferencesValid(r);
    assert FieldsValid(r);
  }

  lemma InsertBoardKeepsValid(db: Db, b: Board)
    requires Database.Valid(db)
    requires b.id == db.nextBoardId && b.owner in UserIds(db.users) && b.members == {}
    requires BoardFieldsValid(b)
    ensures Database.Valid(db.(boards := db.boards + [b], nextBoardId := db.nextBoardId + 1))
  {
    AppendUnique(db.boards, b, (x: Board) => x.id);
    assert BoardIds(db.boards) <= BoardIds(db.boards + [b]);
    BoardsReplacedKeepsValid(db, db.boards + [b], db.nextBoardId + 1);
  }

  lemma SetMembersKeepsValid(db: Db, id: BoardId, members: set<UserId>)
    requires Database.Valid(db) && members <= UserIds(db.users)
    ensures Database.Valid(db.(boards := MapRows(db.boards, WithMembers(id, members))))
  {
    var f := WithMembers(id, members);
    var boards := MapRows(db.boards, f);
    MapRowsUnique(db.boards, f, (x: Board) => x.id);
    forall x | x in db.boards ensures x.id in BoardIds(boards) {
      assert f(x) in boards;
    }
    forall b | b in boards
      ensures 0 < b.id < db.nextBoardId && BoardFieldsValid(b)
      ensures b.owner in UserIds(db.users) && b.members <= UserIds(db.users)
    {
      var x :| x in db.boards && b == f(x);
    }
    BoardsReplacedKeepsValid(db, boards, db.nextBoardId);
    assert db.(boards := boards, nextBoardId := db.nextBoardId) == db.(boards := boards);
  }

  lemma RegisterKeepsValid(db: Db, u: User)
    requires Database.Valid(db)
    requires u.id == db.nextUserId && !UsernameExists(db.users, u.username)
    ensures Database.Valid(db.(users := db.users + [u], nextUserId := db.nextUserId + 1))
  {
    var r := db.(users := db.users + [u], nextUserId := db.nextUserId + 1);
    AppendUnique(db.users, u, (x: User) => x.id);
    forall x | x in db.users ensures x.username != u.username {
      assert x !in Filter(db.users, HasUsername(u.username));
    }
    AppendUnique(db.users, u, (x: User) => x.username);
    assert UserIds(db.users) <= UserIds(r.users);
    assert KeysValid(r);
    assert ReferencesValid(r);
    assert FieldsValid(r);
  }

  /** Appending a row whose key no row has keeps the keys unique. */
  lemma AppendUnique<T, K>(s: seq<T>, x: T, key: T -> K)
    requires UniqueBy(s, key)
    requires forall y :: y in s ==> key(y) != key(x)
    ensures UniqueBy(s + [x], key)
  {
    var r := s + [x];
    forall i, j | 0 <= i < j < |r| ensures key(r[i]) != key(r[j]) {
      assert r[i] == s[i] && s[i] in s;
      if j < |s| {
        assert r[j] == s[j];
      }
    }
  }
}
