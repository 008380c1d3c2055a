/** The board views of boards_app/api/views.py: list visibility, detail access, serializer choice. */
module BoardViews {
  import opened Models
  import opened Query
  import opened Http
  import opened BoardPermissions
  import TaskPermissions

  /** The board's owner is `u`, or `u` is one of its members. */
  predicate OwnerOrMember(u: UserId, b: Board)
  {
    b.owner == u || u in b.members
  }

  function OwnedOrJoinedBy(u: UserId): Board -> bool
  {
    (b: Board) => OwnerOrMember(u, b)
  }

  /** `k` copies of `b`. */
  function Repeat(b: Board, k: nat): (r: seq<Board>)
    ensures |r| == k
    ensures forall x :: x in r ==> x == b
  {
    if k == 0 then [] else [b] + Repeat(b, k - 1)
  }

  /**
   * How many rows board `b` contributes to
   * `Board.objects.filter(Q(owner=u) | Q(members=u))`: the query joins the
   * member table with a LEFT OUTER JOIN, so an owned board yields one row per
   * member (one row when it has none) and a joined board yields the row of
   * `u`'s membership.
   */
  function JoinMultiplicity(u: UserId, b: Board): (k: nat)
    ensures k > 0 <==> OwnerOrMember(u, b)
  {
    if b.owner == u then (if |b.members| == 0 then 1 else |b.members|)
    else if u in b.members then 1
    else 0
  }

  /** The rows of the joined query before `distinct()`. */
  function JoinRows(u: UserId, boards: seq<Board>): (r: seq<Board>)
    ensures forall x :: x in r ==> x in boards && OwnerOrMember(u, x)
    ensures forall x :: x in boards && OwnerOrMember(u, x) ==> x in r
  {
    if boards == [] then []
    else Repeat(boards[0], JoinMultiplicity(u, boards[0])) + JoinRows(u, boards[1..])
  }

  /** `distinct()`: the first occurrence of every row not yet `seen`, in order. */
  function DistinctFrom(s: seq<Board>, seen: set<Board>): (r: seq<Board>)
    ensures forall x :: x in r ==> x in s && x !in seen
    ensures forall x :: x in s && x !in seen ==> x in r
    ensures NoDuplicates(r)
  {
    if s == [] then []
    else if s[0] in seen then DistinctFrom(s[1..], seen)
    else
      var rest := DistinctFrom(s[1..], seen + {s[0]});
      assert forall k :: 0 <= k < |rest| ==> rest[k] != s[0];
      [s[0]] + rest
  }

  /**
   * `BoardListCreateView.get_queryset`: every board for a superuser,
   * otherwise the boards `user` owns or is a member of, each once.
   */
  function VisibleBoards(user: User, boards: seq<Board>): (r: seq<Board>)
    ensures user.isSuperuser ==> r == boards
    ensures !user.isSuperuser ==> forall b :: b in r ==> b in boards && OwnerOrMember(user.id, b)
    ensures !user.isSuperuser ==> forall b :: b in boards && OwnerOrMember(user.id, b) ==> b in r
    ensures !user.isSuperuser ==> NoDuplicates(r)
  {
    if user.isSuperuser then boards
    else DistinctFrom(JoinRows(user.id, boards), {})
  }

  // ----- distinct() over the join is the plain filter -----

  /** Copies of a row already seen add nothing. */
  lemma {:induction false} DistinctSkipsSeen(b: Board, k: nat, t: seq<Board>, seen: set<Board>)
    requires b in seen
    ensures DistinctFrom(Repeat(b, k) + t, seen) == DistinctFrom(t, seen)
  {
    if k == 0 {
      assert Repeat(b, k) + t == t;
    } else {
      var s := Repeat(b, k) + t;
      assert s[0] == b;
      assert s[1..] == Repeat(b, k - 1) + t;
      DistinctSkipsSeen(b, k - 1, t, seen);
    }
  }

  lemma DistinctAfterRepeat(b: Board, k: nat, t: seq<Board>, seen: set<Board>)
    ensures DistinctFrom(Repeat(b, k) + t, seen) ==
      if k > 0 && b !in seen then [b] + DistinctFrom(t, seen + {b}) else DistinctFrom(t, seen)
  {
    if k == 0 {
      assert Repeat(b, k) + t == t;
    } else if b in seen {
      DistinctSkipsSeen(b, k, t, seen);
    } else {
      var s := Repeat(b, k) + t;
      assert s[0] == b;
      assert s[1..] == Repeat(b, k - 1) + t;
      DistinctSkipsSeen(b, k - 1, t, seen + {b});
    }
  }

  lemma {:induction false} DistinctJoinFrom(u: UserId, boards: seq<Board>, seen: set<Board>)
    requires NoDuplicates(boards)
    requires forall b :: b in boards ==> b !in seen
    ensures DistinctFrom(JoinRows(u, boards), seen) == Filter(boards, OwnedOrJoinedBy(u))
  {
    if boards != [] {
      var b, rest := boards[0], boards[1..];
      assert NoDuplicates(rest) by {
        forall i, j | 0 <= i < j < |rest| ensures rest[i] != rest[j] {
          assert rest[i] == boards[i + 1] && rest[j] == boards[j + 1];
        }
      }
      assert b !in rest by {
        forall k | 0 <= k < |rest| ensures rest[k] != b {
          assert rest[k] == boards[k + 1];
        }
      }
      var k := JoinMultiplicity(u, b);
      DistinctAfterRepeat(b, k, JoinRows(u, rest), seen);
      if k > 0 {
        DistinctJoinFrom(u, rest, seen + {b});
      } else {
        DistinctJoinFrom(u, rest, seen);
      }
    }
  }

  /**
   * On a board table with unique ids, the distinct join yields exactly the
   * boards the user owns or belongs to, in table order, each once.
   */
  lemma DistinctJoinIsFilter(u: UserId, boards: seq<Board>)
    requires UniqueBy(boards, (b: Board) => b.id)
    ensures DistinctFrom(JoinRows(u, boards), {}) == Filter(boards, OwnedOrJoinedBy(u))
    ensures UniqueBy(DistinctFrom(JoinRows(u, boards), {}), (b: Board) => b.id)
  {
    NoDuplicatesOfUnique(boards, (b: Board) => b.id);
    DistinctJoinFrom(u, boards, {});
    FilterUnique(boards, OwnedOrJoinedBy(u), (b: Board) => b.id);
  }

  /** Without `distinct()` an owner would see a board once per member. */
  lemma JoinRepeatsOwnedBoards()
    ensures |JoinRows(1, [Board(1, "b", 1, {2, 3})])| == 2
  {
    var b := Board(1, "b", 1, {2, 3});
    assert |b.members| == 2 by {
      assert b.members == {2} + {3};
    }
    assert JoinRows(1, [b]) == Repeat(b, 2) + JoinRows(1, []);
  }

  // ----- perform_create, get_serializer_class, the detail view -----

  /** The serializers `BoardDetailView.get_serializer_class` chooses between. */
  datatype DetailSerializer = DetailRead | DetailWrite

  /** PATCH and PUT write through the member-editing serializer; every other method reads. */
  function DetailSerializerFor(verb: Method): (s: DetailSerializer)
    ensures s == DetailWrite <==> verb == Patch || verb == Put
  {
    if verb == Patch || verb == Put then DetailWrite else DetailRead
  }

  /**
   * `BoardDetailView`: IsAuthenticated refuses AnonymousUser for every
   * method. A signed-in POST finds no handler on a retrieve-update-destroy
   * view (405) and OPTIONS is answered by the metadata handler; HEAD runs
   * the GET handler. Every other method looks the board up by id (404 when
   * absent) and runs `IsOwnerOrMember` on the board found.
   */
  function BoardDetailAccess(requester: Requester, verb: Method, id: BoardId, boards: seq<Board>): (d: Decision)
    ensures requester.Anonymous? <==> d == NotAuthenticated
    ensures d == MethodNotAllowed <==> requester.SignedIn? && verb == Post
    ensures d == Metadata <==> requester.SignedIn? && verb == Options
    ensures d == NoObject <==>
      requester.SignedIn? && verb != Post && verb != Options && forall b :: b in boards ==> b.id != id
    ensures requester.SignedIn? && verb != Post && verb != Options && (exists b :: b in boards && b.id == id) ==>
      d == Allow || d == Deny
    ensures d == Allow ==>
      verb != Post && verb != Options && exists b :: b in boards && b.id == id && IsOwnerOrMember(requester.user, verb, b)
    ensures d == Deny ==>
      verb != Post && verb != Options && exists b :: b in boards && b.id == id && !IsOwnerOrMember(requester.user, verb, b)
  {
    match requester
    case Anonymous => NotAuthenticated
    case SignedIn(u) =>
      if verb == Post then MethodNotAllowed
      else if verb == Options then Metadata
      else
        match First(boards, TaskPermissions.HasBoardId(id))
        case None => NoObject
        case Some(b) => if IsOwnerOrMember(u, verb, b) then Allow else Deny
  }

  /**
   * On a table with unique ids, a signed-in request other than POST and
   * OPTIONS on an existing board is decided by `IsOwnerOrMember` on that board.
   */
  lemma DetailAccessIsOwnerOrMember(requester: Requester, verb: Method, b: Board, boards: seq<Board>)
    requires UniqueBy(boards, (x: Board) => x.id)
    requires requester.SignedIn? && b in boards && verb != Post && verb != Options
    ensures BoardDetailAccess(requester, verb, b.id, boards) ==
      if IsOwnerOrMember(requester.user, verb, b) then Allow else Deny
  {
    match First(boards, TaskPermissions.HasBoardId(b.id))
    case Some(found) =>
      UniqueKeyDetermines(boards, (x: Board) => x.id, found, b);
  }

  /**
   * The list and the detail view agree for everyone but a superuser: a
   * board is listed exactly when its detail may be read.
   */
  lemma ListedIffReadable(user: User, b: Board, boards: seq<Board>)
    requires UniqueBy(boards, (x: Board) => x.id)
    requires !user.isSuperuser && b in boards
    ensures b in VisibleBoards(user, boards) <==> BoardDetailAccess(SignedIn(user), Get, b.id, boards) == Allow
  {
    match First(boards, TaskPermissions.HasBoardId(b.id))
    case Some(found) =>
      UniqueKeyDetermines(boards, (x: Board) => x.id, found, b);
  }

  /** The superuser bypass exists only in the list: a listed board's detail can still be refused. */
  lemma SuperuserListedButRefused()
    ensures var admin := User(9, "admin", "admin@example.com", "Admin", true, "");
            var b := Board(1, "b", 1, {2});
            b in VisibleBoards(admin, [b]) && BoardDetailAccess(SignedIn(admin), Get, 1, [b]) == Deny
  {
  }
}
