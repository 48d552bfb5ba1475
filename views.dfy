/** apps/boards/views.py: the lookup helpers, which find boards, lists and
    cards only through an active membership row, the board page's ordered
    read, and the HTMX handlers that change the database. Every handler sits
    behind LoginRequiredMixin, so an anonymous requester is redirected to the
    login page before the handler runs. A POST parameter that Python treats as
    falsy (missing or empty) is `None`, or `Some("")` for text. */
module BoardViews {
  import opened Common
  import opened PyStr
  import opened BoardModels
  import BoardPermissions
  import BoardMixins

  /** get_user_boards: the boards joined to an active membership of `u`,
      each once (`distinct()`). */
  function UserBoards(db: Db, u: Id): (r: set<Id>)
    ensures forall b :: b in r <==> b in db.boards && IsActiveMember(db, b, u)
  {
    set b | b in db.boards && IsActiveMember(db, b, u)
  }

  /** get_user_board (views.py): `get_object_or_404` over the board joined
      to the active memberships of `u`, one row per such membership, with no
      `distinct()`. No row is 404, one row is the board, and several make
      `get` raise MultipleObjectsReturned, which nothing catches. */
  function UserBoard(db: Db, boardId: Id, u: Id): (r: Outcome<Id>)
    ensures r.Allow? <==> boardId in db.boards && |ActiveMemberships(db, boardId, u)| == 1
    ensures r.Crash? <==> boardId in db.boards && |ActiveMemberships(db, boardId, u)| > 1
    ensures r.NotFound? <==> boardId !in db.boards || !IsActiveMember(db, boardId, u)
    ensures r.Allow? ==> r.value == boardId
    ensures r.Allow? || r.NotFound? || r.Crash?
  {
    if boardId !in db.boards then NotFound
    else
      var rows := |ActiveMemberships(db, boardId, u)|;
      if rows == 0 then NotFound
      else if rows == 1 then Allow(boardId)
      else Crash
  }

  /** get_user_list (views.py): the list joined through its board to the
      active memberships of `u`; the same rows as for the board, so the same
      answer, with the list in place of the board. */
  function UserList(db: Db, listId: Id, u: Id): (r: Outcome<Id>)
    ensures r.Allow? <==> listId in db.lists && UserBoard(db, db.lists[listId].board, u).Allow?
    ensures r.Crash? <==> listId in db.lists && UserBoard(db, db.lists[listId].board, u).Crash?
    ensures r.Allow? ==> r.value == listId
    ensures r.Allow? || r.NotFound? || r.Crash?
  {
    if listId !in db.lists then NotFound
    else
      var board := UserBoard(db, db.lists[listId].board, u);
      if board.Allow? then Allow(listId) else board
  }

  /** get_user_card (views.py): the card joined through its list and board to
      the active memberships of `u`. */
  function UserCard(db: Db, cardId: Id, u: Id): (r: Outcome<Id>)
    ensures r.Allow? <==> cardId in db.cards && UserList(db, db.cards[cardId].list, u).Allow?
    ensures r.Crash? <==> cardId in db.cards && UserList(db, db.cards[cardId].list, u).Crash?
    ensures r.Allow? ==> r.value == cardId
    ensures r.Allow? || r.NotFound? || r.Crash?
  {
    if cardId !in db.cards then NotFound
    else
      var list := UserList(db, db.cards[cardId].list, u);
      if list.Allow? then Allow(cardId) else list
  }

  /** Two active memberships of one user on one board make the views.py
      lookups crash, where the permissions.py check lets the user in. */
  lemma DuplicateMembershipsCrash(db: Db, b: Id, u: Id, m1: Id, m2: Id)
    requires b in db.boards && m1 != m2
    requires IsActiveMembership(db, m1, b, u) && IsActiveMembership(db, m2, b, u)
    ensures UserBoard(db, b, u) == Crash
    ensures forall l :: l in db.lists && db.lists[l].board == b ==> UserList(db, l, u) == Crash
    ensures BoardPermissions.GetUserBoard(db, b, SignedIn(u)) == Allow(b)
  {
    assert {m1, m2} <= ActiveMemberships(db, b, u);
    SubsetCardinality({m1, m2}, ActiveMemberships(db, b, u));
  }

  /** The board list shows exactly the boards `get_user_board` does not
      answer 404 for, and the permissions.py check admits each of them; an
      owner without an active membership is not listed. */
  lemma UserBoardsAreFound(db: Db, u: Id, b: Id)
    ensures b in UserBoards(db, u) <==> b in db.boards && !UserBoard(db, b, u).NotFound?
    ensures b in UserBoards(db, u) ==> BoardPermissions.GetUserBoard(db, b, SignedIn(u)) == Allow(b)
    ensures b in db.boards && db.boards[b].owner == u && !IsActiveMember(db, b, u) ==> b !in UserBoards(db, u)
  {
  }

  /** The two get_user_board helpers disagree about an owner who holds no
      active membership row: the one in permissions.py (and so the mixins)
      lets them in, the one here answers 404. */
  lemma OwnerWithoutMembershipDiverges(db: Db, b: Id, u: Id)
    requires b != 0 && b in db.boards && db.boards[b].owner == u && !IsActiveMember(db, b, u)
    ensures BoardPermissions.GetUserBoard(db, b, SignedIn(u)) == Allow(b)
    ensures BoardMixins.BoardAccess(db, Some(b), SignedIn(u)) == Allow(b)
    ensures UserBoard(db, b, u) == NotFound
  {
  }

  /** Wherever the helpers here find a board, the permissions.py check agrees. */
  lemma ActiveMemberPassesBoth(db: Db, b: Id, u: Id)
    requires UserBoard(db, b, u).Allow?
    ensures BoardPermissions.GetUserBoard(db, b, SignedIn(u)) == Allow(b)
  {
  }

  // ---------------------------------------------------------------------
  // get_board_lists: the board's lists by `order`, each with its cards by
  // (`priority`, `order`).

  /** A sort key compared lexicographically, as ORDER BY over two columns. */
  datatype SortKey = SortKey(major: int, minor: int)

  predicate KeyLe(a: SortKey, b: SortKey) {
    a.major < b.major || (a.major == b.major && a.minor <= b.minor)
  }

  /** Every element of `s` has a key and the keys never decrease. */
  predicate SortedBy(s: seq<Id>, keys: map<Id, SortKey>) {
    (forall i :: 0 <= i < |s| ==> s[i] in keys)
    && forall i, j :: 0 <= i < j < |s| ==> KeyLe(keys[s[i]], keys[s[j]])
  }

  /** `x` inserted into the sorted `s` before the first element whose key is
      not below its own. */
  function InsertSorted(s: seq<Id>, x: Id, keys: map<Id, SortKey>): (r: seq<Id>)
    requires x in keys && SortedBy(s, keys)
    ensures SortedBy(r, keys)
    ensures multiset(r) == multiset(s) + multiset{x}
    decreases |s|
  {
    if s == [] || KeyLe(keys[x], keys[s[0]]) then
      ConsSorted(x, s, keys);
      [x] + s
    else
      var rest := InsertSorted(s[1..], x, keys);
      assert s == [s[0]] + s[1..];
      HeadBelowInserted(s, x, keys, rest);
      ConsSorted(s[0], rest, keys);
      [s[0]] + rest
  }

  /** The head of a sorted sequence is below everything after it, and below
      an `x` that does not go before it. */
  lemma HeadBelowInserted(s: seq<Id>, x: Id, keys: map<Id, SortKey>, rest: seq<Id>)
    requires x in keys && SortedBy(s, keys) && s != [] && !KeyLe(keys[x], keys[s[0]])
    requires SortedBy(rest, keys) && multiset(rest) == multiset(s[1..]) + multiset{x}
    ensures forall k :: 0 <= k < |rest| ==> KeyLe(keys[s[0]], keys[rest[k]])
  {
    forall k | 0 <= k < |rest|
      ensures KeyLe(keys[s[0]], keys[rest[k]])
    {
      assert rest[k] in multiset(rest);
      if rest[k] != x {
        assert rest[k] in multiset(s[1..]);
        var j :| 0 <= j < |s[1..]| && s[1..][j] == rest[k];
        assert s[j + 1] == rest[k];
      }
    }
  }

  /** A key at or below every key of a sorted sequence can go in front of it. */
  lemma ConsSorted(h: Id, s: seq<Id>, keys: map<Id, SortKey>)
    requires h in keys && SortedBy(s, keys)
    requires forall k :: 0 <= k < |s| ==> KeyLe(keys[h], keys[s[k]])
    ensures SortedBy([h] + s, keys)
  {
    var r := [h] + s;
    forall i, j | 0 <= i < j < |r|
      ensures KeyLe(keys[r[i]], keys[r[j]])
    {
      if i > 0 {
        assert r[i] == s[i - 1] && r[j] == s[j - 1];
      } else {
        assert r[j] == s[j - 1];
      }
    }
  }

  /** The rows `ids` in the order ORDER BY `keys` gives them: sorted, and each
      row exactly once. Rows with equal keys come in an order the database
      chooses; any is allowed here. */
  method OrderBy(ids: set<Id>, keys: map<Id, SortKey>) returns (s: seq<Id>)
    requires ids <= keys.Keys
    ensures SortedBy(s, keys)
    ensures multiset(s) == multiset(ids)
  {
    s := [];
    var rest := ids;
    while rest != {}
      invariant rest <= ids
      invariant SortedBy(s, keys)
      invariant multiset(s) == multiset(ids - rest)
      decreases |rest|
    {
      ghost var some := PickOne(rest);
      var x :| x in rest;
      s := InsertSorted(s, x, keys);
      assert ids - (rest - {x}) == (ids - rest) + {x};
      rest := rest - {x};
    }
    assert ids - rest == ids;
  }

  /** `List.objects.filter(board=b)` */
  function ListsOf(db: Db, b: Id): set<Id> {
    set l | l in db.lists && db.lists[l].board == b
  }

  /** `Card.objects.filter(list=l)` */
  function CardsOf(db: Db, l: Id): set<Id> {
    set c | c in db.cards && db.cards[c].list == l
  }

  /** `order_by("order")` over the lists of board `b`. */
  function ListKeys(db: Db, b: Id): (r: map<Id, SortKey>)
    ensures r.Keys == ListsOf(db, b)
  {
    map l | l in ListsOf(db, b) :: SortKey(db.lists[l].order, 0)
  }

  /** `order_by("priority", "order")` over the cards of list `l`. */
  function CardKeys(db: Db, l: Id): (r: map<Id, SortKey>)
    ensures r.Keys == CardsOf(db, l)
  {
    map c | c in CardsOf(db, l) :: SortKey(db.cards[c].priority, db.cards[c].order)
  }

  /** One list of the board page, with its cards attached. */
  datatype ListWithCards = ListWithCards(list: Id, cards: seq<Id>)

  function ListIds(r: seq<ListWithCards>): (ids: seq<Id>)
    ensures |ids| == |r| && forall i :: 0 <= i < |r| ==> ids[i] == r[i].list
  {
    seq(|r|, i requires 0 <= i < |r| => r[i].list)
  }

  /** get_board_lists: every list of the board exactly once, in `order`; each
      carries every one of its cards exactly once, by (`priority`, `order`). */
  method GetBoardLists(db: Db, b: Id) returns (r: seq<ListWithCards>)
    ensures SortedBy(ListIds(r), ListKeys(db, b))
    ensures multiset(ListIds(r)) == multiset(ListsOf(db, b))
    ensures forall i :: 0 <= i < |r| ==>
              SortedBy(r[i].cards, CardKeys(db, r[i].list)) && multiset(r[i].cards) == multiset(CardsOf(db, r[i].list))
  {
    var lists := OrderBy(ListsOf(db, b), ListKeys(db, b));
    r := [];
    var i := 0;
    while i < |lists|
      invariant 0 <= i <= |lists|
      invariant ListIds(r) == lists[..i]
      invariant forall k :: 0 <= k < |r| ==>
                  SortedBy(r[k].cards, CardKeys(db, r[k].list)) && multiset(r[k].cards) == multiset(CardsOf(db, r[k].list))
    {
      var cards := OrderBy(CardsOf(db, lists[i]), CardKeys(db, lists[i]));
      r := r + [ListWithCards(lists[i], cards)];
      assert ListIds(r) == lists[..i + 1];
      i := i + 1;
    }
    assert lists[..i] == lists;
  }

  // ---------------------------------------------------------------------
  // The HTMX handlers.

  /** A text POST parameter Python treats as truthy. */
  predicate Present(s: Option<string>) {
    s.Some? && s.value != ""
  }

  /** How many boards `u` owns: `Board.objects.filter(owner=u).count()`. */
  function OwnedCount(db: Db, u: Id): nat {
    |OwnedBoards(db, u)|
  }

  /** Inserting a board adds it to its owner's boards and to nobody else's. */
  lemma OwnedBoardsAfterInsert(before: Db, after: Db, b: Id, board: Board)
    requires b !in before.boards && after.boards == before.boards[b := board]
    ensures OwnedBoards(after, board.owner) == OwnedBoards(before, board.owner) + {b}
    ensures OwnedCount(after, board.owner) == OwnedCount(before, board.owner) + 1
    ensures forall u :: u != board.owner ==> OwnedBoards(after, u) == OwnedBoards(before, u)
  {
    var owner := board.owner;
    forall x
      ensures x in OwnedBoards(after, owner) <==> x in OwnedBoards(before, owner) + {b}
    {
      if x != b {
        assert x in after.boards <==> x in before.boards;
      }
    }
    assert OwnedBoards(after, owner) == OwnedBoards(before, owner) + {b};
    assert b !in OwnedBoards(before, owner);
    forall u | u != owner
      ensures OwnedBoards(after, u) == OwnedBoards(before, u)
    {
      OtherOwnerUnaffected(before, after, b, board, u);
    }
  }

  lemma OtherOwnerUnaffected(before: Db, after: Db, b: Id, board: Board, u: Id)
    requires b !in before.boards && after.boards == before.boards[b := board] && u != board.owner
    ensures OwnedBoards(after, u) == OwnedBoards(before, u)
  {
    forall x
      ensures x in OwnedBoards(after, u) <==> x in OwnedBoards(before, u)
    {
      if x != b {
        assert x in after.boards <==> x in before.boards;
      }
    }
  }

  /** The per-owner limit is an invariant of board creation: a create that
      passes the limit check leaves every user at or under the limit. */
  lemma CreateKeepsBoardLimit(before: Db, after: Db, b: Id, board: Board, maxBoards: int)
    requires b !in before.boards && after.boards == before.boards[b := board]
    requires OwnedCount(before, board.owner) < maxBoards
    requires forall u :: OwnedCount(before, u) <= maxBoards
    ensures forall u :: OwnedCount(after, u) <= maxBoards
  {
    OwnedBoardsAfterInsert(before, after, b, board);
    forall u
      ensures OwnedCount(after, u) <= maxBoards
    {
      if u != board.owner {
        assert OwnedBoards(after, u) == OwnedBoards(before, u);
        assert OwnedCount(after, u) == OwnedCount(before, u);
        assert OwnedCount(before, u) <= maxBoards;
      } else {
        assert OwnedCount(after, u) == OwnedCount(before, u) + 1;
      }
    }
  }

  /** HTMXBoardCreateView.post: 400 without a title or at the board limit;
      otherwise one new board (description "" and colour "blue" unless
      given) and one Owner membership for the requester, and nothing else. */
  method CreateBoard(repo: Repository, p: Principal, title: Option<string>, description: Option<string>,
                     color: Option<string>, maxBoards: int) returns (r: Outcome<Id>)
    requires repo.Valid() && (p.SignedIn? ==> p.id in repo.users)
    modifies repo
    ensures repo.Valid()
    ensures r.RedirectToLogin? <==> p.Anonymous?
    ensures r.BadRequest? <==> p.SignedIn? && (!Present(title) || OwnedCount(old(repo.State()), p.id) >= maxBoards)
    ensures r.Allow? || r.RedirectToLogin? || r.BadRequest?
    ensures !r.Allow? ==> repo.State() == old(repo.State())
    ensures r.Allow? ==> r.value !in old(repo.boards)
    ensures r.Allow? ==> repo.boards == old(repo.boards)[r.value := Board(p.id, title.value, description.GetOr(""), color.GetOr("blue"))]
    ensures r.Allow? ==>
              exists m :: m !in old(repo.memberships) && repo.memberships == old(repo.memberships)[m := OwnerMembership(p.id, r.value)]
    ensures repo.users == old(repo.users) && repo.lists == old(repo.lists)
    ensures repo.cards == old(repo.cards) && repo.invitations == old(repo.invitations)
  {
    if p.Anonymous? {
      return RedirectToLogin;
    }
    if !Present(title) {
      return BadRequest;
    }
    var userBoardsCount := OwnedCount(repo.State(), p.id);
    if userBoardsCount >= maxBoards {
      return BadRequest;
    }
    var b := repo.InsertBoard(Board(p.id, title.value, description.GetOr(""), color.GetOr("blue")));
    var m := repo.InsertMembership(OwnerMembership(p.id, b));
    r := Allow(b);
  }

  /** HTMXListCreateView.post: 400 without a board id or title, 404 unless
      the requester is an active member of the board; otherwise one new list
      at the end of the board. */
  method CreateList(repo: Repository, p: Principal, boardParam: Option<Id>, title: Option<string>)
    returns (r: Outcome<Id>)
    requires repo.Valid()
    modifies repo
    ensures repo.Valid()
    ensures r.RedirectToLogin? <==> p.Anonymous?
    ensures r.BadRequest? <==> p.SignedIn? && (boardParam.None? || !Present(title))
    ensures (r.NotFound? || r.Crash?) <==>
              p.SignedIn? && boardParam.Some? && Present(title) && !UserBoard(old(repo.State()), boardParam.value, p.id).Allow?
    ensures r.NotFound? || r.Crash? ==> r == UserBoard(old(repo.State()), boardParam.value, p.id)
    ensures r.Allow? || r.RedirectToLogin? || r.BadRequest? || r.NotFound? || r.Crash?
    ensures !r.Allow? ==> repo.State() == old(repo.State())
    ensures r.Allow? ==> r.value !in old(repo.lists)
    ensures r.Allow? ==> repo.lists == old(repo.lists)[r.value := BoardList(boardParam.value, title.value,
                                                                    BoardPermissions.NextOrder(ListOrders(old(repo.State()), boardParam.value)))]
    ensures r.Allow? ==> forall l :: l in old(repo.lists) && old(repo.lists)[l].board == boardParam.value
                                     ==> old(repo.lists)[l].order < repo.lists[r.value].order
    ensures repo.users == old(repo.users) && repo.boards == old(repo.boards) && repo.cards == old(repo.cards)
    ensures repo.memberships == old(repo.memberships) && repo.invitations == old(repo.invitations)
  {
    if p.Anonymous? {
      return RedirectToLogin;
    }
    if boardParam.None? || !Present(title) {
      return BadRequest;
    }
    var db := repo.State();
    var board := UserBoard(db, boardParam.value, p.id);
    if !board.Allow? {
      return board;
    }
    var order := BoardPermissions.NextOrder(ListOrders(db, board.value));
    assert forall l :: l in db.lists && db.lists[l].board == board.value ==> db.lists[l].order in ListOrders(db, board.value);
    var l := repo.CreateList(board.value, title.value, order);
    r := Allow(l);
  }

  /** HTMXCardCreateView.post: 400 without a list id or title, 404 unless
      the requester is an active member of the list's board; otherwise one
      new card at the end of the list, priority 50 unless given. */
  method CreateCard(repo: Repository, p: Principal, listParam: Option<Id>, title: Option<string>,
                    description: Option<string>, priority: Option<int>) returns (r: Outcome<Id>)
    requires repo.Valid()
    modifies repo
    ensures repo.Valid()
    ensures r.RedirectToLogin? <==> p.Anonymous?
    ensures r.BadRequest? <==> p.SignedIn? && (listParam.None? || !Present(title))
    ensures (r.NotFound? || r.Crash?) <==>
              p.SignedIn? && listParam.Some? && Present(title) && !UserList(old(repo.State()), listParam.value, p.id).Allow?
    ensures r.NotFound? || r.Crash? ==> r == UserList(old(repo.State()), listParam.value, p.id)
    ensures r.Allow? || r.RedirectToLogin? || r.BadRequest? || r.NotFound? || r.Crash?
    ensures !r.Allow? ==> repo.State() == old(repo.State())
    ensures r.Allow? ==> r.value !in old(repo.cards)
    ensures r.Allow? ==> repo.cards == old(repo.cards)[r.value := Card(listParam.value, title.value, description.GetOr(""), priority.GetOr(50),
                                                               BoardPermissions.NextOrder(CardOrders(old(repo.State()), listParam.value)))]
    ensures r.Allow? ==> forall c :: c in old(repo.cards) && old(repo.cards)[c].list == listParam.value
                                     ==> old(repo.cards)[c].order < repo.cards[r.value].order
    ensures repo.users == old(repo.users) && repo.boards == old(repo.boards) && repo.lists == old(repo.lists)
    ensures repo.memberships == old(repo.memberships) && repo.invitations == old(repo.invitations)
  {
    if p.Anonymous? {
      return RedirectToLogin;
    }
    if listParam.None? || !Present(title) {
      return BadRequest;
    }
    var db := repo.State();
    var list := UserList(db, listParam.value, p.id);
    if !list.Allow? {
      return list;
    }
    var order := BoardPermissions.NextOrder(CardOrders(db, list.value));
    assert forall c :: c in db.cards && db.cards[c].list == list.value ==> db.cards[c].order in CardOrders(db, list.value);
    var c := repo.CreateCard(list.value, title.value, description.GetOr(""), priority.GetOr(50), order);
    r := Allow(c);
  }

  /** The card fields HTMXCardUpdateView looks up in `request.POST`; `None`
      for a field that is not there. Django parses a form body into
      `request.POST` only for a POST, and this view answers PATCH, so as
      written every lookup misses (`PostUnderPatch`). The fields of the PATCH
      body, applied as the handler evidently means to, are `UpdateCard`. */
  datatype CardPatch = CardPatch(
    title: Option<string>, description: Option<string>, priority: Option<int>,
    list: Option<Id>, order: Option<int>)

  /** `request.POST` during a PATCH request: empty. */
  const PostUnderPatch := CardPatch(None, None, None, None, None)

  /** The card with every field the patch mentions replaced: an empty patch
      leaves it as it was, and only a patch naming a list moves it. */
  function Patched(c: Card, patch: CardPatch): (r: Card)
    ensures patch == PostUnderPatch ==> r == c
    ensures patch.list.None? ==> r.list == c.list
    ensures patch.list.Some? ==> r.list == patch.list.value
  {
    Card(patch.list.GetOr(c.list), patch.title.GetOr(c.title), patch.description.GetOr(c.description),
         patch.priority.GetOr(c.priority), patch.order.GetOr(c.order))
  }

  /** The patch changes exactly the fields it mentions. */
  lemma PatchTouchesOnlyGivenFields(c: Card, patch: CardPatch)
    ensures Patched(c, patch).title == (if patch.title.Some? then patch.title.value else c.title)
    ensures Patched(c, patch).description == (if patch.description.Some? then patch.description.value else c.description)
    ensures Patched(c, patch).priority == (if patch.priority.Some? then patch.priority.value else c.priority)
    ensures Patched(c, patch).list == (if patch.list.Some? then patch.list.value else c.list)
    ensures Patched(c, patch).order == (if patch.order.Some? then patch.order.value else c.order)
    ensures patch == CardPatch(None, None, None, None, None) ==> Patched(c, patch) == c
  {
  }

  /** Applying the same patch twice is applying it once. */
  lemma PatchIdempotent(c: Card, patch: CardPatch)
    ensures Patched(Patched(c, patch), patch) == Patched(c, patch)
  {
  }

  /** How HTMXCardUpdateView.patch ends: 404 unless the requester is an
      active member of the card's board, 404 when a target list is named that
      does not exist; otherwise the card is saved. */
  function CardUpdateOutcome(db: Db, p: Principal, cardId: Id, patch: CardPatch): (r: Outcome<Id>)
    ensures r.Allow? <==> p.SignedIn? && UserCard(db, cardId, p.id).Allow? && (patch.list.Some? ==> patch.list.value in db.lists)
    ensures r.Allow? ==> r.value == cardId
    ensures r.RedirectToLogin? <==> p.Anonymous?
    ensures r.Crash? <==> p.SignedIn? && UserCard(db, cardId, p.id).Crash?
    ensures r.Allow? || r.RedirectToLogin? || r.NotFound? || r.Crash?
  {
    if p.Anonymous? then RedirectToLogin
    else if !UserCard(db, cardId, p.id).Allow? then UserCard(db, cardId, p.id)
    else if patch.list.Some? && patch.list.value !in db.lists then NotFound
    else Allow(cardId)
  }

  /** With the body's fields applied, the target list is fetched by key
      alone: a member of the card's board may move it into a list of a board
      they have no membership on. As written, no field reaches the handler,
      so no card moves. */
  lemma CardMoveIgnoresTargetBoard(db: Db, u: Id, cardId: Id, target: Id)
    requires UserCard(db, cardId, u).Allow? && target in db.lists
    ensures CardUpdateOutcome(db, SignedIn(u), cardId, CardPatch(None, None, None, Some(target), None)) == Allow(cardId)
  {
  }

  /** HTMXCardUpdateView.patch as evidently intended, with `patch` the
      fields of the request body: they are assigned one by one, then the card
      is saved; no other card is renumbered. */
  method UpdateCard(repo: Repository, p: Principal, cardId: Id, patch: CardPatch) returns (r: Outcome<Id>)
    requires repo.Valid()
    modifies repo
    ensures repo.Valid()
    ensures r == CardUpdateOutcome(old(repo.State()), p, cardId, patch)
    ensures r.Allow? ==> repo.cards == old(repo.cards)[cardId := Patched(old(repo.cards)[cardId], patch)]
    ensures !r.Allow? ==> repo.cards == old(repo.cards)
    ensures repo.users == old(repo.users) && repo.boards == old(repo.boards) && repo.lists == old(repo.lists)
    ensures repo.memberships == old(repo.memberships) && repo.invitations == old(repo.invitations)
  {
    if p.Anonymous? {
      return RedirectToLogin;
    }
    var found := UserCard(repo.State(), cardId, p.id);
    if !found.Allow? {
      return found;
    }
    var card := repo.cards[cardId];
    if patch.title.Some? {
      card := card.(title := patch.title.value);
    }
    if patch.description.Some? {
      card := card.(description := patch.description.value);
    }
    if patch.priority.Some? {
      card := card.(priority := patch.priority.value);
    }
    if patch.list.Some? {
      if patch.list.value !in repo.lists {
        return NotFound;
      }
      card := card.(list := patch.list.value);
    }
    if patch.order.Some? {
      card := card.(order := patch.order.value);
    }
    repo.SaveCard(cardId, card);
    r := Allow(cardId);
  }

  /** HTMXCardUpdateView.patch as written: `request.POST` is empty, so the
      handler only finds the card and saves it back unchanged. Whatever the
      body carries, the database stays as it was. */
  method UpdateCardAsWritten(repo: Repository, p: Principal, cardId: Id) returns (r: Outcome<Id>)
    requires repo.Valid()
    modifies repo
    ensures repo.Valid()
    ensures r == CardUpdateOutcome(old(repo.State()), p, cardId, PostUnderPatch)
    ensures r.Allow? <==> p.SignedIn? && UserCard(old(repo.State()), cardId, p.id).Allow?
    ensures repo.State() == old(repo.State())
  {
    ghost var before := repo.State();
    r := UpdateCard(repo, p, cardId, PostUnderPatch);
    if r.Allow? {
      PatchTouchesOnlyGivenFields(before.cards[cardId], PostUnderPatch);
      assert repo.cards == before.cards;
    }
  }

  /** HTMXBoardDeleteView.delete: only the owner deletes (with the cascades);
      anyone else gets 404 and the board stays. */
  method DeleteBoard(repo: Repository, p: Principal, boardId: Id) returns (r: Outcome<Id>)
    requires repo.Valid()
    modifies repo
    ensures repo.Valid()
    ensures r.RedirectToLogin? <==> p.Anonymous?
    ensures r.Allow? <==> p.SignedIn? && boardId in old(repo.boards) && old(repo.boards)[boardId].owner == p.id
    ensures r.Allow? || r.RedirectToLogin? || r.NotFound?
    ensures r.Allow? ==> repo.State() == WithoutBoards(old(repo.State()), {boardId})
    ensures !r.Allow? ==> repo.State() == old(repo.State())
  {
    if p.Anonymous? {
      return RedirectToLogin;
    }
    if boardId !in repo.boards || repo.boards[boardId].owner != p.id {
      return NotFound;
    }
    repo.DeleteBoard(boardId);
    r := Allow(boardId);
  }

  /** HTMXListDeleteView.delete: an active member of the list's board deletes
      it, with its cards. */
  method DeleteList(repo: Repository, p: Principal, listId: Id) returns (r: Outcome<Id>)
    requires repo.Valid()
    modifies repo
    ensures repo.Valid()
    ensures r.RedirectToLogin? <==> p.Anonymous?
    ensures r.Allow? <==> p.SignedIn? && UserList(old(repo.State()), listId, p.id).Allow?
    ensures r.Crash? <==> p.SignedIn? && UserList(old(repo.State()), listId, p.id).Crash?
    ensures r.Allow? || r.RedirectToLogin? || r.NotFound? || r.Crash?
    ensures r.Allow? ==> repo.State() == WithoutList(old(repo.State()), listId)
    ensures !r.Allow? ==> repo.State() == old(repo.State())
  {
    if p.Anonymous? {
      return RedirectToLogin;
    }
    var found := UserList(repo.State(), listId, p.id);
    if !found.Allow? {
      return found;
    }
    repo.DeleteList(listId);
    r := Allow(listId);
  }

  /** HTMXCardDeleteView.delete: an active member of the card's board deletes
      that card and nothing else. */
  method DeleteCard(repo: Repository, p: Principal, cardId: Id) returns (r: Outcome<Id>)
    requires repo.Valid()
    modifies repo
    ensures repo.Valid()
    ensures r.RedirectToLogin? <==> p.Anonymous?
    ensures r.Allow? <==> p.SignedIn? && UserCard(old(repo.State()), cardId, p.id).Allow?
    ensures r.Crash? <==> p.SignedIn? && UserCard(old(repo.State()), cardId, p.id).Crash?
    ensures r.Allow? || r.RedirectToLogin? || r.NotFound? || r.Crash?
    ensures r.Allow? ==> repo.cards == old(repo.cards) - {cardId}
    ensures !r.Allow? ==> repo.cards == old(repo.cards)
    ensures repo.users == old(repo.users) && repo.boards == old(repo.boards) && repo.lists == old(repo.lists)
    ensures repo.memberships == old(repo.memberships) && repo.invitations == old(repo.invitations)
  {
    if p.Anonymous? {
      return RedirectToLogin;
    }
    var found := UserCard(repo.State(), cardId, p.id);
    if !found.Allow? {
      return found;
    }
    repo.DeleteCard(cardId);
    r := Allow(cardId);
  }

  /** Deleting a board leaves no list, card, membership or invitation of it,
      and a deleted list leaves no card of it. */
  lemma CascadesLeaveNoOrphans(db: Db, b: Id, l: Id)
    requires WellFormed(db)
    ensures forall k :: k in WithoutBoards(db, {b}).lists ==> WithoutBoards(db, {b}).lists[k].board != b
    ensures forall c :: c in WithoutBoards(db, {b}).cards ==> WithoutBoards(db, {b}).cards[c].list in WithoutBoards(db, {b}).lists
    ensures forall i :: i in WithoutBoards(db, {b}).invitations ==> WithoutBoards(db, {b}).invitations[i].board != b
    ensures forall c :: c in WithoutList(db, l).cards ==> WithoutList(db, l).cards[c].list != l
  {
  }

  /** Deleting a user deletes every board they own. */
  lemma UserDeletionTakesOwnedBoards(db: Db, u: Id)
    requires WellFormed(db)
    ensures forall b :: b in WithoutUser(db, u).boards ==> WithoutUser(db, u).boards[b].owner != u
  {
  }
}
