/** The access checks of apps/boards/permissions.py. Each check is a total
    function from the database, the requester and the ids it is given to an
    `Outcome`: the object it returns, or the exception it raises. */
module BoardPermissions {
  import opened Common
  import opened BoardModels

  /** The `model_class` argument of is_owner_or_member: one of the three
      classes it knows, some other model class, or None. */
  datatype ModelClass = CardClass | ListClass | BoardClass | OtherClass | NoClass {
    predicate Known() {
      CardClass? || ListClass? || BoardClass?
    }
  }

  /** The board list `l` belongs to (`list.board`); None when the list row,
      or the board row it names, is missing. */
  function ListBoard(db: Db, l: Id): (r: Option<Id>)
    ensures r.Some? <==> l in db.lists && db.lists[l].board in db.boards
    ensures r.Some? ==> r.value == db.lists[l].board
  {
    if l in db.lists && db.lists[l].board in db.boards then Some(db.lists[l].board) else None
  }

  /** The board an object resolves to: `card.list.board`, `list.board`, or the
      board itself. None when `objects.get` (or one of the foreign-key reads
      after it) finds no row, which raises DoesNotExist. */
  function BoardOf(db: Db, objId: Id, kind: ModelClass): (r: Option<Id>)
    requires kind.Known()
    ensures r.Some? ==> r.value in db.boards
    ensures kind.BoardClass? ==> (r.Some? <==> objId in db.boards) && (r.Some? ==> r.value == objId)
    ensures kind.ListClass? ==> r == ListBoard(db, objId)
    ensures kind.CardClass? ==> r == (if objId in db.cards then ListBoard(db, db.cards[objId].list) else None)
  {
    match kind
    case BoardClass =>
      if objId in db.boards then Some(objId) else None
    case ListClass =>
      ListBoard(db, objId)
    case CardClass =>
      if objId in db.cards then ListBoard(db, db.cards[objId].list) else None
  }

  /** is_owner_or_member: authentication first, then the class, then "owner or
      active member" of the board the object resolves to. It never returns
      False: a failed check raises PermissionDenied. */
  function IsOwnerOrMember(db: Db, objId: Id, p: Principal, kind: ModelClass): (r: Outcome<bool>)
    ensures p.Anonymous? ==> r == Denied
    ensures r.Allow? ==> r.value
    ensures r.Allow? <==> p.SignedIn? && kind.Known() && BoardOf(db, objId, kind).Some?
                          && IsOwnerOrActiveMember(db, BoardOf(db, objId, kind).value, p.id)
    ensures r.Invalid? <==> p.SignedIn? && kind.NoClass?
    ensures r.Crash? <==> p.SignedIn? && kind.Known() && BoardOf(db, objId, kind).None?
    ensures r.Allow? || r.Denied? || r.Invalid? || r.Crash?
  {
    if p.Anonymous? then Denied
    else if kind.NoClass? then Invalid
    else if kind.OtherClass? then Denied
    else
      match BoardOf(db, objId, kind)
      case None => Crash
      case Some(b) => if IsOwnerOrActiveMember(db, b, p.id) then Allow(true) else Denied
  }

  /** Access to a card is access to its list, and access to a list is access
      to its board. */
  lemma AccessFollowsContainers(db: Db, p: Principal, c: Id)
    requires WellFormed(db) && c in db.cards
    ensures IsOwnerOrMember(db, c, p, CardClass) == IsOwnerOrMember(db, db.cards[c].list, p, ListClass)
    ensures IsOwnerOrMember(db, db.cards[c].list, p, ListClass)
            == IsOwnerOrMember(db, db.lists[db.cards[c].list].board, p, BoardClass)
  {
  }

  /** get_user_board (permissions.py): 404 for a missing board, then the
      board exactly when is_owner_or_member allows. Its `False` branch cannot
      be reached, since is_owner_or_member never returns False. */
  function GetUserBoard(db: Db, boardId: Id, p: Principal): (r: Outcome<Id>)
    ensures r.NotFound? <==> boardId !in db.boards
    ensures r.Allow? <==> boardId in db.boards && p.SignedIn? && IsOwnerOrActiveMember(db, boardId, p.id)
    ensures r.Allow? ==> r.value == boardId
    ensures r.Allow? || r.NotFound? || r.Denied?
  {
    if boardId !in db.boards then NotFound
    else
      var ok := IsOwnerOrMember(db, boardId, p, BoardClass);
      if ok.Allow? then Allow(boardId) else ok.Fail()
  }

  /** get_user_list (permissions.py): the access check on the list's own
      board, then a 404 unless the list belongs to the board passed in. */
  function GetUserList(db: Db, listId: Id, p: Principal, board: Id): (r: Outcome<Id>)
    ensures r.Allow? <==> p.SignedIn? && listId in db.lists && db.lists[listId].board == board
                          && IsOwnerOrActiveMember(db, board, p.id)
    ensures r.Allow? ==> r.value == listId
    ensures r.Crash? <==> p.SignedIn? && BoardOf(db, listId, ListClass).None?
    ensures r.Allow? || r.NotFound? || r.Denied? || r.Crash?
  {
    var ok := IsOwnerOrMember(db, listId, p, ListClass);
    if ok.Allow? then
      if listId in db.lists && db.lists[listId].board == board then Allow(listId) else NotFound
    else ok.Fail()
  }

  /** A list of another board is not found through this board, even for a
      member of the list's own board. */
  lemma ListOfOtherBoardNotFound(db: Db, listId: Id, u: Id, board: Id)
    requires listId in db.lists && db.lists[listId].board != board
    requires IsOwnerOrActiveMember(db, db.lists[listId].board, u)
    ensures GetUserList(db, listId, SignedIn(u), board) == NotFound
  {
  }

  /** can_modify_board: the owner may, whether or not they hold a membership
      row. Anyone else needs their first active membership (lowest key) to
      carry the Owner or Admin role; with no active membership the logging
      call reads `.role` of None and raises. `board` is the board object the
      caller holds, `boardId` its key. */
  function CanModifyBoard(db: Db, boardId: Id, board: Board, u: Id): (r: Outcome<bool>)
    ensures r.Allow? || r.Crash?
    ensures r.Crash? <==> board.owner != u && !IsActiveMember(db, boardId, u)
    ensures r == Allow(true) ==>
              board.owner == u || exists m :: IsActiveMembership(db, m, boardId, u) && db.memberships[m].role in {Owner, Admin}
    ensures board.owner == u ==> r == Allow(true)
  {
    if board.owner == u then Allow(true)
    else
      var ms := ActiveMemberships(db, boardId, u);
      if ms == {} then Crash
      else
        var m := Min(ms);
        Allow(db.memberships[m].role in {Owner, Admin})
  }

  /** A non-owner whose active memberships all carry the Owner or Admin role
      may modify the board; one whose active memberships are all Member or
      Viewer may not. */
  lemma CanModifyByRole(db: Db, boardId: Id, board: Board, u: Id)
    requires board.owner != u && IsActiveMember(db, boardId, u)
    ensures (forall m :: IsActiveMembership(db, m, boardId, u) ==> db.memberships[m].role in {Owner, Admin})
            ==> CanModifyBoard(db, boardId, board, u) == Allow(true)
    ensures (forall m :: IsActiveMembership(db, m, boardId, u) ==> db.memberships[m].role !in {Owner, Admin})
            ==> CanModifyBoard(db, boardId, board, u) == Allow(false)
  {
    var m := Min(ActiveMemberships(db, boardId, u));
    assert IsActiveMembership(db, m, boardId, u);
  }

  /** get_user_card (permissions.py): the access check on the card's board,
      then the card itself, except that a key of 0 is falsy and gives 404. */
  function GetUserCard(db: Db, cardId: Id, p: Principal): (r: Outcome<Id>)
    ensures r.Allow? <==> p.SignedIn? && cardId != 0 && BoardOf(db, cardId, CardClass).Some?
                          && IsOwnerOrActiveMember(db, BoardOf(db, cardId, CardClass).value, p.id)
    ensures r.Allow? ==> r.value == cardId && cardId in db.cards
    ensures r.Crash? <==> p.SignedIn? && BoardOf(db, cardId, CardClass).None?
    ensures r.Denied? ==> p.Anonymous? || !IsOwnerOrActiveMember(db, BoardOf(db, cardId, CardClass).value, p.id)
    ensures r.Allow? || r.NotFound? || r.Denied? || r.Crash?
  {
    var ok := IsOwnerOrMember(db, cardId, p, CardClass);
    if ok.Allow? then
      if cardId != 0 then Allow(cardId) else NotFound
    else ok.Fail()
  }

  /** get_next_order: one more than the largest `order` in the container, 1
      for an empty container (`MAX` gives None, and `None or 0` is 0). The
      result lies above every existing order, and is the least value that does
      unless the container is empty. */
  function NextOrder(orders: set<int>): (r: int)
    ensures forall o :: o in orders ==> o < r
    ensures orders == {} ==> r == 1
    ensures orders != {} ==> r - 1 in orders
  {
    var maxOrder := if orders == {} then 0 else Max(orders);
    maxOrder + 1
  }
}
