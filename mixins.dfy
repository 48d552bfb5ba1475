/** The view mixins of apps/boards/mixins.py. Each mixin's allow/deny
    decision is a pure function of the database, the URL arguments and the
    requester; each mixin is also a class whose `Dispatch` method records the
    object it resolved in a field, as the mixin does on `self`, and ends with
    that decision. `Allow` means the request reaches the view. */
module BoardMixins {
  import opened Common
  import opened BoardModels
  import opened BoardPermissions

  /** `kwargs.get(name)` is truthy: the URL argument is there and is not 0. */
  predicate Given(k: Option<Id>) {
    k.Some? && k.value != 0
  }

  /** The mixins catch Http404 and PermissionDenied from a lookup and raise
      Http404 instead; any other exception passes through. */
  function HideDenial<T>(r: Outcome<T>): (s: Outcome<T>)
    ensures r.Allow? ==> s == r
    ensures r.NotFound? || r.Denied? ==> s == NotFound
    ensures !r.Allow? && !r.NotFound? && !r.Denied? ==> s == r
  {
    if r.Denied? then NotFound else r
  }

  /** BoardAccessMixin: a missing id is 404 even for an anonymous user; an
      anonymous user is then refused; after that every failure of
      get_user_board, 404 or PermissionDenied, is reported as 404. */
  function BoardAccess(db: Db, boardKw: Option<Id>, p: Principal): (r: Outcome<Id>)
    ensures r.Allow? <==> Given(boardKw) && p.SignedIn? && IsOwnerOrActiveMember(db, boardKw.value, p.id)
    ensures r.Allow? ==> r.value == boardKw.value
    ensures r.Denied? <==> Given(boardKw) && p.Anonymous?
    ensures r.Allow? || r.NotFound? || r.Denied?
  {
    if !Given(boardKw) then NotFound
    else if p.Anonymous? then Denied
    else HideDenial(GetUserBoard(db, boardKw.value, p))
  }

  class BoardAccessView {
    /** `self.board`, set only when the check passes. */
    var board: Option<Id>

    constructor ()
      ensures board == None
    {
      board := None;
    }

    method Dispatch(db: Db, boardKw: Option<Id>, p: Principal) returns (r: Outcome<Id>)
      modifies this
      ensures r == BoardAccess(db, boardKw, p)
      ensures board == if r.Allow? then Some(r.value) else old(board)
    {
      if !Given(boardKw) {
        return NotFound;
      }
      if p.Anonymous? {
        return Denied;
      }
      var found := GetUserBoard(db, boardKw.value, p);
      if !found.Allow? {
        return NotFound;
      }
      board := Some(found.value);
      r := found;
    }
  }

  /** BoardModifyMixin: the access check of BoardAccessMixin, then the view
      handler, and only then can_modify_board; a refusal replaces the
      handler's response with handle_no_permission, which raises
      PermissionDenied for a signed-in user. `before` is the database the
      request found, `after` the one the handler left, `response` the
      handler's response. The owner is read from the board object fetched
      before the handler ran; the memberships are queried afterwards. */
  function BoardModify<R>(before: Db, after: Db, boardKw: Option<Id>, p: Principal, response: R): (r: Outcome<R>)
    ensures !BoardAccess(before, boardKw, p).Allow? ==> r == BoardAccess(before, boardKw, p).Fail()
    ensures r.Allow? ==> r.value == response
    ensures r.Allow? <==> BoardAccess(before, boardKw, p).Allow?
                          && CanModifyBoard(after, boardKw.value, before.boards[boardKw.value], p.id) == Allow(true)
    ensures (BoardAccess(before, boardKw, p).Allow?
             && CanModifyBoard(after, boardKw.value, before.boards[boardKw.value], p.id) == Allow(false)) ==> r == Denied
    ensures (BoardAccess(before, boardKw, p).Allow?
             && CanModifyBoard(after, boardKw.value, before.boards[boardKw.value], p.id).Crash?) ==> r == Crash
  {
    var access := BoardAccess(before, boardKw, p);
    if !access.Allow? then access.Fail()
    else
      var b := access.value;
      match CanModifyBoard(after, b, before.boards[b], p.id)
      case Allow(ok) => if ok then Allow(response) else Denied
      case _ => Crash
  }

  /** Whether BoardModifyMixin runs the view handler: whenever the access
      check passes, before it knows whether the requester may modify. */
  predicate BoardModifyRunsHandler(before: Db, boardKw: Option<Id>, p: Principal) {
    BoardAccess(before, boardKw, p).Allow?
  }

  /** An active Member or Viewer who is not the owner gets 403, yet the
      handler ran and whatever it changed stays changed. */
  lemma ModifyRefusedAfterHandler<R>(before: Db, after: Db, b: Id, u: Id, m: Id, response: R)
    requires IsActiveMembership(before, m, b, u) && b in before.boards && before.boards[b].owner != u && b != 0
    requires after.memberships == before.memberships
    requires forall k :: IsActiveMembership(before, k, b, u) ==> before.memberships[k].role in {Member, Viewer}
    ensures BoardModifyRunsHandler(before, Some(b), SignedIn(u))
    ensures BoardModify(before, after, Some(b), SignedIn(u), response) == Denied
  {
    assert IsActiveMember(before, b, u);
    assert IsActiveMember(after, b, u) by {
      assert IsActiveMembership(after, m, b, u);
    }
    CanModifyByRole(after, b, before.boards[b], u);
  }

  /** A handler that removes the requester's own active membership makes the
      later can_modify_board call fail on None, unless they own the board. */
  lemma ModifyCrashesWhenHandlerDropsMembership<R>(before: Db, after: Db, b: Id, u: Id, response: R)
    requires b != 0 && b in before.boards && before.boards[b].owner != u && IsActiveMember(before, b, u)
    requires !IsActiveMember(after, b, u)
    ensures BoardModifyRunsHandler(before, Some(b), SignedIn(u))
    ensures BoardModify(before, after, Some(b), SignedIn(u), response) == Crash
  {
  }

  class BoardModifyView {
    var board: Option<Id>

    constructor ()
      ensures board == None
    {
      board := None;
    }

    /** The access check, the handler (whose effect is `after`), then the
        modification check. */
    method Dispatch<R>(before: Db, after: Db, boardKw: Option<Id>, p: Principal, response: R)
      returns (handlerRan: bool, r: Outcome<R>)
      modifies this
      ensures handlerRan == BoardModifyRunsHandler(before, boardKw, p)
      ensures r == BoardModify(before, after, boardKw, p, response)
      ensures board == if handlerRan then Some(boardKw.value) else old(board)
    {
      var access := BoardAccess(before, boardKw, p);
      if !access.Allow? {
        return false, access.Fail();
      }
      board := Some(access.value);
      handlerRan := true;
      var b := access.value;
      var canModify := CanModifyBoard(after, b, before.boards[b], p.id);
      if canModify.Crash? {
        r := Crash;
      } else if !canModify.value {
        r := Denied;
      } else {
        r := Allow(response);
      }
    }
  }

  /** ListAccessMixin: both ids must be given; then get_user_board and
      get_user_list, whose 404 and PermissionDenied become 404. A list id
      with no row makes is_owner_or_member raise DoesNotExist, which is not
      caught. */
  function ListAccess(db: Db, boardKw: Option<Id>, listKw: Option<Id>, p: Principal): (r: Outcome<(Id, Id)>)
    ensures r.Allow? <==> Given(boardKw) && Given(listKw) && p.SignedIn?
                          && IsOwnerOrActiveMember(db, boardKw.value, p.id)
                          && listKw.value in db.lists && db.lists[listKw.value].board == boardKw.value
    ensures r.Allow? ==> r.value == (boardKw.value, listKw.value)
    ensures r.Denied? <==> Given(boardKw) && Given(listKw) && p.Anonymous?
    ensures r.Crash? <==> Given(boardKw) && Given(listKw) && p.SignedIn?
                          && IsOwnerOrActiveMember(db, boardKw.value, p.id) && ListBoard(db, listKw.value).None?
    ensures r.Allow? || r.NotFound? || r.Denied? || r.Crash?
  {
    if !Given(boardKw) || !Given(listKw) then NotFound
    else if p.Anonymous? then Denied
    else
      var board := GetUserBoard(db, boardKw.value, p);
      if !board.Allow? then NotFound
      else
        var list := HideDenial(GetUserList(db, listKw.value, p, board.value));
        if list.Allow? then Allow((board.value, list.value)) else list.Fail()
  }

  class ListAccessView {
    var board: Option<Id>
    /** `self.list_obj` */
    var listObj: Option<Id>

    constructor ()
      ensures board == None && listObj == None
    {
      board, listObj := None, None;
    }

    /** `self.board` is assigned as soon as get_user_board returns, even when
        get_user_list then fails. */
    method Dispatch(db: Db, boardKw: Option<Id>, listKw: Option<Id>, p: Principal) returns (r: Outcome<(Id, Id)>)
      modifies this
      ensures r == ListAccess(db, boardKw, listKw, p)
      ensures r.Allow? ==> board == Some(r.value.0) && listObj == Some(r.value.1)
      ensures !r.Allow? ==> listObj == old(listObj)
      ensures board == old(board) || (Given(boardKw) && board == Some(boardKw.value) && GetUserBoard(db, boardKw.value, p).Allow?)
    {
      if !Given(boardKw) || !Given(listKw) {
        return NotFound;
      }
      if p.Anonymous? {
        return Denied;
      }
      var found := GetUserBoard(db, boardKw.value, p);
      if !found.Allow? {
        return NotFound;
      }
      board := Some(found.value);
      var list := GetUserList(db, listKw.value, p, found.value);
      if !list.Allow? {
        return HideDenial(list).Fail();
      }
      listObj := Some(list.value);
      r := Allow((found.value, list.value));
    }
  }

  /** CardAccessMixin: the id must be given; then get_user_card, whose 404 and
      PermissionDenied become 404. A card id with no row makes
      is_owner_or_member raise DoesNotExist, which is not caught. */
  function CardAccess(db: Db, cardKw: Option<Id>, p: Principal): (r: Outcome<Id>)
    ensures r.Allow? <==> Given(cardKw) && p.SignedIn? && BoardOf(db, cardKw.value, CardClass).Some?
                          && IsOwnerOrActiveMember(db, BoardOf(db, cardKw.value, CardClass).value, p.id)
    ensures r.Allow? ==> r.value == cardKw.value && r.value in db.cards
    ensures r.Denied? <==> Given(cardKw) && p.Anonymous?
    ensures r.Crash? <==> Given(cardKw) && p.SignedIn? && BoardOf(db, cardKw.value, CardClass).None?
    ensures r.Allow? || r.NotFound? || r.Denied? || r.Crash?
  {
    if !Given(cardKw) then NotFound
    else if p.Anonymous? then Denied
    else HideDenial(GetUserCard(db, cardKw.value, p))
  }

  class CardAccessView {
    /** `self.card` */
    var card: Option<Id>

    constructor ()
      ensures card == None
    {
      card := None;
    }

    method Dispatch(db: Db, cardKw: Option<Id>, p: Principal) returns (r: Outcome<Id>)
      modifies this
      ensures r == CardAccess(db, cardKw, p)
      ensures card == if r.Allow? then Some(r.value) else old(card)
    {
      if !Given(cardKw) {
        return NotFound;
      }
      if p.Anonymous? {
        return Denied;
      }
      var found := GetUserCard(db, cardKw.value, p);
      if !found.Allow? {
        return HideDenial(found);
      }
      card := Some(found.value);
      r := found;
    }
  }

  /** BoardOwnerMixin: only the board's owner passes; a missing board, and
      anyone else signed in, admins included, get 404. */
  function BoardOwner(db: Db, boardKw: Option<Id>, p: Principal): (r: Outcome<Id>)
    ensures r.Allow? <==> Given(boardKw) && p.SignedIn? && boardKw.value in db.boards
                          && db.boards[boardKw.value].owner == p.id
    ensures r.Allow? ==> r.value == boardKw.value
    ensures r.Denied? <==> Given(boardKw) && p.Anonymous?
    ensures r.Allow? || r.NotFound? || r.Denied?
  {
    if !Given(boardKw) then NotFound
    else if p.Anonymous? then Denied
    else if boardKw.value !in db.boards then NotFound
    else if db.boards[boardKw.value].owner != p.id then NotFound
    else Allow(boardKw.value)
  }

  class BoardOwnerView {
    var board: Option<Id>

    constructor ()
      ensures board == None
    {
      board := None;
    }

    method Dispatch(db: Db, boardKw: Option<Id>, p: Principal) returns (r: Outcome<Id>)
      modifies this
      ensures r == BoardOwner(db, boardKw, p)
      ensures board == if r.Allow? then Some(r.value) else old(board)
    {
      if !Given(boardKw) {
        return NotFound;
      }
      if p.Anonymous? {
        return Denied;
      }
      var b := boardKw.value;
      if b !in db.boards || db.boards[b].owner != p.id {
        return NotFound;
      }
      board := Some(b);
      r := Allow(b);
    }
  }

  /** Every mixin looks at its id before at the requester: a missing or zero
      id is 404 for everyone, anonymous requesters included. */
  lemma MissingIdIsNotFound(db: Db, k: Option<Id>, other: Option<Id>, p: Principal)
    requires !Given(k)
    ensures BoardAccess(db, k, p) == NotFound
    ensures ListAccess(db, k, other, p) == NotFound && ListAccess(db, other, k, p) == NotFound
    ensures CardAccess(db, k, p) == NotFound
    ensures BoardOwner(db, k, p) == NotFound
  {
  }

  /** An active Admin who does not own the board gets through BoardAccessMixin
      but not through BoardOwnerMixin. */
  lemma AdminIsNotOwner(db: Db, b: Id, u: Id, m: Id)
    requires b != 0 && b in db.boards && db.boards[b].owner != u
    requires IsActiveMembership(db, m, b, u) && db.memberships[m].role == Admin
    ensures BoardAccess(db, Some(b), SignedIn(u)) == Allow(b)
    ensures BoardOwner(db, Some(b), SignedIn(u)) == NotFound
  {
  }
}
