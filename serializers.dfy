/** The validators and the create of apps/boards/serializers.py. The
    validators are pure: they return the attributes they were given or raise
    ValidationError (`Invalid`). */
module BoardSerializers {
  import opened Common
  import opened BoardModels

  /** What the validators read from the serializer context's request: the
      HTTP method and the signed-in user. */
  datatype SerializerRequest = SerializerRequest(httpMethod: string, user: Id)

  /** BoardSerializer.validate: only a POST by a user who already owns
      `maxBoards` boards or more is refused; everything else passes the
      attributes through unchanged. */
  function ValidateBoard<A>(db: Db, request: Option<SerializerRequest>, attrs: A, maxBoards: int): (r: Outcome<A>)
    ensures r.Allow? ==> r.value == attrs
    ensures r.Invalid? <==> request.Some? && request.value.httpMethod == "POST"
                            && |OwnedBoards(db, request.value.user)| >= maxBoards
    ensures r.Allow? || r.Invalid?
  {
    if request.Some? && request.value.httpMethod == "POST" then
      var boardsCount := |OwnedBoards(db, request.value.user)|;
      if boardsCount >= maxBoards then Invalid else Allow(attrs)
    else Allow(attrs)
  }

  /** The validated fields of a new board. */
  datatype BoardData = BoardData(title: string, description: string, color: string)

  /** BoardSerializer.create: the board, owned by the requesting user, and
      that user's Owner membership, inserted together (the atomic block makes
      the pair one step). */
  method CreateBoard(repo: Repository, user: Id, data: BoardData) returns (b: Id)
    requires repo.Valid() && user in repo.users
    modifies repo
    ensures repo.Valid()
    ensures b !in old(repo.boards)
    ensures repo.boards == old(repo.boards)[b := Board(user, data.title, data.description, data.color)]
    ensures exists m :: m !in old(repo.memberships) && repo.memberships == old(repo.memberships)[m := OwnerMembership(user, b)]
    ensures repo.users == old(repo.users) && repo.lists == old(repo.lists)
    ensures repo.cards == old(repo.cards) && repo.invitations == old(repo.invitations)
  {
    b := repo.InsertBoard(Board(user, data.title, data.description, data.color));
    var m := repo.InsertMembership(OwnerMembership(user, b));
  }

  /** After the create, the creator is an active member of the new board
      with the Owner role, so the membership-based checks let them in. */
  lemma CreatorBecomesActiveOwner(db: Db, b: Id, m: Id, user: Id)
    requires m in db.memberships && db.memberships[m] == OwnerMembership(user, b)
    ensures IsActiveMember(db, b, user)
    ensures db.memberships[m].role == Owner && db.memberships[m].canEdit && db.memberships[m].canComment && db.memberships[m].canInvite
  {
    assert IsActiveMembership(db, m, b, user);
  }

  /** ListSerializer.validate_board: the requester must hold an active
      membership row on the board; without a request the user is None, which
      no membership matches. */
  function ValidateListBoard(db: Db, requestUser: Option<Id>, board: Id): (r: Outcome<Id>)
    ensures r.Allow? <==> requestUser.Some? && IsActiveMember(db, board, requestUser.value)
    ensures r.Allow? ==> r.value == board
    ensures r.Allow? || r.Invalid?
  {
    var isMember := requestUser.Some? && IsActiveMember(db, board, requestUser.value);
    if !isMember then Invalid else Allow(board)
  }

  /** Owning the board is not enough to add a list to it through the
      serializer. */
  lemma OwnershipAloneIsNotMembership(db: Db, board: Id, u: Id)
    requires board in db.boards && db.boards[board].owner == u && !IsActiveMember(db, board, u)
    ensures ValidateListBoard(db, Some(u), board) == Invalid
  {
  }

  /** The card attributes the validator reads: the target list and the
      assignee as resolved keys, and the remaining fields, passed through. */
  datatype CardAttrs = CardAttrs(list: Option<Id>, assignee: Option<Id>, fields: map<string, string>)

  /** `attrs.get("list") or getattr(self.instance, "list", None)` */
  function TargetList(attrs: CardAttrs, instanceList: Option<Id>): Option<Id> {
    if attrs.list.Some? then attrs.list else instanceList
  }

  /** CardSerializer validation. DRF resolves the `list` field first
      (PrimaryKeyRelatedField), so a key naming no list is a ValidationError
      before `validate` runs; the list of a saved card exists by its foreign
      key. Then `validate`: with no target list there is nothing to check;
      otherwise the requester, and the assignee when one is given, must be
      active members of the target list's board. */
  function ValidateCard(db: Db, requestUser: Option<Id>, instanceList: Option<Id>, attrs: CardAttrs): (r: Outcome<CardAttrs>)
    requires instanceList.Some? ==> instanceList.value in db.lists
    ensures r.Allow? ==> r.value == attrs
    ensures TargetList(attrs, instanceList).None? ==> r == Allow(attrs)
    ensures attrs.list.Some? && attrs.list.value !in db.lists ==> r == Invalid
    ensures r.Allow? && TargetList(attrs, instanceList).Some? ==>
              var b := db.lists[TargetList(attrs, instanceList).value].board;
              requestUser.Some? && IsActiveMember(db, b, requestUser.value)
              && (attrs.assignee.Some? ==> IsActiveMember(db, b, attrs.assignee.value))
    ensures r.Invalid? && TargetList(attrs, instanceList).Some? && TargetList(attrs, instanceList).value in db.lists ==>
              var b := db.lists[TargetList(attrs, instanceList).value].board;
              requestUser.None? || !IsActiveMember(db, b, requestUser.value)
              || (attrs.assignee.Some? && !IsActiveMember(db, b, attrs.assignee.value))
    ensures r.Allow? || r.Invalid?
  {
    if attrs.list.Some? && attrs.list.value !in db.lists then Invalid
    else
      var targetList := TargetList(attrs, instanceList);
      if targetList.None? then Allow(attrs)
      else
        var board := db.lists[targetList.value].board;
        if requestUser.None? || !IsActiveMember(db, board, requestUser.value) then Invalid
        else if attrs.assignee.Some? && !IsActiveMember(db, board, attrs.assignee.value) then Invalid
        else Allow(attrs)
  }
}
