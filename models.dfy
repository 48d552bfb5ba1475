/** The persistent data of the application (apps/boards/models.py,
    apps/invitations/models.py, and the Membership and User rows those files
    refer to) and the store that holds it. The store is a class with one map
    per table; every operation that inserts, saves or deletes rows is a method
    on it, and the pure checks elsewhere read its value, `Repository.State()`. */
module BoardModels {
  import opened Common

  /** A member's role on a board. The numeric values behind the roles do not
      matter here: no rule of the application compares roles by number. */
  datatype Role = Owner | Admin | Member | Viewer

  /** Board.COLOR_CHOICES. */
  datatype Color = Blue | Green | Yellow | Red | Purple | Orange | Pink

  function ColorCode(c: Color): string {
    match c
    case Blue => "blue"
    case Green => "green"
    case Yellow => "yellow"
    case Red => "red"
    case Purple => "purple"
    case Orange => "orange"
    case Pink => "pink"
  }

  /** The choice a stored colour value denotes, if it is one of the seven. */
  function ParseColor(s: string): (r: Option<Color>)
    ensures r.Some? ==> ColorCode(r.value) == s
    ensures r.None? ==> forall c: Color :: ColorCode(c) != s
  {
    if s == "blue" then Some(Blue)
    else if s == "green" then Some(Green)
    else if s == "yellow" then Some(Yellow)
    else if s == "red" then Some(Red)
    else if s == "purple" then Some(Purple)
    else if s == "orange" then Some(Orange)
    else if s == "pink" then Some(Pink)
    else None
  }

  /** Card.PRIORITY_CHOICES. */
  datatype PriorityChoice = Low | Medium | High | Top | Important | ImportantAndUrgent | Urgent | NotImportant

  function PriorityCode(p: PriorityChoice): string {
    match p
    case Low => "low"
    case Medium => "medium"
    case High => "high"
    case Top => "top"
    case Important => "important"
    case ImportantAndUrgent => "important_and_urgent"
    case Urgent => "urgent"
    case NotImportant => "not_important"
  }

  /** The choice a stored priority value denotes, if it is one of the eight. */
  function ParsePriority(s: string): (r: Option<PriorityChoice>)
    ensures r.Some? ==> PriorityCode(r.value) == s
    ensures r.None? ==> forall p: PriorityChoice :: PriorityCode(p) != s
  {
    if s == "low" then Some(Low)
    else if s == "medium" then Some(Medium)
    else if s == "high" then Some(High)
    else if s == "top" then Some(Top)
    else if s == "important" then Some(Important)
    else if s == "important_and_urgent" then Some(ImportantAndUrgent)
    else if s == "urgent" then Some(Urgent)
    else if s == "not_important" then Some(NotImportant)
    else None
  }

  /** The fields of the custom user model that the modelled code reads. The
      password stands for the stored hash; `check_password` is equality. */
  datatype User = User(username: string, email: string, password: string, isActive: bool, isSuperuser: bool)

  /** Board row. The colour is stored as given: nothing validates it on create. */
  datatype Board = Board(owner: Id, title: string, description: string, color: string)

  /** List row. `order` is any integer; two lists of one board may share it. */
  datatype BoardList = BoardList(board: Id, title: string, order: int)

  /** Card row. The HTMX views store the priority as an integer (`int(priority)`),
      and the board page sorts on it as a number. */
  datatype Card = Card(list: Id, title: string, description: string, priority: int, order: int)

  /** Membership row: who may use which board, and how. */
  datatype Membership = Membership(
    user: Id, board: Id, role: Role, isActive: bool,
    canEdit: bool, canComment: bool, canInvite: bool)

  /** The membership both board-creation paths insert for the new owner:
      Owner role, all three capability flags, and active (the default). */
  function OwnerMembership(u: Id, b: Id): Membership {
    Membership(u, b, Owner, true, true, true, true)
  }

  /** Invitation.STATUS_CHOICES. */
  datatype InvitationStatus = Pending | Accepted | Rejected

  /** The status an invitation gets when none is given. */
  const DefaultInvitationStatus := Pending

  datatype Invitation = Invitation(email: string, token: string, board: Id, inviter: Id, status: InvitationStatus)

  /** The whole database: one map from primary key to row per table. */
  datatype Db = Db(
    users: map<Id, User>,
    boards: map<Id, Board>,
    lists: map<Id, BoardList>,
    cards: map<Id, Card>,
    memberships: map<Id, Membership>,
    invitations: map<Id, Invitation>)

  /** Every foreign key points at an existing row. */
  ghost predicate ForeignKeysHold(db: Db) {
    && (forall b :: b in db.boards ==> db.boards[b].owner in db.users)
    && (forall l :: l in db.lists ==> db.lists[l].board in db.boards)
    && (forall c :: c in db.cards ==> db.cards[c].list in db.lists)
    && (forall m :: m in db.memberships ==> db.memberships[m].user in db.users && db.memberships[m].board in db.boards)
    && (forall i :: i in db.invitations ==> db.invitations[i].board in db.boards && db.invitations[i].inviter in db.users)
  }

  /** The unique constraints of Invitation: `token` (unique=True) and
      `unique_together = ('email', 'board')`. */
  ghost predicate InvitationsUnique(invitations: map<Id, Invitation>) {
    forall i, j :: i in invitations && j in invitations && i != j ==>
      invitations[i].token != invitations[j].token
      && (invitations[i].email != invitations[j].email || invitations[i].board != invitations[j].board)
  }

  /** What the database itself guarantees about every state. */
  ghost predicate WellFormed(db: Db) {
    ForeignKeysHold(db) && InvitationsUnique(db.invitations)
  }

  /** Membership `m` is an active membership of user `u` on board `b`. */
  predicate IsActiveMembership(db: Db, m: Id, b: Id, u: Id) {
    m in db.memberships && db.memberships[m].user == u && db.memberships[m].board == b && db.memberships[m].isActive
  }

  /** `Membership.objects.filter(user=u, board=b, is_active=True).exists()` */
  predicate IsActiveMember(db: Db, b: Id, u: Id) {
    exists m :: m in db.memberships && IsActiveMembership(db, m, b, u)
  }

  /** The keys of the rows that query returns. */
  function ActiveMemberships(db: Db, b: Id, u: Id): (r: set<Id>)
    ensures forall m :: m in r <==> IsActiveMembership(db, m, b, u)
    ensures r != {} <==> IsActiveMember(db, b, u)
  {
    var r := set m | m in db.memberships && IsActiveMembership(db, m, b, u);
    NoMemberMeansEmpty(r);
    r
  }

  /** "Owner or active member": what permissions.py calls access to a board. */
  predicate IsOwnerOrActiveMember(db: Db, b: Id, u: Id) {
    b in db.boards && (db.boards[b].owner == u || IsActiveMember(db, b, u))
  }

  /** The boards `u` owns: `Board.objects.filter(owner=u)`. */
  function OwnedBoards(db: Db, u: Id): set<Id> {
    set b | b in db.boards && db.boards[b].owner == u
  }

  /** The `order` values of the lists of board `b`. */
  function ListOrders(db: Db, b: Id): set<int> {
    set l | l in db.lists && db.lists[l].board == b :: db.lists[l].order
  }

  /** The `order` values of the cards of list `l`. */
  function CardOrders(db: Db, l: Id): set<int> {
    set c | c in db.cards && db.cards[c].list == l :: db.cards[c].order
  }

  /** Deleting the boards `bs`, with what `on_delete=CASCADE` takes along:
      their lists, those lists' cards, their memberships and their invitations. */
  function WithoutBoards(db: Db, bs: set<Id>): (r: Db)
    requires WellFormed(db)
    ensures WellFormed(r)
    ensures r.users == db.users
    ensures r.boards.Keys == db.boards.Keys - bs
    ensures forall l :: l in r.lists <==> l in db.lists && db.lists[l].board !in bs
    ensures forall c :: c in r.cards <==> c in db.cards && db.lists[db.cards[c].list].board !in bs
    ensures forall m :: m in r.memberships <==> m in db.memberships && db.memberships[m].board !in bs
    ensures forall i :: i in r.invitations <==> i in db.invitations && db.invitations[i].board !in bs
    ensures forall b :: b in r.boards ==> r.boards[b] == db.boards[b]
    ensures forall l :: l in r.lists ==> r.lists[l] == db.lists[l]
    ensures forall c :: c in r.cards ==> r.cards[c] == db.cards[c]
  {
    db.(
      boards := map b | b in db.boards && b !in bs :: db.boards[b],
      lists := map l | l in db.lists && db.lists[l].board !in bs :: db.lists[l],
      cards := map c | c in db.cards && db.lists[db.cards[c].list].board !in bs :: db.cards[c],
      memberships := map m | m in db.memberships && db.memberships[m].board !in bs :: db.memberships[m],
      invitations := map i | i in db.invitations && db.invitations[i].board !in bs :: db.invitations[i])
  }

  /** Deleting list `l` and, by cascade, its cards. */
  function WithoutList(db: Db, l: Id): (r: Db)
    requires WellFormed(db)
    ensures WellFormed(r)
    ensures r.lists.Keys == db.lists.Keys - {l}
    ensures forall k :: k in r.lists ==> r.lists[k] == db.lists[k]
    ensures forall c :: c in r.cards <==> c in db.cards && db.cards[c].list != l
    ensures forall c :: c in r.cards ==> r.cards[c] == db.cards[c]
    ensures r.users == db.users && r.boards == db.boards && r.memberships == db.memberships && r.invitations == db.invitations
  {
    db.(
      lists := map k | k in db.lists && k != l :: db.lists[k],
      cards := map c | c in db.cards && db.cards[c].list != l :: db.cards[c])
  }

  /** Deleting user `u`: the boards they own go (Board.owner is CASCADE, with
      everything that hangs from those boards), and so do their memberships and
      the invitations they sent (Invitation.inviter is CASCADE). */
  function WithoutUser(db: Db, u: Id): (r: Db)
    requires WellFormed(db)
    ensures WellFormed(r)
    ensures r.users.Keys == db.users.Keys - {u}
    ensures forall k :: k in r.users ==> r.users[k] == db.users[k]
    ensures forall b :: b in r.boards <==> b in db.boards && db.boards[b].owner != u
    ensures forall b :: b in r.boards ==> r.boards[b] == db.boards[b]
    ensures forall l :: l in r.lists <==> l in db.lists && db.boards[db.lists[l].board].owner != u
    ensures forall l :: l in r.lists ==> r.lists[l] == db.lists[l]
    ensures forall c :: c in r.cards <==> c in db.cards && db.boards[db.lists[db.cards[c].list].board].owner != u
    ensures forall c :: c in r.cards ==> r.cards[c] == db.cards[c]
    ensures forall m :: m in r.memberships <==>
              m in db.memberships && db.memberships[m].user != u && db.boards[db.memberships[m].board].owner != u
    ensures forall m :: m in r.memberships ==> r.memberships[m] == db.memberships[m]
    ensures forall i :: i in r.invitations <==>
              i in db.invitations && db.invitations[i].inviter != u && db.boards[db.invitations[i].board].owner != u
    ensures forall i :: i in r.invitations ==> r.invitations[i] == db.invitations[i]
  {
    var d := WithoutBoards(db, OwnedBoards(db, u));
    d.(
      users := map k | k in d.users && k != u :: d.users[k],
      memberships := map m | m in d.memberships && d.memberships[m].user != u :: d.memberships[m],
      invitations := map i | i in d.invitations && d.invitations[i].inviter != u :: d.invitations[i])
  }

  /** Every key in every table is below `next`, so `next` is a fresh key. */
  ghost predicate KeysBelow(db: Db, next: Id) {
    && (forall k :: k in db.users ==> k < next)
    && (forall k :: k in db.boards ==> k < next)
    && (forall k :: k in db.lists ==> k < next)
    && (forall k :: k in db.cards ==> k < next)
    && (forall k :: k in db.memberships ==> k < next)
    && (forall k :: k in db.invitations ==> k < next)
  }

  /** The database, as a store whose tables the methods below change in place. */
  class Repository {
    var users: map<Id, User>
    var boards: map<Id, Board>
    var lists: map<Id, BoardList>
    var cards: map<Id, Card>
    var memberships: map<Id, Membership>
    var invitations: map<Id, Invitation>
    /** The next primary key to hand out (one sequence for all tables). */
    var nextId: Id

    function State(): Db
      reads this
    {
      Db(users, boards, lists, cards, memberships, invitations)
    }

    ghost predicate Valid()
      reads this
    {
      WellFormed(State()) && KeysBelow(State(), nextId)
    }

    /** A database holding the given users and nothing else. */
    constructor (initialUsers: map<Id, User>, firstFreeId: Id)
      requires forall k :: k in initialUsers ==> k < firstFreeId
      ensures Valid()
      ensures State() == Db(initialUsers, map[], map[], map[], map[], map[])
    {
      users, boards, lists, cards, memberships, invitations := initialUsers, map[], map[], map[], map[], map[];
      nextId := firstFreeId;
    }

    /** Board.objects.create */
    method InsertBoard(board: Board) returns (b: Id)
      requires Valid() && board.owner in users
      modifies this
      ensures Valid()
      ensures b !in old(boards) && boards == old(boards)[b := board]
      ensures users == old(users) && lists == old(lists) && cards == old(cards)
      ensures memberships == old(memberships) && invitations == old(invitations)
    {
      b := nextId;
      nextId := nextId + 1;
      boards := boards[b := board];
    }

    /** Membership.objects.create */
    method InsertMembership(membership: Membership) returns (m: Id)
      requires Valid() && membership.user in users && membership.board in boards
      modifies this
      ensures Valid()
      ensures m !in old(memberships) && memberships == old(memberships)[m := membership]
      ensures users == old(users) && boards == old(boards) && lists == old(lists)
      ensures cards == old(cards) && invitations == old(invitations)
    {
      m := nextId;
      nextId := nextId + 1;
      memberships := memberships[m := membership];
    }

    /** List.objects.create */
    method CreateList(board: Id, title: string, order: int) returns (l: Id)
      requires Valid() && board in boards
      modifies this
      ensures Valid()
      ensures l !in old(lists) && lists == old(lists)[l := BoardList(board, title, order)]
      ensures users == old(users) && boards == old(boards) && cards == old(cards)
      ensures memberships == old(memberships) && invitations == old(invitations)
    {
      l := nextId;
      nextId := nextId + 1;
      lists := lists[l := BoardList(board, title, order)];
    }

    /** Card.objects.create */
    method CreateCard(list: Id, title: string, description: string, priority: int, order: int) returns (c: Id)
      requires Valid() && list in lists
      modifies this
      ensures Valid()
      ensures c !in old(cards) && cards == old(cards)[c := Card(list, title, description, priority, order)]
      ensures users == old(users) && boards == old(boards) && lists == old(lists)
      ensures memberships == old(memberships) && invitations == old(invitations)
    {
      c := nextId;
      nextId := nextId + 1;
      cards := cards[c := Card(list, title, description, priority, order)];
    }

    /** `card.save()` of an existing card: its row is replaced, no other row changes. */
    method SaveCard(c: Id, card: Card)
      requires Valid() && c in cards && card.list in lists
      modifies this
      ensures Valid()
      ensures cards == old(cards)[c := card]
      ensures users == old(users) && boards == old(boards) && lists == old(lists)
      ensures memberships == old(memberships) && invitations == old(invitations)
    {
      cards := cards[c := card];
    }

    /** `board.delete()`, with its cascades. */
    method DeleteBoard(b: Id)
      requires Valid()
      modifies this
      ensures Valid()
      ensures State() == WithoutBoards(old(State()), {b})
    {
      var d := WithoutBoards(State(), {b});
      boards, lists, cards, memberships, invitations := d.boards, d.lists, d.cards, d.memberships, d.invitations;
    }

    /** `list_obj.delete()`, with its cascade to the list's cards. */
    method DeleteList(l: Id)
      requires Valid()
      modifies this
      ensures Valid()
      ensures State() == WithoutList(old(State()), l)
    {
      var d := WithoutList(State(), l);
      lists, cards := d.lists, d.cards;
    }

    /** `card.delete()`: only that card goes. */
    method DeleteCard(c: Id)
      requires Valid()
      modifies this
      ensures Valid()
      ensures cards == old(cards) - {c}
      ensures users == old(users) && boards == old(boards) && lists == old(lists)
      ensures memberships == old(memberships) && invitations == old(invitations)
    {
      cards := cards - {c};
    }

    /** Deleting a user account, with what CASCADE takes along. */
    method DeleteUser(u: Id)
      requires Valid()
      modifies this
      ensures Valid()
      ensures State() == WithoutUser(old(State()), u)
    {
      var d := WithoutUser(State(), u);
      users, boards, lists, cards, memberships, invitations := d.users, d.boards, d.lists, d.cards, d.memberships, d.invitations;
    }

    /** Invitation.objects.create(email, board, inviter) with the token uuid4
        drew: it starts in the default status, and a row that would break a
        unique constraint makes the insert fail (IntegrityError). */
    method InsertInvitation(email: string, board: Id, inviter: Id, token: string) returns (r: Outcome<Id>)
      requires Valid() && board in boards && inviter in users
      modifies this
      ensures Valid()
      ensures r.Crash? <==> exists i :: i in old(invitations) && (old(invitations)[i].token == token
                                        || (old(invitations)[i].email == email && old(invitations)[i].board == board))
      ensures r.Allow? || r.Crash?
      ensures r.Allow? ==> r.value !in old(invitations)
      ensures r.Allow? ==> invitations == old(invitations)[r.value := Invitation(email, token, board, inviter, DefaultInvitationStatus)]
      ensures r.Crash? ==> invitations == old(invitations)
      ensures users == old(users) && boards == old(boards) && lists == old(lists)
      ensures cards == old(cards) && memberships == old(memberships)
    {
      if exists i :: i in invitations && (invitations[i].token == token || (invitations[i].email == email && invitations[i].board == board)) {
        r := Crash;
      } else {
        var i := nextId;
        nextId := nextId + 1;
        invitations := invitations[i := Invitation(email, token, board, inviter, DefaultInvitationStatus)];
        r := Allow(i);
      }
    }
  }
}
