/** apps/invitations: the Invitation record's status values and text form,
    and InvitationSendForm.clean_email. Creating an invitation, with its
    unique constraints and default status, is `Repository.InsertInvitation`. */
module Invitations {
  import opened Common
  import opened PyStr
  import opened BoardModels

  /** The stored value of each status. */
  function StatusCode(s: InvitationStatus): string {
    match s
    case Pending => "pending"
    case Accepted => "accepted"
    case Rejected => "rejected"
  }

  /** The status a stored value denotes, if it is one of the three. */
  function ParseStatus(v: string): (r: Option<InvitationStatus>)
    ensures r.Some? ==> StatusCode(r.value) == v
    ensures r.None? ==> forall s: InvitationStatus :: StatusCode(s) != v
  {
    if v == "pending" then Some(Pending)
    else if v == "accepted" then Some(Accepted)
    else if v == "rejected" then Some(Rejected)
    else None
  }

  /** A new invitation is pending. */
  lemma DefaultIsPending()
    ensures StatusCode(DefaultInvitationStatus) == "pending"
    ensures ParseStatus("pending") == Some(DefaultInvitationStatus)
  {
  }

  /** `Invitation.__str__`, reading the board's title and the inviter's
      username through the foreign keys. */
  function InvitationText(db: Db, i: Id): (r: string)
    requires i in db.invitations
    requires db.invitations[i].board in db.boards && db.invitations[i].inviter in db.users
    ensures StartsWith(r, "Invitation to " + db.invitations[i].email)
  {
    var inv := db.invitations[i];
    var text := "Invitation to " + inv.email + " for " + db.boards[inv.board].title + " by " + db.users[inv.inviter].username;
    assert text[..|"Invitation to " + inv.email|] == "Invitation to " + inv.email;
    text
  }

  /** The text names the invited address, the board's title and the
      inviter's username. */
  lemma InvitationTextMentions(db: Db, i: Id)
    requires i in db.invitations
    requires db.invitations[i].board in db.boards && db.invitations[i].inviter in db.users
    ensures Contains(InvitationText(db, i), db.invitations[i].email)
    ensures Contains(InvitationText(db, i), db.boards[db.invitations[i].board].title)
    ensures Contains(InvitationText(db, i), db.users[db.invitations[i].inviter].username)
  {
    var inv := db.invitations[i];
    var title := db.boards[inv.board].title;
    var username := db.users[inv.inviter].username;
    var text := InvitationText(db, i);
    assert OccursAt(inv.email, inv.email, 0);
    ContainsExtend("Invitation to ", inv.email, " for " + title + " by " + username, inv.email);
    assert text == "Invitation to " + inv.email + (" for " + title + " by " + username);
    assert OccursAt(title, title, 0);
    ContainsExtend("Invitation to " + inv.email + " for ", title, " by " + username, title);
    assert text == ("Invitation to " + inv.email + " for ") + title + (" by " + username);
    assert OccursAt(username, username, 0);
    ContainsExtend("Invitation to " + inv.email + " for " + title + " by ", username, "", username);
    assert text == ("Invitation to " + inv.email + " for " + title + " by ") + username + "";
  }

  /** Membership `m` is on board `b` and belongs to a user whose email is
      exactly `email` (no case folding), active or not. */
  predicate HeldBy(db: Db, m: Id, b: Id, email: string) {
    m in db.memberships && db.memberships[m].board == b
    && db.memberships[m].user in db.users && db.users[db.memberships[m].user].email == email
  }

  /** clean_email: refuse an address that belongs to a user with a
      membership on this board; an accepted address is returned as given.
      With no board the query matches nothing. */
  function CleanEmail(db: Db, board: Option<Id>, email: string): (r: Outcome<string>)
    ensures r.Allow? ==> r.value == email
    ensures r.Invalid? <==> board.Some? && exists m :: HeldBy(db, m, board.value, email)
    ensures r.Allow? || r.Invalid?
  {
    if board.Some? && exists m :: m in db.memberships && HeldBy(db, m, board.value, email) then Invalid
    else Allow(email)
  }

  /** An inactive membership blocks the invitation as well. */
  lemma InactiveMembershipBlocks(db: Db, b: Id, m: Id, email: string)
    requires HeldBy(db, m, b, email) && !db.memberships[m].isActive
    ensures CleanEmail(db, Some(b), email) == Invalid
  {
  }

  /** Memberships on other boards never block: the verdict depends only on
      this board's memberships. */
  lemma OtherBoardsNeverBlock(db: Db, db2: Db, b: Id, email: string)
    requires db2.users == db.users
    requires forall m :: m in db.memberships && db.memberships[m].board == b
                         <==> m in db2.memberships && db2.memberships[m].board == b
    requires forall m :: m in db.memberships && db.memberships[m].board == b ==> db2.memberships[m] == db.memberships[m]
    ensures CleanEmail(db, Some(b), email) == CleanEmail(db2, Some(b), email)
  {
    if exists m :: HeldBy(db, m, b, email) {
      var m :| HeldBy(db, m, b, email);
      assert HeldBy(db2, m, b, email);
    }
    if exists m :: HeldBy(db2, m, b, email) {
      var m :| HeldBy(db2, m, b, email);
      assert HeldBy(db, m, b, email);
    }
  }
}
