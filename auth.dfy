/** FlexibleAuthenticationBackend.authenticate (apps/accounts/auth_backend.py):
    sign-in by username or by email. The stored password stands for its hash,
    so `check_password` is equality; `user_can_authenticate` is the user's
    `is_active` flag. */
module AuthBackend {
  import opened Common
  import opened BoardModels

  /** The users `Q(username=login) | Q(email=login)` matches. */
  function Candidates(db: Db, login: string): (r: set<Id>)
    ensures r <= db.users.Keys
    ensures forall u :: u in db.users ==> (u in r <==> db.users[u].username == login || db.users[u].email == login)
  {
    set u | u in db.users && (db.users[u].username == login || db.users[u].email == login)
  }

  /** check_password and user_can_authenticate. */
  predicate Accepts(user: User, password: string) {
    user.password == password && user.isActive
  }

  /** authenticate: None without both credentials or without a matching user.
      With one match that user is tried (`get`); with several only the first
      by key is tried (`first()`); the user is returned when it accepts the
      password and may sign in, and None otherwise. */
  function Authenticate(db: Db, username: Option<string>, password: Option<string>): (r: Option<Id>)
    ensures username.None? || password.None? ==> r.None?
    ensures r.Some? ==> username.Some? && password.Some? && r.value in Candidates(db, username.value)
                        && r.value == Min(Candidates(db, username.value))
                        && Accepts(db.users[r.value], password.value)
    ensures (username.Some? && password.Some? && Candidates(db, username.value) != {}
             && Accepts(db.users[Min(Candidates(db, username.value))], password.value)) ==> r.Some?
  {
    if username.None? || password.None? then None
    else
      var candidates := Candidates(db, username.value);
      if candidates == {} then None
      else
        // `get` when there is exactly one row; with several, `first()`, the
        // lowest key. With one row the two coincide.
        var user := Min(candidates);
        if Accepts(db.users[user], password.value) then Some(user) else None
  }

  /** Only the first candidate is tried: when it rejects the password, the
      result is None even if another candidate would accept it. */
  lemma OnlyFirstCandidateTried(db: Db, login: string, password: string, other: Id)
    requires other in Candidates(db, login) && other != Min(Candidates(db, login))
    requires !Accepts(db.users[Min(Candidates(db, login))], password)
    ensures Authenticate(db, Some(login), Some(password)) == None
  {
  }

  /** Usernames and emails are unique among users. */
  ghost predicate UniqueLogins(db: Db) {
    forall a, b :: a in db.users && b in db.users && a != b ==>
      db.users[a].username != db.users[b].username && db.users[a].email != db.users[b].email
  }

  /** With unique usernames and emails a login string matches at most two
      users: one by username and one by email. */
  lemma AtMostTwoCandidates(db: Db, login: string)
    requires UniqueLogins(db)
    ensures |Candidates(db, login)| <= 2
  {
    var byName := set u | u in db.users && db.users[u].username == login;
    var byEmail := set u | u in db.users && db.users[u].email == login;
    AtMostOne(byName);
    AtMostOne(byEmail);
    assert Candidates(db, login) <= byName + byEmail;
    SubsetCardinality(Candidates(db, login), byName + byEmail);
  }

  /** A set whose elements are all equal has at most one of them. */
  lemma AtMostOne(s: set<Id>)
    requires forall a, b :: a in s && b in s ==> a == b
    ensures |s| <= 1
  {
    if s != {} {
      var x := PickOne(s);
      assert forall y :: y in s <==> y in {x};
      assert s == {x};
    }
  }
}
