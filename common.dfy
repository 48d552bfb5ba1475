/** Shared vocabulary: identifiers, the optional value, the outcome of a
    request-scoped gate, and the extreme elements of a finite set of integers
    (what the database's MAX aggregate and `.first()` by primary key return). */
module Common {

  /** Primary keys. Django hands out positive integers; nothing here depends on it. */
  type Id = int


  datatype Option<+T> = None | Some(value: T) {
    function GetOr(default: T): T {
      match this
      case Some(v) => v
      case None => default
    }
  }

  /** Who makes a request: Django's AnonymousUser, or an authenticated user. */
  datatype Principal = Anonymous | SignedIn(id: Id)

  /** How a gate or a request handler ends: with the object it resolved, or
      with the exception or early response that ends the request instead. */
  datatype Outcome<+T> =
    | Allow(value: T)     // the check passed; the value is what it resolved
    | NotFound            // Http404 (also get_object_or_404)
    | Denied              // PermissionDenied, answered with 403
    | RedirectToLogin     // AccessMixin.handle_no_permission for an anonymous user
    | BadRequest          // the view itself answers 400
    | Invalid             // a ValidationError is raised
    | Crash               // an exception nobody catches (DoesNotExist, AttributeError on None, ...)
  {
    /** The same failure, seen by a caller that expected another value type. */
    function Fail<U>(): (r: Outcome<U>)
      requires !Allow?
      ensures !r.Allow?
    {
      match this
      case NotFound => NotFound
      case Denied => Denied
      case RedirectToLogin => RedirectToLogin
      case BadRequest => BadRequest
      case Invalid => Invalid
      case Crash => Crash
    }
  }

  lemma {:induction false} MaxExists(s: set<int>)
    requires s != {}
    ensures exists m :: m in s && forall x :: x in s ==> x <= m
  {
    var y := PickOne(s);
    var rest := s - {y};
    assert s == rest + {y};
    if rest == {} {
      assert s == {y};
      assert forall x :: x in s ==> x <= y;
    } else {
      MaxExists(rest);
      var m :| m in rest && forall x :: x in rest ==> x <= m;
      if m < y {
        assert forall x :: x in s ==> x <= y;
      } else {
        assert forall x :: x in s ==> x <= m;
      }
    }
  }

  lemma {:induction false} MinExists(s: set<int>)
    requires s != {}
    ensures exists m :: m in s && forall x :: x in s ==> m <= x
  {
    var y := PickOne(s);
    var rest := s - {y};
    assert s == rest + {y};
    if rest == {} {
      assert s == {y};
      assert forall x :: x in s ==> y <= x;
    } else {
      MinExists(rest);
      var m :| m in rest && forall x :: x in rest ==> m <= x;
      if y < m {
        assert forall x :: x in s ==> y <= x;
      } else {
        assert forall x :: x in s ==> m <= x;
      }
    }
  }

  /** Set extensionality, spelled out: a set with no member is the empty set. */
  lemma NoMemberMeansEmpty<T>(s: set<T>)
    ensures (forall x :: x !in s) ==> s == {}
  {
    if forall x :: x !in s {
      assert forall x :: x in s <==> x in {};
    }
  }

  /** Some element of a non-empty set. */
  lemma PickOne<T>(s: set<T>) returns (y: T)
    requires s != {}
    ensures y in s
  {
    NoMemberMeansEmpty(s);
    y :| y in s;
  }

  /** A subset is no larger than the set that holds it. */
  lemma {:induction false} SubsetCardinality(a: set<Id>, b: set<Id>)
    requires a <= b
    ensures |a| <= |b|
  {
    if a != {} {
      var x := PickOne(a);
      SubsetCardinality(a - {x}, b - {x});
    }
  }

  /** The largest element: what SQL's MAX returns over a non-empty column. */
  function Max(s: set<int>): (m: int)
    requires s != {}
    ensures m in s && forall x :: x in s ==> x <= m
  {
    MaxExists(s);
    var m :| m in s && forall x :: x in s ==> x <= m;
    m
  }

  /** The smallest element: the row `.first()` picks from an unordered query (lowest key). */
  function Min(s: set<int>): (m: int)
    requires s != {}
    ensures m in s && forall x :: x in s ==> m <= x
  {
    MinExists(s);
    var m :| m in s && forall x :: x in s ==> m <= x;
    m
  }
}
