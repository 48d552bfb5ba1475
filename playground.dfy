/** SuperuserRequiredMixin (apps/playground/permissions.py). */
module Playground {
  import opened Common
  import opened BoardModels

  /** dispatch: an anonymous requester goes to handle_no_permission, which
      redirects to the login page; a signed-in user who is not a superuser is
      refused; a superuser reaches the view. */
  function SuperuserRequired(db: Db, p: Principal): (r: Outcome<Id>)
    requires p.SignedIn? ==> p.id in db.users
    ensures r.RedirectToLogin? <==> p.Anonymous?
    ensures r.Denied? <==> p.SignedIn? && !db.users[p.id].isSuperuser
    ensures r.Allow? <==> p.SignedIn? && db.users[p.id].isSuperuser
    ensures r.Allow? ==> r.value == p.id
  {
    if p.Anonymous? then RedirectToLogin
    else if !db.users[p.id].isSuperuser then Denied
    else Allow(p.id)
  }
}
