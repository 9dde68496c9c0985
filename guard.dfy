/**
 * The navigation guard of the client (guard.ts): after the signed-in user
 * is loaded, a navigation goes ahead or is redirected, exactly once.
 */
module Guard {
  import MeStore
  import opened Outcomes

  datatype Navigation = Proceed | Redirect(path: string)

  predicate IsPublicPath(path: string) {
    path in {"/", "/login", "/verify-token"}
  }

  predicate IsLoginPath(path: string) {
    path in {"/login", "/verify-token"}
  }

  /** Admin paths: everything that starts with "/users", "/users-list" included. */
  predicate IsAdminPath(path: string) {
    "/users" <= path
  }

  /**
   * The decision for a navigation to `path`. `initThrew`: loading the user
   * failed, and the navigation goes ahead unchecked.
   */
  function Decide(path: string, initThrew: bool, isLoggedIn: bool, isAdmin: bool): (n: Navigation)
    ensures initThrew ==> n == Proceed
    ensures !initThrew && !isLoggedIn ==> (n == Proceed <==> IsPublicPath(path)) && (n != Proceed ==> n == Redirect("/login"))
    ensures !initThrew && isLoggedIn ==> ((n == Proceed <==> !IsLoginPath(path) && (isAdmin || !IsAdminPath(path)))
      && (n != Proceed ==> n == Redirect("/")))
  {
    if initThrew then Proceed
    else if !isLoggedIn && !IsPublicPath(path) then Redirect("/login")
    else if isLoggedIn && IsLoginPath(path) then Redirect("/")
    else if isLoggedIn && !isAdmin && IsAdminPath(path) then Redirect("/")
    else Proceed
  }

  /** Unless loading the user failed, nobody signed out gets past the public pages and no non-admin reaches an admin page. */
  lemma GuardProtects(path: string, isLoggedIn: bool, isAdmin: bool)
    requires Decide(path, false, isLoggedIn, isAdmin) == Proceed
    ensures !isLoggedIn ==> IsPublicPath(path)
    ensures IsAdminPath(path) ==> isLoggedIn && isAdmin
  {
    assert !IsAdminPath("/") && !IsAdminPath("/login") && !IsAdminPath("/verify-token") by {
      assert |"/"| < |"/users"|;
      assert "/login"[1] != "/users"[1];
      assert "/verify-token"[1] != "/users"[1];
    }
  }

  /** A redirect's target is never redirected again for the same user: the guard settles in at most one hop. */
  lemma RedirectSettles(path: string, isLoggedIn: bool, isAdmin: bool)
    requires Decide(path, false, isLoggedIn, isAdmin).Redirect?
    ensures Decide(Decide(path, false, isLoggedIn, isAdmin).path, false, isLoggedIn, isAdmin) == Proceed
  {
    assert !IsAdminPath("/") && !IsAdminPath("/login") by {
      assert |"/"| < |"/users"|;
      assert "/login"[1] != "/users"[1];
    }
  }

  /**
   * `routeGuard`: load the user, then decide on the store as `init` left
   * it; an `init` that throws lets the navigation through unchecked. A
   * signed-out user's refresh resolves to null, `init` throws reading
   * `data` out of it, and so that user passes on every path; an object
   * without a user would have sent them to the login page instead.
   */
  method RouteGuard(me: MeStore.Store, path: string, reply: MeStore.Reply) returns (n: Navigation)
    modifies me
    ensures var requested := !(old(me.isInitialized) && old(me.isAuthenticated));
      n == Decide(path, requested && !reply.Data?, me.isAuthenticated, MeStore.IsAdmin(me.user))
    ensures !old(me.isAuthenticated) && reply == MeStore.NullReply ==> n == Proceed && !me.isAuthenticated
    ensures !old(me.isAuthenticated) && reply == MeStore.Data(None) ==> (n == Proceed <==> IsPublicPath(path))
  {
    var requested, r := me.Init(reply);
    n := Decide(path, r.Err?, me.isAuthenticated, MeStore.IsAdmin(me.user));
  }
}
