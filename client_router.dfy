/** The client router's `beforeEach` guard: every page but the login and signup pages needs a user
    in local storage. */
module ClientRouter {
  import opened Js

  const PublicPages: seq<string> := ["/login", "/signup"]

  /** The one call the guard makes to `next`: `next()` or `next('/login')`. */
  datatype Navigation = Proceed | Redirect(path: string)

  /** `beforeEach` for a navigation to `path`; `stored` is `localStorage.getItem('user')`, `None`
      when there is no such entry. */
  function BeforeEach(path: string, stored: Option<string>): (n: Navigation)
    ensures path in PublicPages ==> n == Proceed
    ensures stored.Some? && stored.value != "" ==> n == Proceed
    ensures n.Redirect? <==> path !in PublicPages && (stored.None? || stored.value == "")
    ensures n.Redirect? ==> n.path == "/login"
  {
    var authRequired := path !in PublicPages;
    var loggedIn := stored.Some? && stored.value != "";
    if authRequired && !loggedIn then Redirect("/login") else Proceed
  }

  /** A redirect always lands on a page the guard lets through, so no navigation loops. */
  lemma RedirectLandsOnPublicPage(path: string, stored: Option<string>)
    requires BeforeEach(path, stored).Redirect?
    ensures BeforeEach(BeforeEach(path, stored).path, stored) == Proceed
  {
    assert PublicPages[0] == "/login";
  }
}
