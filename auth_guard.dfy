/** The admin guard, src/hooks/AuthGuard.jsx, and the hook it reads,
    src/hooks/useAuthStatus.js. The hook derives two flags from the auth
    slice's `user`; the guard redirects or renders its children from them.
    The router call is returned as the route replaced, if any. */
module AuthGuard {
  import opened Wrappers
  import opened Js

  const LoginRoute := "/login"
  const ShopRoute := "/shop"

  /** `user?.role === "admin"`. */
  predicate IsAdminUser(user: Value) {
    user.Obj? && StrictEq(Get(user.fields, "role"), Str("admin"))
  }

  /** `useAuthStatus()` as written: `{ user, isLoggedIn, isAdmin }`, with no
      `loading` field, although the slice has one. */
  function UseAuthStatus(user: Value): (r: Doc)
    ensures r.Keys == {"user", "isLoggedIn", "isAdmin"}
    ensures r["user"] == user
    ensures r["isLoggedIn"] == Bool(Truthy(user))
    ensures r["isAdmin"] == Bool(IsAdminUser(user))
    ensures Truthy(r["isAdmin"]) ==> Truthy(r["isLoggedIn"])
    ensures !Truthy(Get(r, "loading"))
  {
    map["user" := user, "isLoggedIn" := Bool(Truthy(user)), "isAdmin" := Bool(IsAdminUser(user))]
  }

  /** `useAuthStatus()` also passing on the slice's `loading`, as the guard
      expects. */
  function UseAuthStatusWithLoading(user: Value, loading: bool): (r: Doc)
    ensures r.Keys == {"user", "isLoggedIn", "isAdmin", "loading"}
    ensures r - {"loading"} == UseAuthStatus(user)
    ensures r["loading"] == Bool(loading)
  {
    UseAuthStatus(user)["loading" := Bool(loading)]
  }

  /** What the guard does on a render: the route it replaces, if any, and
      whether it renders its children (otherwise "Loading..."). */
  datatype Decision = Decision(redirect: Option<string>, render: bool)

  /** The effect and the render of `AuthGuard`, from the destructured
      `{ isLoggedIn, isAdmin, loading }`. */
  function Guard(status: Doc): (d: Decision)
    ensures Truthy(Get(status, "loading")) ==> d.redirect.None? && !d.render
    ensures !Truthy(Get(status, "loading")) && !Truthy(Get(status, "isLoggedIn")) ==> d.redirect == Some(LoginRoute)
    ensures !Truthy(Get(status, "loading")) && Truthy(Get(status, "isLoggedIn")) && !Truthy(Get(status, "isAdmin")) ==>
              d.redirect == Some(ShopRoute)
    ensures d.render <==> !Truthy(Get(status, "loading")) && Truthy(Get(status, "isLoggedIn")) && Truthy(Get(status, "isAdmin"))
    ensures d.render ==> d.redirect.None?
  {
    var loading := Truthy(Get(status, "loading"));
    var isLoggedIn := Truthy(Get(status, "isLoggedIn"));
    var isAdmin := Truthy(Get(status, "isAdmin"));
    var redirect :=
      if loading then None
      else if !isLoggedIn then Some(LoginRoute)
      else if !isAdmin then Some(ShopRoute)
      else None;
    Decision(redirect, !loading && isLoggedIn && isAdmin)
  }

  /** As written the guard never waits: an admin is let in, anybody signed
      in is sent to /shop, and nobody signed in to /login, on the first
      render already. */
  lemma GuardNeverWaits(user: Value)
    ensures var d := Guard(UseAuthStatus(user));
            && (d.render <==> IsAdminUser(user))
            && (!Truthy(user) ==> d.redirect == Some(LoginRoute))
            && (Truthy(user) && !IsAdminUser(user) ==> d.redirect == Some(ShopRoute))
  {
  }

  /** The auth slice starts with `user: null` and `loading: true` while the
      sign-in state is being resolved; as written, the guard sends that
      render to /login, an admin included. */
  lemma RedirectsBeforeAuthResolves()
    ensures Guard(UseAuthStatus(Null)).redirect == Some(LoginRoute)
  {
  }

  /** With `loading` passed on, the guard waits while it is set, and once it
      is clear decides exactly as before. */
  lemma GuardWaitsWhileLoading(user: Value, loading: bool)
    ensures var d := Guard(UseAuthStatusWithLoading(user, loading));
            && (loading ==> d.redirect.None? && !d.render)
            && (!loading ==> d == Guard(UseAuthStatus(user)))
  {
    var r := UseAuthStatusWithLoading(user, loading);
    assert Get(r, "isLoggedIn") == Get(UseAuthStatus(user), "isLoggedIn");
    assert Get(r, "isAdmin") == Get(UseAuthStatus(user), "isAdmin");
  }
}
