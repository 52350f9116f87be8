/**
 * The route guard and the admin-menu test of the application shell
 * (`App.js`). The guard decides over the authentication context's state;
 * the menu reads the shell's own user record, read once on mount.
 */
module AppRoutes {
  import opened Common

  /** What `ProtectedRoute` renders. */
  datatype View = LoadingView | RedirectToLogin(from: string) | RedirectHome | Children | RenderThrew(error: string)

  const ROLE_ADMIN := "ROLE_ADMIN"

  /** `required.some(r => held.includes(r))`. */
  predicate AnyHeld(required: seq<string>, held: seq<string>)
    ensures AnyHeld(required, held) <==> exists r :: r in required && r in held
    decreases |required|
  {
    if required == [] then false
    else required[0] in held || AnyHeld(required[1..], held)
  }

  /** `ProtectedRoute({children, roles = []})` given the context's
   *  `loading` flag, the signed-in user (`None` when nobody is signed in)
   *  and the current location. With required roles, a user record without
   *  `roles` makes `user.roles.includes` throw while rendering. */
  function ProtectedRoute(loading: bool, user: Option<ClientUser>, roles: seq<string>, location: string): (v: View)
    ensures v == LoadingView <==> loading
    ensures v.RedirectToLogin? <==> !loading && user.None?
    ensures v.RedirectToLogin? ==> v.from == location
    ensures v.RenderThrew? <==> !loading && user.Some? && |roles| > 0 && user.value.roles.None?
    ensures v.RenderThrew? ==> v.error == ROLES_UNDEFINED
    ensures v == RedirectHome <==>
      && !loading && user.Some? && user.value.roles.Some? && |roles| > 0
      && forall r :: r in roles ==> r !in user.value.roles.value
    ensures v == Children <==>
      && !loading && user.Some?
      && (roles == [] || (user.value.roles.Some? && exists r :: r in roles && r in user.value.roles.value))
  {
    if loading then LoadingView
    else if user.None? then RedirectToLogin(location)
    else if |roles| > 0 && user.value.roles.None? then RenderThrew(ROLES_UNDEFINED)
    else if |roles| > 0 && !AnyHeld(roles, user.value.roles.value) then RedirectHome
    else Children
  }

  /** `currentUser.roles && currentUser.roles.includes('ROLE_ADMIN')`;
   *  `None` stands for a user record without roles. */
  predicate ShowAdminMenu(roles: Option<seq<string>>)
  {
    roles.Some? && ROLE_ADMIN in roles.value
  }

  /** The admin menu entries appear exactly when a route guarded by
   *  `roles={['ROLE_ADMIN']}` would render its children, provided the
   *  shell's own user record and the context's user are the same record;
   *  a record without roles shows no menu and makes the guard throw. */
  lemma AdminMenuMatchesAdminRoute(user: ClientUser, location: string)
    ensures ShowAdminMenu(user.roles) <==> ProtectedRoute(false, Some(user), [ROLE_ADMIN], location) == Children
  {
    assert ROLE_ADMIN in [ROLE_ADMIN];
  }

  /** The application shell's own `currentUser`, apart from the context's
   *  user: read from storage once when the shell mounts and cleared by the
   *  shell's logout. A later sign-in does not update it. */
  class AppShell {
    var currentUser: Option<ClientUser>

    /** Mounting: the stored record, or nobody. */
    constructor (stored: Option<ClientUser>)
      ensures currentUser == stored
    {
      currentUser := stored;
    }

    /** `logOut` of the shell. */
    method LogOut()
      modifies this
      ensures currentUser.None?
      ensures !AdminMenuVisible()
    {
      currentUser := None;
    }

    /** `currentUser && currentUser.roles && currentUser.roles.includes('ROLE_ADMIN')`. */
    predicate AdminMenuVisible()
      reads this
      ensures AdminMenuVisible() <==> currentUser.Some? && ShowAdminMenu(currentUser.value.roles)
    {
      currentUser.Some? && ShowAdminMenu(currentUser.value.roles)
    }
  }

  /** The menu and the guard can disagree: a shell mounted with nobody
   *  stored hides the admin menu, while an administrator who signs in
   *  afterwards, in the same page load, passes the admin route guard. */
  method MenuLagsSignIn(location: string) returns (menuShown: bool, view: View)
    ensures !menuShown && view == Children
  {
    var shell := new AppShell(None);
    menuShown := shell.AdminMenuVisible();
    var admin := ClientUser(Some([ROLE_ADMIN]));
    AdminMenuMatchesAdminRoute(admin, location);
    view := ProtectedRoute(false, Some(admin), [ROLE_ADMIN], location);
  }
}
