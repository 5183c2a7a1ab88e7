/** `updateSession`, run on every request: it refreshes the Supabase session
    cookies and sends visitors to the pages their session and role allow. */
module Middleware {
  import opened Wrappers
  import opened Strings

  /** `NEXT_PUBLIC_SUPABASE_URL`, `NEXT_PUBLIC_SUPABASE_ANON_KEY` and
      `SUPABASE_SERVICE_ROLE_KEY`. */
  datatype Env = Env(url: Option<string>, anonKey: Option<string>, serviceKey: Option<string>)

  /** A variable that is set and non-empty (JavaScript truthiness of a string). */
  predicate Truthy(v: Option<string>)
  {
    v.Some? && v.value != ""
  }

  /** `auth.getUser()`: it throws, or returns the signed-in user's id or none. */
  datatype UserLookup = UserThrew | UserResult(user: Option<string>)

  /** The admin client's role query: it throws, or returns the profile's role
      (none when there is no profile). */
  datatype RoleLookup = RoleThrew | RoleResult(role: Option<string>)

  /** A cookie the session refresh asks to set. */
  datatype Cookie = Cookie(name: string, value: string)

  /** What the middleware answers: the bare `NextResponse.next`, the
      `supabaseResponse` carrying the cookies the refresh set, or a redirect
      to another pathname. */
  datatype Decision = PassThrough | Continue(cookies: map<string, string>) | Redirect(pathname: string)

  /** The cookie jar after setting each cookie in turn: a later cookie of the
      same name overwrites an earlier one. */
  function Applied(jar: map<string, string>, cookies: seq<Cookie>): map<string, string>
    decreases |cookies|
  {
    if cookies == [] then jar
    else
      var last := cookies[|cookies| - 1];
      Applied(jar, cookies[..|cookies| - 1])[last.name := last.value]
  }

  /** The value a name ends up with is the one of its last cookie. */
  lemma {:induction false} LastCookieWins(jar: map<string, string>, cookies: seq<Cookie>, i: nat)
    requires i < |cookies|
    requires forall j :: i < j < |cookies| ==> cookies[j].name != cookies[i].name
    ensures cookies[i].name in Applied(jar, cookies)
    ensures Applied(jar, cookies)[cookies[i].name] == cookies[i].value
  {
    if i < |cookies| - 1 {
      LastCookieWins(jar, cookies[..|cookies| - 1], i);
    }
  }

  /** Names no cookie sets keep their value, and no name appears from nowhere. */
  lemma {:induction false} OtherCookiesKept(jar: map<string, string>, cookies: seq<Cookie>, name: string)
    requires forall j :: 0 <= j < |cookies| ==> cookies[j].name != name
    ensures name in Applied(jar, cookies) <==> name in jar
    ensures name in jar ==> Applied(jar, cookies)[name] == jar[name]
  {
    if cookies != [] {
      OtherCookiesKept(jar, cookies[..|cookies| - 1], name);
    }
  }

  /** A cookie jar: the request's cookies, or a response's. */
  class CookieJar {
    var values: map<string, string>

    constructor (values: map<string, string>)
      ensures this.values == values
    {
      this.values := values;
    }

    method Set(name: string, value: string)
      modifies this
      ensures values == old(values)[name := value]
    {
      values := values[name := value];
    }
  }

  /** The `setAll` callback of lines 26-32: each cookie is set on the request,
      then a new response is made and each cookie is set on it too. */
  method SetAll(request: CookieJar, cookiesToSet: seq<Cookie>) returns (response: CookieJar)
    modifies request
    ensures request.values == Applied(old(request.values), cookiesToSet)
    ensures fresh(response) && response.values == Applied(map[], cookiesToSet)
  {
    var i := 0;
    while i < |cookiesToSet|
      invariant 0 <= i <= |cookiesToSet|
      invariant request.values == Applied(old(request.values), cookiesToSet[..i])
    {
      assert cookiesToSet[..i + 1][..i] == cookiesToSet[..i];
      request.Set(cookiesToSet[i].name, cookiesToSet[i].value);
      i := i + 1;
    }
    assert cookiesToSet[..i] == cookiesToSet;
    response := new CookieJar(map[]);
    i := 0;
    while i < |cookiesToSet|
      invariant 0 <= i <= |cookiesToSet|
      invariant response.values == Applied(map[], cookiesToSet[..i])
      invariant request.values == Applied(old(request.values), cookiesToSet)
    {
      assert cookiesToSet[..i + 1][..i] == cookiesToSet[..i];
      response.Set(cookiesToSet[i].name, cookiesToSet[i].value);
      i := i + 1;
    }
    assert cookiesToSet[..i] == cookiesToSet;
  }

  /** Lines 40-60: the role is read only for a signed-in user and only with
      the service key; a failed read leaves it null. */
  function UserRole(env: Env, user: Option<string>, lookup: RoleLookup): (r: Option<string>)
    ensures r.Some? ==> user.Some? && Truthy(env.serviceKey) && lookup.RoleResult?
  {
    if user.Some? && Truthy(env.serviceKey) && lookup.RoleResult? then lookup.role else None
  }

  predicate IsAdmin(role: Option<string>)
  {
    role == Some("hr_admin")
  }

  /** Lines 63-96: the redirect rules, in order. `fallthrough` is the decision
      when no rule fires. */
  function Route(signedIn: bool, role: Option<string>, path: string, fallthrough: Decision): (r: Decision)
    ensures r != fallthrough ==> r.Redirect? && r.pathname in {"/auth/login", "/hr", "/employee"}
  {
    var isAuthPage := StartsWith(path, "/auth");
    var isEmployeePage := StartsWith(path, "/employee");
    var isHrPage := StartsWith(path, "/hr");
    if !signedIn && !isAuthPage && path != "/" then Redirect("/auth/login")
    else if signedIn && isAuthPage && path != "/auth/verify-email" then Redirect(if IsAdmin(role) then "/hr" else "/employee")
    else if signedIn && isHrPage && !IsAdmin(role) then Redirect("/employee")
    else if signedIn && isEmployeePage && IsAdmin(role) then Redirect("/hr")
    else fallthrough
  }

  /** The whole middleware. `refreshed` are the cookies of the last `setAll`
      call the session refresh makes during `getUser`: each call replaces the
      response, so only its batch reaches it. */
  function UpdateSession(env: Env, users: UserLookup, refreshed: seq<Cookie>, roles: RoleLookup, path: string): (r: Decision)
    ensures r.Redirect? ==> r.pathname in {"/auth/login", "/hr", "/employee"}
    ensures r.Continue? ==> r.cookies == Applied(map[], refreshed)
  {
    if !Truthy(env.url) || !Truthy(env.anonKey) then PassThrough
    else if users.UserThrew? then PassThrough
    else
      var role := UserRole(env, users.user, roles);
      Route(users.user.Some?, role, path, Continue(Applied(map[], refreshed)))
  }

  /** Without a session, every page but the landing page and the auth pages
      leads to the login page, whatever the role lookup said. */
  lemma AnonymousVisitors(role: Option<string>, path: string, fallthrough: Decision)
    ensures Route(false, role, path, fallthrough) ==
      if !StartsWith(path, "/auth") && path != "/" then Redirect("/auth/login") else fallthrough
  {
  }

  /** A signed-in user on an auth page other than the e-mail verification page
      is sent to the HR area when an admin and to the employee area otherwise. */
  lemma SignedInLeaveAuthPages(role: Option<string>, path: string, fallthrough: Decision)
    requires StartsWith(path, "/auth") && path != "/auth/verify-email"
    ensures Route(true, role, path, fallthrough) == Redirect(if IsAdmin(role) then "/hr" else "/employee")
  {
  }

  /** Access control: a signed-in request passes exactly when it is not on an
      auth page other than the e-mail verification page, reaches an "/hr" page
      only as an admin and an "/employee" page only as a non-admin; every
      other signed-in request passes through. */
  lemma AreasAreSeparated(role: Option<string>, path: string, fallthrough: Decision)
    requires !fallthrough.Redirect?
    ensures Route(true, role, path, fallthrough) == fallthrough <==>
      && !(StartsWith(path, "/auth") && path != "/auth/verify-email")
      && (StartsWith(path, "/hr") ==> IsAdmin(role))
      && (StartsWith(path, "/employee") ==> !IsAdmin(role))
  {
  }

  /** A signed-in non-admin on an "/hr" page is sent to the employee area. */
  lemma HrAreaSendsNonAdminsAway(role: Option<string>, path: string, fallthrough: Decision)
    requires StartsWith(path, "/hr") && !IsAdmin(role)
    ensures Route(true, role, path, fallthrough) == Redirect("/employee")
  {
    assert path[..3] == "/hr";
    assert path[1] == 'h';
  }

  /** A signed-in admin on an "/employee" page is sent to the HR area. */
  lemma EmployeeAreaSendsAdminsAway(role: Option<string>, path: string, fallthrough: Decision)
    requires StartsWith(path, "/employee") && IsAdmin(role)
    ensures Route(true, role, path, fallthrough) == Redirect("/hr")
  {
    assert path[..9] == "/employee";
    assert path[1] == 'e';
  }

  /** The redirect targets are the login page and the two areas, and a target
      is never redirected again for the same user and role. */
  lemma RedirectsSettle(signedIn: bool, role: Option<string>, path: string, fallthrough: Decision)
    requires !fallthrough.Redirect?
    requires Route(signedIn, role, path, fallthrough).Redirect?
    ensures Route(signedIn, role, path, fallthrough).pathname in {"/auth/login", "/hr", "/employee"}
    ensures Route(signedIn, role, Route(signedIn, role, path, fallthrough).pathname, fallthrough) == fallthrough
  {
    var target := Route(signedIn, role, path, fallthrough).pathname;
    assert StartsWith("/auth/login", "/auth");
    assert !StartsWith("/hr", "/auth") && !StartsWith("/hr", "/employee") && StartsWith("/hr", "/hr");
    assert !StartsWith("/employee", "/auth") by { assert "/employee"[..5][1] != "/auth"[1]; }
    assert !StartsWith("/employee", "/hr") by { assert "/employee"[..3][1] != "/hr"[1]; }
    assert StartsWith("/employee", "/employee");
  }

  /** A missing URL or anon key, or a failed user lookup, lets the request
      through untouched. */
  lemma FailuresPassThrough(env: Env, users: UserLookup, refreshed: seq<Cookie>, roles: RoleLookup, path: string)
    requires !Truthy(env.url) || !Truthy(env.anonKey) || users.UserThrew?
    ensures UpdateSession(env, users, refreshed, roles, path) == PassThrough
  {
  }

  /** Without the service key no one is an admin: a signed-in user is never
      sent to the HR area and is sent away from it. */
  lemma NoServiceKeyNoAdmin(env: Env, uid: string, refreshed: seq<Cookie>, roles: RoleLookup, path: string)
    requires Truthy(env.url) && Truthy(env.anonKey) && !Truthy(env.serviceKey)
    ensures UpdateSession(env, UserResult(Some(uid)), refreshed, roles, path) != Redirect("/hr")
    ensures StartsWith(path, "/hr") ==> UpdateSession(env, UserResult(Some(uid)), refreshed, roles, path) == Redirect("/employee")
  {
  }

  /** A failed role read counts as no role: the same as a user without a profile. */
  lemma RoleFailureIsNoRole(env: Env, uid: string, refreshed: seq<Cookie>, path: string)
    ensures UpdateSession(env, UserResult(Some(uid)), refreshed, RoleThrew, path)
         == UpdateSession(env, UserResult(Some(uid)), refreshed, RoleResult(None), path)
  {
  }

  /** When no rule fires the response carries the refreshed cookies, each with
      the value of its last `setAll` entry. */
  lemma {:induction false} ContinueCarriesRefreshedCookies(env: Env, users: UserLookup, refreshed: seq<Cookie>, roles: RoleLookup, path: string, i: nat)
    requires UpdateSession(env, users, refreshed, roles, path).Continue?
    requires i < |refreshed| && forall j :: i < j < |refreshed| ==> refreshed[j].name != refreshed[i].name
    ensures var cookies := UpdateSession(env, users, refreshed, roles, path).cookies;
      refreshed[i].name in cookies && cookies[refreshed[i].name] == refreshed[i].value
  {
    LastCookieWins(map[], refreshed, i);
  }
}
