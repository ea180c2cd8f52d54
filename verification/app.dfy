/**
 * The application shell's guard: a visitor who is not signed in is sent to
 * the sign-in page, except on the sign-in page itself and on paths starting
 * with '/public'.
 */
module App {
  import opened Wrappers
  import opened JsString
  import opened Types

  const LoginPath := "/login"

  /** The navigation the guard effect makes for the current user and path, if any. */
  function Guard(user: Option<User>, path: string): (r: Option<string>)
    ensures r.Some? ==> r.value == LoginPath
    ensures r.None? <==> user.Some? || path == LoginPath || StartsWith(path, "/public")
  {
    if user.None? && path != LoginPath && !StartsWith(path, "/public") then Some(LoginPath) else None
  }

  /** A signed-in user is never redirected, whatever the path. */
  lemma SignedInNeverRedirected(u: User, path: string)
    ensures Guard(Some(u), path) == None
  {
  }

  /**
   * The sign-in page is exempt by exact equality only, so '/login/' is
   * redirected; '/public' is a raw prefix, so '/publicity' is exempt; every
   * other page, such as '/' or '/students', is redirected.
   */
  lemma GuardEdgeCases()
    ensures Guard(None, "/login") == None
    ensures Guard(None, "/login/") == Some("/login")
    ensures Guard(None, "/public/info") == None
    ensures Guard(None, "/publicity") == None
    ensures Guard(None, "/") == Some("/login")
    ensures Guard(None, "/students") == Some("/login")
  {
    assert "/public/info"[..7] == "/public";
    assert "/publicity"[..7] == "/public";
    assert !StartsWith("/login/", "/public") by {
      assert "/login/"[1] != "/public"[1];
    }
    assert !StartsWith("/students", "/public") by {
      assert "/students"[1] != "/public"[1];
    }
  }
}
