/** The request gate in front of the pages (middleware.ts): which paths it
    runs on, where it redirects by path, sign-in state and role, and the
    security headers it puts on every response it lets through. */
module Middleware {
  import opened Common
  import opened Text

  /** The decoded session token; None when the request carries none. */
  datatype Token = Token(role: string)

  /** What becomes of a request. `callbackUrl` is the query parameter put
      on a redirect to the sign-in page. */
  datatype Outcome =
    | NotRun                                          // the matcher does not select the path
    | Redirect(to: string, callbackUrl: Option<string>)
    | PassBare                                        // the handler returns null: no headers added
    | Continue(headers: map<string, string>)

  const CSP := "default-src 'self'; script-src 'self' 'unsafe-eval' 'unsafe-inline'; style-src 'self' 'unsafe-inline'; img-src 'self' data: https: blob:; font-src 'self' data:; connect-src 'self' https:;"

  /** `path` is `prefix` or lies below it (a `/prefix/:path*` matcher). */
  predicate UnderSegment(path: string, prefix: string) {
    path == prefix || StartsWith(path, prefix + "/")
  }

  /** The `config.matcher` list. */
  predicate Matched(path: string) {
    UnderSegment(path, "/forum") || path == "/login" || path == "/register" ||
    UnderSegment(path, "/profile") || UnderSegment(path, "/admin")
  }

  /** The redirect decision: None lets the request through with headers. */
  function Decide(path: string, token: Option<Token>): (d: Option<Outcome>)
    ensures d.Some? ==> d.value.Redirect? || d.value.PassBare?
  {
    var isAuthPage := StartsWith(path, "/login") || StartsWith(path, "/register");
    if isAuthPage then
      (if token.Some? then Some(Redirect("/", None)) else Some(PassBare))
    else if token.None? && StartsWith(path, "/forum") then Some(Redirect("/login", Some(path)))
    else if StartsWith(path, "/admin") && token.None? then Some(Redirect("/login", Some(path)))
    else if StartsWith(path, "/admin") && token.value.role != "admin" then Some(Redirect("/", None))
    else None
  }

  /** Sets the four security headers on a fresh response, one after the
      other. */
  method SecurityHeaders() returns (headers: map<string, string>)
    ensures headers.Keys == {"X-Frame-Options", "X-Content-Type-Options", "Referrer-Policy", "Content-Security-Policy"}
    ensures headers["X-Frame-Options"] == "DENY"
    ensures headers["X-Content-Type-Options"] == "nosniff"
    ensures headers["Referrer-Policy"] == "strict-origin-when-cross-origin"
    ensures headers["Content-Security-Policy"] == CSP
  {
    headers := map[];
    headers := headers["X-Frame-Options" := "DENY"];
    headers := headers["X-Content-Type-Options" := "nosniff"];
    headers := headers["Referrer-Policy" := "strict-origin-when-cross-origin"];
    headers := headers["Content-Security-Policy" := CSP];
  }

  /** The whole gate for one request. */
  method Handle(path: string, token: Option<Token>) returns (out: Outcome)
    ensures !Matched(path) ==> out == NotRun
    ensures Matched(path) && (path == "/login" || path == "/register") ==>
      out == (if token.Some? then Redirect("/", None) else PassBare)
    ensures Matched(path) && UnderSegment(path, "/forum") && token.None? ==> out == Redirect("/login", Some(path))
    ensures Matched(path) && UnderSegment(path, "/admin") && token.None? ==> out == Redirect("/login", Some(path))
    ensures Matched(path) && UnderSegment(path, "/admin") && token.Some? && token.value.role != "admin" ==>
      out == Redirect("/", None)
    ensures out.Continue? ==>
      out.headers.Keys == {"X-Frame-Options", "X-Content-Type-Options", "Referrer-Policy", "Content-Security-Policy"} &&
      out.headers["X-Frame-Options"] == "DENY" &&
      out.headers["X-Content-Type-Options"] == "nosniff" &&
      out.headers["Referrer-Policy"] == "strict-origin-when-cross-origin" &&
      out.headers["Content-Security-Policy"] == CSP
    ensures out.Continue? <==>
      Matched(path) && path != "/login" && path != "/register" &&
      (UnderSegment(path, "/forum") || UnderSegment(path, "/admin") ==> token.Some?) &&
      (UnderSegment(path, "/admin") ==> token.value.role == "admin")
  {
    if !Matched(path) {
      return NotRun;
    }
    MatchedPrefixes(path);
    if UnderSegment(path, "/forum") {
      SecondChar(path, "/forum");
      assert path != "/login" && path != "/register";
    }
    if UnderSegment(path, "/admin") {
      SecondChar(path, "/admin");
      assert path != "/login" && path != "/register";
    }
    var d := Decide(path, token);
    if d.Some? {
      return d.value;
    }
    var headers := SecurityHeaders();
    out := Continue(headers);
  }

  /** On matched paths, the prefix tests of the handler coincide with the
      matcher's segments: "/login..." and "/register..." are those exact
      pages, "/forum..." and "/admin..." their sections. */
  lemma MatchedPrefixes(path: string)
    requires Matched(path)
    ensures StartsWith(path, "/login") || StartsWith(path, "/register") <==> path == "/login" || path == "/register"
    ensures StartsWith(path, "/forum") <==> UnderSegment(path, "/forum")
    ensures StartsWith(path, "/admin") <==> UnderSegment(path, "/admin")
  {
    // the second character tells the five matched sections apart
    if UnderSegment(path, "/forum") {
      SecondChar(path, "/forum");
    } else if UnderSegment(path, "/profile") {
      SecondChar(path, "/profile");
    } else if UnderSegment(path, "/admin") {
      SecondChar(path, "/admin");
    }
    if StartsWith(path, "/login") {
      assert path[1] == 'l';
    }
    if StartsWith(path, "/register") {
      assert path[1] == 'r';
    }
    if StartsWith(path, "/forum") {
      assert path[1] == 'f';
    }
    if StartsWith(path, "/admin") {
      assert path[1] == 'a';
    }
  }

  lemma SecondChar(path: string, prefix: string)
    requires |prefix| >= 2 && UnderSegment(path, prefix)
    ensures |path| >= 2 && path[1] == prefix[1]
  {
    if path != prefix {
      assert path[..|prefix| + 1][1] == (prefix + "/")[1];
    }
  }

  /** A signed-out request never reaches a forum or admin page, and a
      non-admin never reaches an admin page. */
  lemma GateIsSound(path: string, token: Option<Token>)
    requires Matched(path) && Decide(path, token).None?
    ensures UnderSegment(path, "/forum") || UnderSegment(path, "/admin") ==> token.Some?
    ensures UnderSegment(path, "/admin") ==> token.value.role == "admin"
  {
    MatchedPrefixes(path);
  }
}
