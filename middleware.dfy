/**
 * The route-protection middleware: a request for a protected path without a
 * session token is redirected to `/login`; every other request passes.
 * Protection is a plain string prefix test.
 */
module Middleware {

  datatype Decision = RedirectToLogin | Pass

  const ProtectedPaths: seq<string> := ["/vote", "/submit"]

  /** `protectedPaths.some(path => pathname.startsWith(path))`. */
  predicate IsProtected(pathname: string) {
    exists k :: 0 <= k < |ProtectedPaths| && ProtectedPaths[k] <= pathname
  }

  /** `protectedPaths.some(...)` as the loop over the two entries. */
  function AnyPrefix(paths: seq<string>, pathname: string): (r: bool)
    ensures r <==> exists k :: 0 <= k < |paths| && paths[k] <= pathname
  {
    if |paths| == 0 then false
    else
      assert forall k :: 1 <= k < |paths| ==> paths[k] == paths[1..][k - 1];
      paths[0] <= pathname || AnyPrefix(paths[1..], pathname)
  }

  /** The middleware body; `loggedIn` is `!!req.nextauth?.token`. */
  function Decide(pathname: string, loggedIn: bool): (d: Decision)
    ensures d == RedirectToLogin <==> IsProtected(pathname) && !loggedIn
  {
    if AnyPrefix(ProtectedPaths, pathname) && !loggedIn then RedirectToLogin else Pass
  }

  /** Protected exactly when the path starts with `/vote` or `/submit`. */
  lemma ProtectedPrefixes(pathname: string)
    ensures IsProtected(pathname) <==> "/vote" <= pathname || "/submit" <= pathname
  {
    if "/vote" <= pathname {
      assert ProtectedPaths[0] <= pathname;
    }
    if "/submit" <= pathname {
      assert ProtectedPaths[1] <= pathname;
    }
  }

  /** A logged-in user is never redirected. */
  lemma LoggedInPasses(pathname: string)
    ensures Decide(pathname, true) == Pass
  {
  }

  /** The plain prefix protects `/voteX` and `/vote/a`, but not `/api/vote`, which the matcher also lists. */
  lemma PrefixExamples()
    ensures IsProtected("/voteX") && IsProtected("/vote/a") && IsProtected("/submit")
    ensures !IsProtected("/api/vote") && !IsProtected("/") && !IsProtected("/ranking/1")
    ensures Decide("/api/vote", false) == Pass
  {
    ProtectedPrefixes("/voteX");
    ProtectedPrefixes("/vote/a");
    ProtectedPrefixes("/submit");
    ProtectedPrefixes("/api/vote");
    assert "/api/vote"[1] == 'a' && "/ranking/1"[1] == 'r';
    ProtectedPrefixes("/");
    ProtectedPrefixes("/ranking/1");
  }
}
