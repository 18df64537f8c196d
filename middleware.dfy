/**
 * The route-protection gate of middleware.ts. The session lookup is an
 * abstract outcome; the result records whether the lookup was made at all.
 */
module Middleware {
  import opened Common

  /** What the session lookup yields: a session, no session (`data` is null), or a thrown error. */
  datatype SessionCheck = Present | Absent | Error

  datatype Decision = Next | RedirectToSignIn(from: string)

  datatype Outcome = Outcome(decision: Decision, sessionChecked: bool)

  const ProtectedPaths: seq<string> := ["/dashboard"]

  /** A path is protected when it starts with one of the protected prefixes. */
  predicate IsProtectedPath(pathname: string): (r: bool)
    ensures r <==> |pathname| >= 10 && pathname[..10] == "/dashboard"
  {
    assert IsPrefix(ProtectedPaths[0], pathname) <==> |pathname| >= 10 && pathname[..10] == "/dashboard";
    exists i :: 0 <= i < |ProtectedPaths| && IsPrefix(ProtectedPaths[i], pathname)
  }

  /** Unprotected paths pass untouched; a protected path passes only with a session, and every other outcome redirects. */
  function Decide(pathname: string, session: SessionCheck): (r: Outcome)
    ensures r.sessionChecked <==> IsProtectedPath(pathname)
    ensures r.decision.Next? <==> !IsProtectedPath(pathname) || session.Present?
    ensures r.decision.RedirectToSignIn? ==> r.decision.from == pathname
  {
    if IsProtectedPath(pathname) then
      match session
      case Present => Outcome(Next, true)
      case Absent => Outcome(RedirectToSignIn(pathname), true)
      case Error => Outcome(RedirectToSignIn(pathname), true)
    else
      Outcome(Next, false)
  }

  /** Protection is a prefix test on "/dashboard", so "/dashboardX" is protected too and "/dash" is not. */
  lemma ProtectedExamples()
    ensures IsProtectedPath("/dashboardX")
    ensures !IsProtectedPath("/dash")
  {
    assert IsPrefix(ProtectedPaths[0], "/dashboardX");
  }

  /** An unprotected path passes whatever the session would have been. */
  lemma UnprotectedPasses(pathname: string, session: SessionCheck, session': SessionCheck)
    requires !IsProtectedPath(pathname)
    ensures Decide(pathname, session) == Decide(pathname, session') == Outcome(Next, false)
  {
  }

  /** Fail closed: a missing session and a failed lookup redirect alike, back to the same path. */
  lemma FailClosed(pathname: string)
    requires IsProtectedPath(pathname)
    ensures Decide(pathname, Absent) == Decide(pathname, Error) == Outcome(RedirectToSignIn(pathname), true)
  {
  }
}
