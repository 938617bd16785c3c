/** The route guard run before every page and API request: public paths
    pass, other paths need a session, and the teacher and student areas are
    kept to their own role. */
module Middleware {
  import opened Types

  /** What the guard does with a request. */
  datatype Decision =
    | Next                                // let the request through
    | LoginRedirect(callbackUrl: string)  // to /login, returning to `callbackUrl`
    | RoleRedirect(target: string)        // to the other role's area

  const PublicRoutes: seq<string> := ["/", "/login", "/register"]

  /** Paths served without a session: the exact public routes, invitation
      pages, the authentication API and the invitation-token API. The bare
      `/api/invitations` (creating an invitation) is not among them. */
  predicate IsPublic(pathname: string)
  {
    || pathname in PublicRoutes
    || "/invite/" <= pathname
    || "/api/auth" <= pathname
    || "/api/invitations/" <= pathname
  }

  /** `session.user?.role`. */
  function RoleOf(session: Session): Option<Role>
  {
    if session.user.Some? then Some(session.user.value.role) else None
  }

  /** The path is in the teacher area and the session is not a teacher's. */
  predicate BarredFromTeacherArea(pathname: string, session: Session)
  {
    "/teacher" <= pathname && RoleOf(session) != Some(Teacher)
  }

  /** The path is in the student area and the session is not a student's. */
  predicate BarredFromStudentArea(pathname: string, session: Session)
  {
    "/student" <= pathname && RoleOf(session) != Some(Student)
  }

  /** The routing decision for `pathname` under `session`. */
  function Route(pathname: string, session: Option<Session>): (d: Decision)
    ensures IsPublic(pathname) ==> d == Next
    ensures !IsPublic(pathname) && session.None? ==> d == LoginRedirect(pathname)
    ensures session.Some? ==> !d.LoginRedirect?
    ensures d.Next? <==>
      IsPublic(pathname) ||
      (session.Some? && !BarredFromTeacherArea(pathname, session.value) && !BarredFromStudentArea(pathname, session.value))
    ensures d.RoleRedirect? ==>
      session.Some? &&
      ((d.target == "/student" && BarredFromTeacherArea(pathname, session.value)) ||
       (d.target == "/teacher" && BarredFromStudentArea(pathname, session.value)))
  {
    if IsPublic(pathname) then Next
    else if session.None? then LoginRedirect(pathname)
    else if BarredFromTeacherArea(pathname, session.value) then RoleRedirect("/student")
    else if BarredFromStudentArea(pathname, session.value) then RoleRedirect("/teacher")
    else Next
  }

  /** Whether a request passes does not depend on the session for a public
      path. */
  lemma PublicIgnoresSession(pathname: string, s1: Option<Session>, s2: Option<Session>)
    requires IsPublic(pathname)
    ensures Route(pathname, s1) == Route(pathname, s2) == Next
  {
  }

  /** The bare invitation API path needs a session, unlike the token paths
      below it. */
  lemma InvitationCreationNeedsSession(token: string)
    ensures Route("/api/invitations", None) == LoginRedirect("/api/invitations")
    ensures Route("/api/invitations/" + token, None) == Next
  {
    assert "/api/invitations/" <= "/api/invitations/" + token;
    assert !("/invite/" <= "/api/invitations") by {
      assert "/api/invitations"[1] != "/invite/"[1];
    }
    assert !("/api/auth" <= "/api/invitations") by {
      assert "/api/invitations"[5] != "/api/auth"[5];
    }
  }

  /** A role redirect lands, for a session with a user, on a page that user
      may see: the guard never bounces such a user twice. */
  lemma RoleRedirectSettles(pathname: string, session: Session)
    requires session.user.Some?
    ensures var d := Route(pathname, Some(session));
      d.RoleRedirect? ==> Route(d.target, Some(session)) == Next
  {
    var d := Route(pathname, Some(session));
    assert "/teacher"[1] != "/student"[1];
    assert "/teacher"[1] != "/invite/"[1] && "/teacher"[1] != "/api/auth"[1];
    assert "/student"[1] != "/invite/"[1] && "/student"[1] != "/api/auth"[1];
    var role := session.user.value.role;
    assert RoleOf(session) == Some(role);
    if BarredFromTeacherArea(pathname, session) {
      assert role != Teacher;
      assert RoleOf(session) == Some(Student);
      assert "/student" <= "/student";
    } else if BarredFromStudentArea(pathname, session) {
      assert role != Student;
      assert RoleOf(session) == Some(Teacher);
      assert "/teacher" <= "/teacher";
    }
  }

  /** A session without a user has no role, so the two role guards send it
      back and forth between the two areas. */
  lemma RoleRedirectCyclesWithoutUser()
    ensures Route("/teacher", Some(Session(None))) == RoleRedirect("/student")
    ensures Route("/student", Some(Session(None))) == RoleRedirect("/teacher")
  {
    assert !IsPublic("/teacher") by {
      assert "/teacher"[1] != "/invite/"[1] && "/teacher"[1] != "/api/auth"[1];
    }
    assert !IsPublic("/student") by {
      assert "/student"[1] != "/invite/"[1] && "/student"[1] != "/api/auth"[1];
    }
    assert !("/teacher" <= "/student") by { assert "/student"[1] != "/teacher"[1]; }
  }

  /** After signing in, the page a login redirect remembered is never sent
      back to the login page. */
  lemma CallbackAfterLogin(pathname: string, session: Session)
    requires Route(pathname, None).LoginRedirect?
    ensures Route(pathname, None).callbackUrl == pathname
    ensures !Route(Route(pathname, None).callbackUrl, Some(session)).LoginRedirect?
  {
  }
}
