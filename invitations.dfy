/** Invitation creation: a teacher creates a join link for a class they
    own, optionally limited in time and in number of uses. */
module Invitations {
  import opened Types
  import opened Data
  import Middleware

  /** Milliseconds in a day: 24 * 60 * 60 * 1000. */
  const MsPerDay: int := 86400000

  /** The application URL used when none is configured. */
  const DefaultAppUrl: string := "http://localhost:3000"

  /** The expiry stored for `expiresInDays`: that many days after `now`
      (in milliseconds) when the value is given and not 0, otherwise none.
      A positive number of days expires in the future, a negative one in
      the past. */
  function ExpiresAt(now: int, expiresInDays: Option<int>): (r: Option<int>)
    ensures r.Some? <==> Truthy(expiresInDays)
    ensures r.Some? ==> r.value - now == expiresInDays.value * 86400000
    ensures r.Some? ==> (r.value > now <==> expiresInDays.value > 0)
  {
    if Truthy(expiresInDays) then Some(now + expiresInDays.value * MsPerDay) else None
  }

  /** The use limit stored for `maxUses`: the value when given and not 0,
      otherwise none, meaning unlimited. */
  function StoredMaxUses(maxUses: Option<int>): (r: Option<int>)
    ensures r.Some? <==> Truthy(maxUses)
    ensures r.Some? ==> r.value == maxUses.value && r.value != 0
  {
    if Truthy(maxUses) then Some(maxUses.value) else None
  }

  /** The path of the join page of an invitation. */
  function InvitePath(token: string): string
  {
    "/invite/" + token
  }

  /** The shareable link: the configured application URL (or the default
      one) followed by the invitation's join path. */
  function InviteUrl(appUrl: string, token: string): (u: string)
    ensures appUrl != "" ==> u == appUrl + InvitePath(token)
    ensures appUrl == "" ==> u == DefaultAppUrl + InvitePath(token)
    ensures u[|u| - |token|..] == token
  {
    (if appUrl != "" then appUrl else DefaultAppUrl) + InvitePath(token)
  }

  /** The join page a link points to is served to visitors without a
      session, as an invited student has none yet. */
  lemma InvitePageIsPublic(token: string)
    ensures Middleware.Route(InvitePath(token), None) == Middleware.Next
  {
    assert "/invite/" <= InvitePath(token);
  }

  /** The ownership lookup as the route writes it: the class with this id
      whose teacher is the session's teacher row, except that when the user
      has no teacher row the teacher condition is dropped altogether, and any
      class with this id is found. */
  predicate FindsClassAsWritten(teachers: map<string, string>, classes: map<string, ClassRow>,
                                userId: string, classId: string)
  {
    classId in classes && (userId in teachers ==> classes[classId].teacherId == teachers[userId])
  }

  /** A user without a teacher row passes the ownership lookup as written
      for a class taught by someone else. */
  lemma OwnershipBypassAsWritten()
    ensures var classes := map["c1" := ClassRow("Physics101", "t1")];
      && FindsClassAsWritten(map[], classes, "u2", "c1")
      && !OwnsClass(map[], classes, "u2", "c1")
  {
  }

  /** The ownership lookup as intended: the user has a teacher row and the
      class exists and is taught by that teacher. */
  predicate OwnsClass(teachers: map<string, string>, classes: map<string, ClassRow>, userId: string, classId: string)
  {
    userId in teachers && classId in classes && classes[classId].teacherId == teachers[userId]
  }

  /** The intended lookup finds only classes the written one finds, finds
      exactly those whenever the user has a teacher row, and finds nothing
      for a user without one. */
  lemma OwnsClassOnlyForItsTeacher(teachers: map<string, string>, classes: map<string, ClassRow>,
                                   userId: string, classId: string)
    ensures OwnsClass(teachers, classes, userId, classId) ==> FindsClassAsWritten(teachers, classes, userId, classId)
    ensures userId in teachers ==>
      (OwnsClass(teachers, classes, userId, classId) <==> FindsClassAsWritten(teachers, classes, userId, classId))
    ensures userId !in teachers ==> !OwnsClass(teachers, classes, userId, classId)
  {
  }

  /** A teacher row created with a new id, as registration creates one,
      owns no class: no class can be taught by a row that did not exist, so
      the new user gains no other teacher's classes, and every other user
      keeps exactly the classes they owned. */
  lemma NewTeacherOwnsNoClass(teachers: map<string, string>, classes: map<string, ClassRow>,
                              userId: string, teacherId: string, classId: string)
    requires ClassesHaveTeachers(teachers, classes)
    requires forall u :: u in teachers ==> teachers[u] != teacherId
    ensures !OwnsClass(teachers[userId := teacherId], classes, userId, classId)
    ensures forall other :: other != userId ==>
      (OwnsClass(teachers[userId := teacherId], classes, other, classId) <==> OwnsClass(teachers, classes, other, classId))
  {
  }

  /** The body of a successful creation: the stored invitation and its link. */
  datatype Created = Created(invitation: Invitation, url: string)

  /** POST /api/invitations. `now` is the current time in milliseconds,
      `appUrl` the configured application URL ("" when unset), `newId` and
      `newToken` what the store generates. Only a teacher may create, a class
      id is required, and the class must be the teacher's by the intended
      lookup `OwnsClass`; otherwise nothing is stored. An accepted request
      stores one active, unused invitation. */
  method Create(db: Store, session: Option<Session>, classId: string, expiresInDays: Option<int>,
                maxUses: Option<int>, now: int, appUrl: string, newId: string, newToken: string)
    returns (r: Reply<Created>)
    requires db.Valid()
    requires newId !in db.invitations
    requires forall i :: i in db.invitations ==> db.invitations[i].token != newToken
    modifies db`invitations
    ensures db.Valid()
    ensures !HasRole(session, Teacher) ==> r == Fail(401, "Unauthorized") && unchanged(db)
    ensures HasRole(session, Teacher) && classId == "" ==> r == Fail(400, "classId required") && unchanged(db)
    ensures HasRole(session, Teacher) && classId != "" && !OwnsClass(db.teachers, db.classes, UserId(session), classId) ==>
      r == Fail(404, "Class not found") && unchanged(db)
    ensures HasRole(session, Teacher) && classId != "" && old(OwnsClass(db.teachers, db.classes, UserId(session), classId)) ==>
      var inv := Invitation(newId, newToken, classId, ExpiresAt(now, expiresInDays), StoredMaxUses(maxUses), 0, true);
      && db.invitations == old(db.invitations)[newId := inv]
      && r == Ok(201, Created(inv, InviteUrl(appUrl, newToken)))
  {
    if !HasRole(session, Teacher) {
      return Fail(401, "Unauthorized");
    }
    if classId == "" {
      return Fail(400, "classId required");
    }
    if !OwnsClass(db.teachers, db.classes, UserId(session), classId) {
      return Fail(404, "Class not found");
    }
    var expiresAt := ExpiresAt(now, expiresInDays);
    var inv := Invitation(newId, newToken, classId, expiresAt, StoredMaxUses(maxUses), 0, true);
    db.invitations := db.invitations[newId := inv];
    r := Ok(201, Created(inv, InviteUrl(appUrl, newToken)));
  }
}
