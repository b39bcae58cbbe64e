/** The QR pairing flow: a nurse opens a session that expires after one
    hour, and a patient resolves it once, attaching a patient id. The
    `qr_sessions` collection is a map from token to session; the random
    token and the clock are parameters. */
module QrSessions {
  import opened Common
  import opened JsValues
  import opened BackendCommon

  /** How long a session stays open: one hour, in milliseconds. */
  const SessionLifetime := 60 * 60 * 1000

  datatype QrSession = QrSession(nurseId: string, createdAt: int, expiresAt: int, resolved: bool,
                                 patientId: Option<JsValue>, resolvedAt: Option<int>)

  type Sessions = map<string, QrSession>

  datatype SessionResult = SessionResult(response: Response, sessions: Sessions)

  /** `POST /nurse/session`. The handler reads the clock twice: `now` gives
      the expiry and `later` the creation time. */
  function CreateSession(req: Requester, token: string, now: int, later: int, sessions: Sessions): (r: SessionResult)
    ensures !IsNurse(req) ==> r == SessionResult(ErrorResponse(403, "Only nurses can create a QR session"), sessions)
    ensures IsNurse(req) ==>
              && r.response == Response(200, Obj(map["qrToken" := Str(token), "expiresAt" := Num(now + SessionLifetime)]))
              && token in r.sessions && r.sessions[token] == QrSession(req.uid, later, now + SessionLifetime, false, None, None)
              && forall t :: t in sessions && t != token ==> t in r.sessions && r.sessions[t] == sessions[t]
    ensures r.sessions.Keys <= sessions.Keys + {token}
  {
    if !IsNurse(req) then SessionResult(ErrorResponse(403, "Only nurses can create a QR session"), sessions)
    else
      var expiresAt := now + SessionLifetime;
      SessionResult(Response(200, Obj(map["qrToken" := Str(token), "expiresAt" := Num(expiresAt)])),
                    sessions[token := QrSession(req.uid, later, expiresAt, false, None, None)])
  }

  /** Whether a resolve request passes every check up to and including
      expiry, so the session is marked resolved. */
  predicate Resolvable(req: Requester, body: Doc, now: int, sessions: Sessions)
  {
    var token := Get(body, "qrToken");
    && Truthy(token) && Truthy(Get(body, "patientId"))
    && req.role == PatientRole
    && token.Str? && token.s in sessions
    && !sessions[token.s].resolved
    && now <= sessions[token.s].expiresAt
  }

  /** `POST /nurse/session/resolve`. The session is marked resolved before
      the patient is looked up, so a later failure leaves it resolved. The
      handler reads the clock twice: `now` for the expiry check and `later`
      for the resolution time. */
  function ResolveSession(req: Requester, body: Doc, now: int, later: int, sessions: Sessions, users: Collection): (r: SessionResult)
    ensures !Resolvable(req, body, now, sessions) ==> r.sessions == sessions && r.response.status != 200
    // the checks, in the order the handler makes them
    ensures !Truthy(Get(body, "qrToken")) || !Truthy(Get(body, "patientId")) ==>
              r.response == ErrorResponse(400, "Missing qrToken or patientId")
    ensures Truthy(Get(body, "qrToken")) && Truthy(Get(body, "patientId")) && req.role != PatientRole ==>
              r.response == ErrorResponse(403, "Only patients can resolve a QR session")
    ensures Truthy(Get(body, "qrToken")) && Truthy(Get(body, "patientId")) && req.role == PatientRole ==>
              var token := Get(body, "qrToken");
              && (!token.Str? ==> r.response == InternalError)
              && (token.Str? && token.s !in sessions ==> r.response == ErrorResponse(404, "QR session not found"))
              && (token.Str? && token.s in sessions && sessions[token.s].resolved ==>
                    r.response == ErrorResponse(400, "QR session already resolved"))
              && (token.Str? && token.s in sessions && !sessions[token.s].resolved && now > sessions[token.s].expiresAt ==>
                    r.response == ErrorResponse(400, "QR session expired"))
    ensures Resolvable(req, body, now, sessions) ==>
              var token := Get(body, "qrToken").s;
              && r.sessions == sessions[token := sessions[token].(resolved := true,
                                                                  patientId := Some(Get(body, "patientId")),
                                                                  resolvedAt := Some(later))]
              && (r.response.status == 200 <==>
                    Get(body, "patientId").Str? && Find(users, Get(body, "patientId").s).Some?)
              && (Get(body, "patientId").Str? && Find(users, Get(body, "patientId").s).None? ==>
                    r.response == ErrorResponse(404, "Patient not found"))
    ensures r.response.status == 200 ==>
              r.response.body == Obj(map["patient" := Obj(Find(users, Get(body, "patientId").s).value)])
  {
    var token, patientId := Get(body, "qrToken"), Get(body, "patientId");
    if !Truthy(token) || !Truthy(patientId) then SessionResult(ErrorResponse(400, "Missing qrToken or patientId"), sessions)
    else if req.role != PatientRole then SessionResult(ErrorResponse(403, "Only patients can resolve a QR session"), sessions)
    else if !token.Str? then SessionResult(InternalError, sessions)
    else if token.s !in sessions then SessionResult(ErrorResponse(404, "QR session not found"), sessions)
    else
      var session := sessions[token.s];
      if session.resolved then SessionResult(ErrorResponse(400, "QR session already resolved"), sessions)
      else if now > session.expiresAt then SessionResult(ErrorResponse(400, "QR session expired"), sessions)
      else
        var updated := sessions[token.s := session.(resolved := true, patientId := Some(patientId), resolvedAt := Some(later))];
        if !patientId.Str? then SessionResult(InternalError, updated)
        else
          match Find(users, patientId.s)
          case None => SessionResult(ErrorResponse(404, "Patient not found"), updated)
          case Some(patient) => SessionResult(Response(200, Obj(map["patient" := Obj(patient)])), updated)
  }

  /** A session resolves once: any second attempt on the same token is refused. */
  lemma SecondResolveRefused(req: Requester, body: Doc, now: int, later: int, sessions: Sessions, users: Collection,
                             req2: Requester, body2: Doc, now2: int, later2: int, users2: Collection)
    requires Resolvable(req, body, now, sessions)
    requires req2.role == PatientRole && Get(body2, "qrToken") == Get(body, "qrToken") && Truthy(Get(body2, "patientId"))
    ensures var s1 := ResolveSession(req, body, now, later, sessions, users).sessions;
            ResolveSession(req2, body2, now2, later2, s1, users2) == SessionResult(ErrorResponse(400, "QR session already resolved"), s1)
  {
  }

  /** A session can still be resolved at the very millisecond it expires, and
      not one later; the creation time plays no part in the check. */
  lemma ExpiryIsInclusive(nurse: Requester, token: string, now: int, later: int, sessions: Sessions,
                          patient: Requester, body: Doc)
    requires IsNurse(nurse) && patient.role == PatientRole
    requires token != "" && Get(body, "qrToken") == Str(token) && Truthy(Get(body, "patientId"))
    ensures var s := CreateSession(nurse, token, now, later, sessions).sessions;
            && Resolvable(patient, body, now + SessionLifetime, s)
            && !Resolvable(patient, body, now + SessionLifetime + 1, s)
  {
  }

  /** The resolution time is a second clock reading: a session that passes the
      expiry check at its last valid millisecond can be stamped as resolved
      after it expired. */
  lemma ResolvedAfterExpiry(req: Requester, body: Doc, token: string, sessions: Sessions, users: Collection)
    requires Get(body, "qrToken") == Str(token) && token in sessions
    requires Resolvable(req, body, sessions[token].expiresAt, sessions)
    ensures var expiresAt := sessions[token].expiresAt;
            var r := ResolveSession(req, body, expiresAt, expiresAt + 1, sessions, users);
            r.sessions[token].resolvedAt == Some(r.sessions[token].expiresAt + 1)
  {
  }

  /** Nothing ties the resolving patient to the patient id they attach: any
      patient can attach any existing patient and receives that profile. */
  lemma AnyPatientIdAccepted(req: Requester, body: Doc, now: int, later: int, sessions: Sessions, users: Collection, other: string)
    requires Resolvable(req, body, now, sessions)
    requires Get(body, "patientId") == Str(other) && other != req.uid && Find(users, other).Some?
    ensures ResolveSession(req, body, now, later, sessions, users).response.status == 200
  {
  }

  /** A patient id that is not a string makes the request fail only after the
      session has been marked resolved. */
  lemma FailedResolveStillConsumes(req: Requester, body: Doc, now: int, later: int, sessions: Sessions, users: Collection)
    requires Resolvable(req, body, now, sessions)
    requires !Get(body, "patientId").Str?
    ensures var r := ResolveSession(req, body, now, later, sessions, users);
            && r.response == InternalError
            && r.sessions[Get(body, "qrToken").s].resolved
  {
  }

  /** What every stored session satisfies: it expires at most one hour after
      it was created, and it carries a patient id and a resolution time
      exactly when it is resolved. */
  ghost predicate WellFormed(sessions: Sessions)
  {
    forall t :: t in sessions ==>
      var s := sessions[t];
      && s.expiresAt <= s.createdAt + SessionLifetime
      && (s.resolved <==> s.patientId.Some?)
      && (s.resolved <==> s.resolvedAt.Some?)
  }

  /** A request against the sessions collection, with the handler's two clock
      readings. */
  datatype Request =
    | Create(req: Requester, token: string, now: int, later: int)
    | Resolve(req: Requester, body: Doc, now: int, later: int, users: Collection)

  function Serve(sessions: Sessions, q: Request): SessionResult
  {
    match q
    case Create(req, token, now, later) => CreateSession(req, token, now, later, sessions)
    case Resolve(req, body, now, later, users) => ResolveSession(req, body, now, later, sessions, users)
  }

  function ServeAll(sessions: Sessions, qs: seq<Request>): Sessions
    decreases |qs|
  {
    if qs == [] then sessions else ServeAll(Serve(sessions, qs[0]).sessions, qs[1..])
  }

  /** Each request whose clock does not run backwards between its two
      readings keeps the sessions well formed. */
  lemma ServeWellFormed(sessions: Sessions, q: Request)
    requires WellFormed(sessions)
    requires q.now <= q.later
    ensures WellFormed(Serve(sessions, q).sessions)
  {
  }

  lemma {:induction false} ServeAllWellFormed(sessions: Sessions, qs: seq<Request>)
    requires WellFormed(sessions)
    requires forall i :: 0 <= i < |qs| ==> qs[i].now <= qs[i].later
    ensures WellFormed(ServeAll(sessions, qs))
    decreases |qs|
  {
    if qs != [] {
      ServeWellFormed(sessions, qs[0]);
      ServeAllWellFormed(Serve(sessions, qs[0]).sessions, qs[1..]);
    }
  }

  /** Tokens are fresh when each created one is not yet in use. */
  predicate FreshTokens(sessions: Sessions, qs: seq<Request>)
    decreases |qs|
  {
    qs == [] ||
    ((qs[0].Create? ==> qs[0].token !in sessions) && FreshTokens(Serve(sessions, qs[0]).sessions, qs[1..]))
  }

  /** With fresh tokens, a resolved session is never changed again. */
  lemma {:induction false} ResolvedSessionsFrozen(sessions: Sessions, qs: seq<Request>, t: string)
    requires FreshTokens(sessions, qs)
    requires t in sessions && sessions[t].resolved
    ensures var after := ServeAll(sessions, qs);
            t in after && after[t] == sessions[t]
    decreases |qs|
  {
    if qs != [] {
      var next := Serve(sessions, qs[0]).sessions;
      assert t in next && next[t] == sessions[t];
      ResolvedSessionsFrozen(next, qs[1..], t);
    }
  }
}
