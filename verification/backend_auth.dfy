/** The two unauthenticated account routes, `POST /auth/register` and
    `POST /auth/login`. Firebase Auth (account creation, password sign-in)
    and the ID-token exchange are parameters giving what those calls
    returned; the Firestore write of the new user document is returned as
    the document written. */
module AuthRoutes {
  import opened Common
  import opened JsValues
  import opened BackendCommon

  /** What `admin.auth().createUser` did. */
  datatype CreateOutcome = Created(uid: string) | EmailAlreadyExists | CreateFailed(message: JsValue)

  /** How obtaining the ID token for the new account ended. */
  datatype TokenOutcome = TokenIssued(idToken: string) | TokenFailed(message: JsValue)

  /** The failure response that carries the error's message as `details`. */
  function InternalErrorWithDetails(details: JsValue): Response
  {
    Response(500, Obj(map["error" := Str("Internal server error"), "details" := details]))
  }

  /** The registration fields are all present (truthy) and the role is one of the two roles. */
  predicate ValidRegistration(body: Doc)
  {
    && Truthy(Get(body, "email")) && Truthy(Get(body, "password"))
    && Truthy(Get(body, "name")) && Truthy(Get(body, "role"))
    && (Get(body, "role") == NurseRole || Get(body, "role") == PatientRole)
  }

  /** The user document stored for a new account. */
  function UserDocument(uid: string, body: Doc, createdAt: JsValue): Doc
  {
    var patientIds := GetOr(body, "patientIds", Arr([]));
    map["id" := Str(uid),
        "name" := Get(body, "name"),
        "role" := Get(body, "role"),
        "email" := Get(body, "email"),
        "linkedGarminDeviceId" := Or(GetOr(body, "linkedGarminDeviceId", Null), Null),
        "patientIds" := if patientIds.Arr? then patientIds else Arr([]),
        "createdAt" := createdAt]
  }

  /** A user document of the shape registration produces: its id, one of the
      two roles, and an array of patient ids. */
  predicate WellFormedUser(uid: string, doc: Doc)
  {
    && Get(doc, "id") == Str(uid)
    && (Get(doc, "role") == NurseRole || Get(doc, "role") == PatientRole)
    && Get(doc, "patientIds").Arr?
  }

  function Register(body: Doc, create: CreateOutcome, token: TokenOutcome, createdAt: JsValue): (r: RouteResult)
    // every malformed request is refused with 400 before anything is created
    ensures !ValidRegistration(body) ==> r.response.status == 400 && r.written.None?
    ensures ValidRegistration(body) && create.EmailAlreadyExists? ==>
              r.response == ErrorResponse(400, "Email already in use") && r.written.None?
    ensures ValidRegistration(body) && create.CreateFailed? ==> r.response.status == 500 && r.written.None?
    // a created account always gets its user document, well formed
    ensures ValidRegistration(body) && create.Created? ==>
              && r.written == Some(Entry(create.uid, UserDocument(create.uid, body, createdAt)))
              && WellFormedUser(create.uid, r.written.value.doc)
              && (r.response.status == 200 <==> token.TokenIssued?)
    ensures r.response.status == 200 ==> ValidRegistration(body) && create.Created? && r.written.Some?
  {
    var email, password, name, role := Get(body, "email"), Get(body, "password"), Get(body, "name"), Get(body, "role");
    if !Truthy(email) || !Truthy(password) || !Truthy(name) || !Truthy(role) then
      RouteResult(ErrorResponse(400, "Missing required fields"), None)
    else if role != NurseRole && role != PatientRole then
      RouteResult(ErrorResponse(400, "role must be 'Nurse' or 'Patient'"), None)
    else
      match create
      case EmailAlreadyExists => RouteResult(ErrorResponse(400, "Email already in use"), None)
      case CreateFailed(m) => RouteResult(InternalErrorWithDetails(m), None)
      case Created(uid) =>
        var userData := UserDocument(uid, body, createdAt);
        match token
        case TokenIssued(t) =>
          RouteResult(Response(200, Obj(map["idToken" := Str(t), "user" := Obj(userData)])), Some(Entry(uid, userData)))
        case TokenFailed(m) => RouteResult(InternalErrorWithDetails(m), Some(Entry(uid, userData)))
  }

  /** A registration whose token step fails still leaves the account's user
      document behind: the 500 does not undo the write. */
  lemma RegisterFailureKeepsUser(body: Doc, uid: string, message: JsValue, createdAt: JsValue)
    requires ValidRegistration(body)
    ensures var r := Register(body, Created(uid), TokenFailed(message), createdAt);
            r.response.status == 500 && r.written.Some? && r.written.value.id == uid
  {
  }

  /** A `patientIds` that is not an array is stored as the empty list, and an array is kept. */
  lemma RegisterNormalizesPatientIds(body: Doc, uid: string, createdAt: JsValue)
    ensures var ids := UserDocument(uid, body, createdAt)["patientIds"];
            && ids.Arr?
            && (Get(body, "patientIds").Arr? ==> ids == body["patientIds"])
            && (!Get(body, "patientIds").Arr? ==> ids == Arr([]))
  {
  }

  /** What the password sign-in returned: the account, the provider's
      refusal (with its error message, if any), or a failure without a
      provider answer. */
  datatype SignInOutcome =
    | SignedIn(uid: string, idToken: string)
    | SignInRejected(message: JsValue)
    | SignInUnreachable(message: JsValue)

  function Login(body: Doc, signIn: SignInOutcome, users: Collection): (r: Response)
    ensures !Truthy(Get(body, "email")) || !Truthy(Get(body, "password")) ==>
              r == ErrorResponse(400, "Missing email or password")
    ensures Truthy(Get(body, "email")) && Truthy(Get(body, "password")) ==>
              && (signIn.SignedIn? && Find(users, signIn.uid).None? ==> r == ErrorResponse(404, "User doc not found"))
              && (signIn.SignedIn? && Find(users, signIn.uid).Some? ==>
                    r == Response(200, Obj(map["idToken" := Str(signIn.idToken), "user" := Obj(Find(users, signIn.uid).value)])))
              && (signIn.SignInRejected? ==>
                    r == Response(400, Obj(map["error" := Or(signIn.message, Str("Invalid email or password"))])))
              && (signIn.SignInUnreachable? ==> r == InternalErrorWithDetails(signIn.message))
    ensures r.status == 200 ==> signIn.SignedIn? && Find(users, signIn.uid).Some?
  {
    if !Truthy(Get(body, "email")) || !Truthy(Get(body, "password")) then
      ErrorResponse(400, "Missing email or password")
    else
      match signIn
      case SignInRejected(m) => Response(400, Obj(map["error" := Or(m, Str("Invalid email or password"))]))
      case SignInUnreachable(m) => InternalErrorWithDetails(m)
      case SignedIn(uid, t) =>
        match Find(users, uid)
        case None => ErrorResponse(404, "User doc not found")
        case Some(doc) => Response(200, Obj(map["idToken" := Str(t), "user" := Obj(doc)]))
  }

  /** Round trip: once the document a registration wrote is stored, logging
      in with the same credentials returns the very user object the
      registration returned. */
  lemma RegisteredUserLogsIn(body: Doc, uid: string, t: string, createdAt: JsValue, users: Collection, t2: string)
    requires ValidRegistration(body)
    requires Find(users, uid) == Some(UserDocument(uid, body, createdAt))
    ensures var reg := Register(body, Created(uid), TokenIssued(t), createdAt);
            var credentials := map["email" := Get(body, "email"), "password" := Get(body, "password")];
            var login := Login(credentials, SignedIn(uid, t2), users);
            && reg.response.status == 200 && login.status == 200
            && reg.response.body.fields["user"] == login.body.fields["user"]
  {
    var credentials := map["email" := Get(body, "email"), "password" := Get(body, "password")];
    assert Get(credentials, "email") == Get(body, "email");
    assert Get(credentials, "password") == Get(body, "password");
  }
}
