/** What every protected route of the back end shares: Firestore collections
    read as inputs, JSON responses, the bearer-token check that identifies
    the requester, and the nurse-to-patient membership check. Token
    verification itself (Firebase Auth) is a parameter mapping a token to the
    user id it proves, if any. */
module BackendCommon {
  import opened Common
  import opened JsValues

  /** A Firestore document's data. */
  type Doc = map<string, JsValue>

  datatype Entry = Entry(id: string, doc: Doc)

  /** A collection as Firestore lists it: its documents in document-id order. */
  type Collection = seq<Entry>

  /** `collection.doc(id).get()`: the document's data, if it exists. */
  function Find(c: Collection, id: string): (r: Option<Doc>)
    ensures r.Some? ==> Entry(id, r.value) in c
    ensures r.None? ==> forall e :: e in c ==> e.id != id
    decreases |c|
  {
    if c == [] then None
    else if c[0].id == id then Some(c[0].doc)
    else
      var r := Find(c[1..], id);
      assert forall e :: e in c ==> e == c[0] || e in c[1..];
      r
  }

  /** An HTTP response: status code and JSON body. */
  datatype Response = Response(status: int, body: JsValue)

  function ErrorResponse(status: int, message: string): Response
  {
    Response(status, Obj(map["error" := Str(message)]))
  }

  const InternalError := ErrorResponse(500, "Internal server error")

  /** A route's response together with the document it wrote, if any. */
  datatype RouteResult = RouteResult(response: Response, written: Option<Entry>)

  /** The authenticated caller: `req.uid` and `req.role`. */
  datatype Requester = Requester(uid: string, role: JsValue)

  const NurseRole := Str("Nurse")
  const PatientRole := Str("Patient")
  const BearerPrefix := "Bearer "

  /** The prefix of `s` before the first occurrence of `sep` (all of `s` if none). */
  function UpTo(s: string, sep: string): (r: string)
    requires sep != []
    ensures |r| <= |s| && r == s[..|r|]
    ensures |r| < |s| ==> |r| + |sep| <= |s| && s[|r|..|r| + |sep|] == sep
    decreases |s|
  {
    if |s| < |sep| then s
    else if s[..|sep|] == sep then []
    else [s[0]] + UpTo(s[1..], sep)
  }

  /** `auth.split("Bearer ")[1]` for a header that starts with "Bearer ": the
      text after the prefix up to any further "Bearer ". */
  function TokenOf(header: string): string
    requires |header| >= |BearerPrefix| && header[..|BearerPrefix|] == BearerPrefix
  {
    UpTo(header[|BearerPrefix|..], BearerPrefix)
  }

  predicate HasBearerPrefix(header: string)
  {
    |header| >= |BearerPrefix| && header[..|BearerPrefix|] == BearerPrefix
  }

  /** `verifyToken`: the requester, or the 401 response that ends the request. */
  function VerifyToken(header: Option<string>, verify: string -> Option<string>, users: Collection): (r: Result<Requester, Response>)
    ensures (header.None? || !HasBearerPrefix(header.value)) ==>
              r == Err(ErrorResponse(401, "Missing or invalid Authorization header"))
    ensures header.Some? && HasBearerPrefix(header.value) && verify(TokenOf(header.value)).None? ==>
              r == Err(ErrorResponse(401, "Invalid token"))
    ensures r.Ok? ==>
              && header.Some? && HasBearerPrefix(header.value)
              && verify(TokenOf(header.value)) == Some(r.value.uid)
              && r.value.role == (match Find(users, r.value.uid)
                                  case None => Null
                                  case Some(doc) => Or(Get(doc, "role"), Null))
  {
    match header
    case None => Err(ErrorResponse(401, "Missing or invalid Authorization header"))
    case Some(auth) =>
      if auth == "" || !HasBearerPrefix(auth) then Err(ErrorResponse(401, "Missing or invalid Authorization header"))
      else
        match verify(TokenOf(auth))
        case None => Err(ErrorResponse(401, "Invalid token"))
        case Some(uid) =>
          var role := match Find(users, uid) case None => Null case Some(doc) => Or(Get(doc, "role"), Null);
          Ok(Requester(uid, role))
  }

  /** `UpTo` stops early only at an actual occurrence of the separator. */
  lemma UpToStopsAtSeparator(s: string, sep: string)
    requires sep != []
    ensures UpTo(s, sep) == s || Contains(s, sep)
  {
    var r := UpTo(s, sep);
    if |r| < |s| {
      assert Slice(s, |r|, |sep|) == sep;
    } else {
      assert r == s[..|s|];
    }
  }

  /** A header that is just the prefix and one token carries that token. */
  lemma TokenOfSimpleHeader(token: string)
    requires !Contains(token, BearerPrefix)
    ensures HasBearerPrefix(BearerPrefix + token)
    ensures TokenOf(BearerPrefix + token) == token
  {
    var h := BearerPrefix + token;
    assert h[..|BearerPrefix|] == BearerPrefix;
    assert h[|BearerPrefix|..] == token;
    UpToStopsAtSeparator(token, BearerPrefix);
  }

  /** The caller's role is exactly the string "Nurse". */
  predicate IsNurse(req: Requester) { req.role == NurseRole }

  /** `nurseDoc.data()?.patientIds || []` followed by `.includes(patientId)`,
      with no check that the list is an array. */
  function NurseListsPatient(users: Collection, nurseId: string, patientId: string): (r: Result<bool, string>)
    ensures var ids := match Find(users, nurseId) case None => Arr([]) case Some(d) => Or(Get(d, "patientIds"), Arr([]));
            r == Includes(ids, patientId)
  {
    var ids := match Find(users, nurseId) case None => Arr([]) case Some(d) => Or(Get(d, "patientIds"), Arr([]));
    Includes(ids, patientId)
  }

  /** The access check shared by the vitals and alerts routes of one patient:
      `None` lets the request through, otherwise the response that ends it.
      The patient may always proceed; a nurse only for a listed patient. */
  function PatientDataGuard(req: Requester, patientId: string, users: Collection): (r: Option<Response>)
    ensures r.None? <==> req.uid == patientId || (IsNurse(req) && NurseListsPatient(users, req.uid, patientId) == Ok(true))
    ensures r.Some? ==> r.value.status == 403 || r.value.status == 500
    ensures r.Some? && r.value.status == 500 <==>
              req.uid != patientId && IsNurse(req) && NurseListsPatient(users, req.uid, patientId).Err?
  {
    if req.uid != patientId && !IsNurse(req) then Some(ErrorResponse(403, "Not authorized"))
    else if IsNurse(req) && req.uid != patientId then
      match NurseListsPatient(users, req.uid, patientId)
      case Err(_) => Some(InternalError)
      case Ok(false) => Some(ErrorResponse(403, "Nurse not authorized for this patient"))
      case Ok(true) => None
    else None
  }
}
