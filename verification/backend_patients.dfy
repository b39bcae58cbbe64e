/** The back end's patient-directory routes: reading one patient's profile,
    a nurse's own patient list, the nurse's search by e-mail, and the
    placeholder pill identification. The `users` and `vital_readings`
    collections are inputs in document-id order. */
module PatientRoutes {
  import opened Common
  import opened JsValues
  import opened BackendCommon

  /** `nurseDoc?.patientIds || []` for the document of `uid`. */
  function ListedIds(users: Collection, uid: string): JsValue
  {
    match Find(users, uid) case None => Arr([]) case Some(d) => Or(Get(d, "patientIds"), Arr([]))
  }

  /** `GET /patients/:id`. Unlike the vitals and alerts routes, the list must
      be an array; and the existence of the patient is reported before any
      authorization check. */
  function GetPatient(req: Requester, patientId: string, users: Collection): (r: Response)
    ensures Find(users, patientId).None? ==> r == ErrorResponse(404, "Patient not found")
    ensures r.status == 200 <==>
              && Find(users, patientId).Some?
              && (req.uid == patientId
                  || (IsNurse(req) && ListedIds(users, req.uid).Arr? && Str(patientId) in ListedIds(users, req.uid).elems))
    ensures r.status == 200 ==> r.body == Obj(map["patient" := Obj(Find(users, patientId).value)])
    ensures r.status == 200 || r.status == 403 || r.status == 404
    // an existing patient is refused only with 403
    ensures Find(users, patientId).Some? && r.status != 200 ==> r.status == 403
  {
    match Find(users, patientId)
    case None => ErrorResponse(404, "Patient not found")
    case Some(patient) =>
      if req.uid == patientId then Response(200, Obj(map["patient" := Obj(patient)]))
      else if IsNurse(req) then
        var ids := ListedIds(users, req.uid);
        if ids.Arr? && Str(patientId) in ids.elems then Response(200, Obj(map["patient" := Obj(patient)]))
        else ErrorResponse(403, "Not authorized to view this patient")
      else ErrorResponse(403, "Not authorized")
  }

  /** For an existing patient whose nurse keeps an array of ids, reading the
      profile is allowed exactly when the vitals and alerts guard allows it. */
  lemma GetPatientAgreesWithGuard(req: Requester, patientId: string, users: Collection)
    requires Find(users, patientId).Some?
    requires ListedIds(users, req.uid).Arr?
    ensures GetPatient(req, patientId, users).status == 200 <==> PatientDataGuard(req, patientId, users).None?
  {
  }

  /** When a nurse's list is a string instead of an array, the vitals guard
      admits a patient whose id is a piece of that string, while the profile
      route refuses the same nurse. */
  lemma StringListSplitsRoutes(req: Requester, patientId: string, users: Collection, list: string, i: int)
    requires IsNurse(req) && req.uid != patientId
    requires Find(users, patientId).Some?
    requires ListedIds(users, req.uid) == Str(list)
    requires 0 <= i <= |list| - |patientId| && list[i..i + |patientId|] == patientId
    ensures PatientDataGuard(req, patientId, users).None?
    ensures GetPatient(req, patientId, users) == ErrorResponse(403, "Not authorized to view this patient")
  {
    SubstringIncludes(list, patientId, i);
  }

  /** Every id is a non-empty string, so Firestore accepts it as a document id. */
  predicate ValidIds(ids: seq<JsValue>)
  {
    forall i :: 0 <= i < |ids| ==> ids[i].Str? && ids[i].s != ""
  }

  /** Reading each listed id's document: a malformed id aborts the whole
      request; ids without a document are skipped. */
  function FetchExisting(ids: seq<JsValue>, users: Collection): (r: Result<seq<Doc>, string>)
    ensures r.Ok? <==> ValidIds(ids)
    ensures r.Ok? ==> |r.value| <= |ids|
    ensures r.Ok? ==> forall d :: d in r.value ==> exists i :: 0 <= i < |ids| && Find(users, ids[i].s) == Some(d)
    ensures r.Ok? ==> forall i :: 0 <= i < |ids| && Find(users, ids[i].s).Some? ==> Find(users, ids[i].s).value in r.value
    decreases |ids|
  {
    if ids == [] then Ok([])
    else if !ids[0].Str? || ids[0].s == "" then Err("TypeError")
    else
      match FetchExisting(ids[1..], users)
      case Err(e) => Err(e)
      case Ok(rest) =>
        var here := match Find(users, ids[0].s) case None => [] case Some(d) => [d];
        ShiftedFacts(ids, users, rest);
        FetchCons(ids, users, here, rest);
        Ok(here + rest)
  }

  /** One more id in front: its document, if any, joins the documents of the rest. */
  lemma FetchCons(ids: seq<JsValue>, users: Collection, here: seq<Doc>, rest: seq<Doc>)
    requires ids != [] && ValidIds(ids)
    requires here == match Find(users, ids[0].s) case None => [] case Some(d) => [d]
    requires |rest| <= |ids| - 1
    requires forall d :: d in rest ==> exists i :: 1 <= i < |ids| && Find(users, ids[i].s) == Some(d)
    requires forall i :: 1 <= i < |ids| && Find(users, ids[i].s).Some? ==> Find(users, ids[i].s).value in rest
    ensures |here + rest| <= |ids|
    ensures forall d :: d in here + rest ==> exists i :: 0 <= i < |ids| && Find(users, ids[i].s) == Some(d)
    ensures forall i :: 0 <= i < |ids| && Find(users, ids[i].s).Some? ==> Find(users, ids[i].s).value in here + rest
  {
    var r := here + rest;
    forall d | d in r ensures exists i :: 0 <= i < |ids| && Find(users, ids[i].s) == Some(d) {
      if d !in rest {
        assert d in here && Find(users, ids[0].s) == Some(d);
      }
    }
    forall i | 0 <= i < |ids| && Find(users, ids[i].s).Some? ensures Find(users, ids[i].s).value in r {
      if i > 0 {
        assert Find(users, ids[i].s).value in rest;
      }
    }
  }

  /** The facts about the rest of the ids, shifted to their positions in `ids`. */
  lemma ShiftedFacts(ids: seq<JsValue>, users: Collection, rest: seq<Doc>)
    requires ids != [] && ValidIds(ids)
    requires forall d :: d in rest ==> exists i :: 0 <= i < |ids[1..]| && Find(users, ids[1..][i].s) == Some(d)
    requires forall i :: 0 <= i < |ids[1..]| && Find(users, ids[1..][i].s).Some? ==> Find(users, ids[1..][i].s).value in rest
    ensures forall d :: d in rest ==> exists i :: 1 <= i < |ids| && Find(users, ids[i].s) == Some(d)
    ensures forall i :: 1 <= i < |ids| && Find(users, ids[i].s).Some? ==> Find(users, ids[i].s).value in rest
  {
    forall d | d in rest ensures exists i :: 1 <= i < |ids| && Find(users, ids[i].s) == Some(d) {
      var j :| 0 <= j < |ids[1..]| && Find(users, ids[1..][j].s) == Some(d);
      assert ids[1..][j] == ids[j + 1];
    }
    forall i | 1 <= i < |ids| && Find(users, ids[i].s).Some? ensures Find(users, ids[i].s).value in rest {
      assert ids[i] == ids[1..][i - 1];
    }
  }

  function PatientList(docs: seq<Doc>): JsValue
  {
    Obj(map["patients" := Arr(seq(|docs|, i requires 0 <= i < |docs| => Obj(docs[i])))])
  }

  /** `GET /nurses/:id/patients`: only the nurse themself, and only their listed patients. */
  function GetNursePatients(req: Requester, nurseId: string, users: Collection): (r: Response)
    ensures !IsNurse(req) ==> r == ErrorResponse(403, "Only nurses can access this endpoint")
    ensures IsNurse(req) && req.uid != nurseId ==> r == ErrorResponse(403, "You can only fetch your own patients")
    ensures IsNurse(req) && req.uid == nurseId && Find(users, nurseId).None? ==> r == ErrorResponse(404, "Nurse not found")
    ensures r.status == 200 <==>
              && IsNurse(req) && req.uid == nurseId && Find(users, nurseId).Some?
              && var ids := ListedIds(users, nurseId);
                 !ids.Arr? || ValidIds(ids.elems)
    // the documents returned are exactly those of the listed ids that exist
    ensures r.status == 200 ==>
              var ids := ListedIds(users, nurseId);
              exists docs: seq<Doc> ::
                && r.body == PatientList(docs)
                && (!ids.Arr? ==> docs == [])
                && (ids.Arr? ==>
                      && (forall d :: d in docs ==> exists i :: 0 <= i < |ids.elems| && Find(users, ids.elems[i].s) == Some(d))
                      && (forall i :: 0 <= i < |ids.elems| && Find(users, ids.elems[i].s).Some? ==>
                            Find(users, ids.elems[i].s).value in docs))
  {
    if !IsNurse(req) then ErrorResponse(403, "Only nurses can access this endpoint")
    else if req.uid != nurseId then ErrorResponse(403, "You can only fetch your own patients")
    else if Find(users, nurseId).None? then ErrorResponse(404, "Nurse not found")
    else
      var ids := ListedIds(users, nurseId);
      if !ids.Arr? || |ids.elems| == 0 then Response(200, PatientList([]))
      else
        match FetchExisting(ids.elems, users)
        case Err(_) => InternalError
        case Ok(docs) => Response(200, PatientList(docs))
  }

  /** Position of the first user whose e-mail equals `email` and whose role is
      "Patient" (`where … limit(1)` over the id-ordered collection). */
  function FirstPatientWithEmail(users: Collection, email: JsValue): (r: Option<nat>)
    ensures r.Some? ==> r.value < |users|
                        && Get(users[r.value].doc, "email") == email && Get(users[r.value].doc, "role") == PatientRole
    ensures forall i :: 0 <= i < |users| && (r.None? || i < r.value) ==>
              !(Get(users[i].doc, "email") == email && Get(users[i].doc, "role") == PatientRole)
    decreases |users|
  {
    if users == [] then None
    else if Get(users[0].doc, "email") == email && Get(users[0].doc, "role") == PatientRole then Some(0)
    else
      match FirstPatientWithEmail(users[1..], email)
      case None => None
      case Some(k) => Some(k + 1)
  }

  /** A reading of the patient that carries a numeric timestamp. */
  predicate ReadingOf(e: Entry, patientId: string)
  {
    Get(e.doc, "patientId") == Str(patientId) && Get(e.doc, "timestamp").Num?
  }

  function TimestampOf(e: Entry): int
    requires Get(e.doc, "timestamp").Num?
  {
    Get(e.doc, "timestamp").n
  }

  /** The reading `orderBy("timestamp", "desc").limit(1)` returns: the largest
      timestamp, and among equal timestamps the largest document id, which is
      the last one in the id-ordered collection. */
  function LatestReading(vitals: Collection, patientId: string): (r: Option<nat>)
    ensures r.Some? ==> r.value < |vitals| && ReadingOf(vitals[r.value], patientId)
    ensures r.None? ==> forall i :: 0 <= i < |vitals| ==> !ReadingOf(vitals[i], patientId)
    ensures r.Some? ==> forall i :: 0 <= i < |vitals| && ReadingOf(vitals[i], patientId) ==>
              TimestampOf(vitals[i]) <= TimestampOf(vitals[r.value])
              && (i > r.value ==> TimestampOf(vitals[i]) < TimestampOf(vitals[r.value]))
    decreases |vitals|
  {
    if vitals == [] then None
    else
      var last := |vitals| - 1;
      var init := vitals[..last];
      var best := LatestReading(init, patientId);
      assert forall i :: 0 <= i < last ==> init[i] == vitals[i];
      if !ReadingOf(vitals[last], patientId) then best
      else if best.None? || TimestampOf(vitals[best.value]) <= TimestampOf(vitals[last]) then Some(last)
      else best
  }

  /** The summary of a reading that the search returns. */
  function VitalSummary(e: Entry): (v: JsValue)
    ensures v.Obj? && v.fields.Keys == {"id", "timestamp", "heartRate", "spo2", "stressLevel", "bodyBattery", "deviceSource"}
    ensures v.fields["id"] == Str(e.id) && v.fields["timestamp"] == Get(e.doc, "timestamp")
    // `bodyBattery ?? null`: a missing, undefined or null value reads as null, any other is kept
    ensures "bodyBattery" !in e.doc ==> v.fields["bodyBattery"] == Null
    ensures "bodyBattery" in e.doc && e.doc["bodyBattery"] != Undefined ==> v.fields["bodyBattery"] == e.doc["bodyBattery"]
    ensures v.fields["bodyBattery"] != Undefined
  {
    var bodyBattery := Get(e.doc, "bodyBattery");
    Obj(map["id" := Str(e.id),
            "timestamp" := Get(e.doc, "timestamp"),
            "heartRate" := Get(e.doc, "heartRate"),
            "spo2" := Get(e.doc, "spo2"),
            "stressLevel" := Get(e.doc, "stressLevel"),
            "bodyBattery" := if bodyBattery == Undefined || bodyBattery == Null then Null else bodyBattery,
            "deviceSource" := Get(e.doc, "deviceSource")])
  }

  /** `POST /patients/search`. */
  function SearchPatients(req: Requester, body: Doc, users: Collection, vitals: Collection): (r: Response)
    ensures !IsNurse(req) ==> r == ErrorResponse(403, "Only nurses can search patients")
    ensures IsNurse(req) && !Truthy(Get(body, "email")) ==> r == ErrorResponse(400, "Email is required")
    ensures IsNurse(req) && Truthy(Get(body, "email")) ==> r.status == 200
    ensures r.status == 200 ==>
              match FirstPatientWithEmail(users, Get(body, "email"))
              case None => r.body == Obj(map["found" := Bool(false)])
              case Some(k) =>
                && r.body.Obj? && "found" in r.body.fields && r.body.fields["found"] == Bool(true)
                && "patient" in r.body.fields
                && r.body.fields["patient"] == Obj(map["id" := Str(users[k].id),
                                                       "name" := Get(users[k].doc, "name"),
                                                       "email" := Get(users[k].doc, "email")])
                && "latestVital" in r.body.fields
                && (r.body.fields["latestVital"] == Null <==> LatestReading(vitals, users[k].id).None?)
                && (LatestReading(vitals, users[k].id).Some? ==>
                      r.body.fields["latestVital"] == VitalSummary(vitals[LatestReading(vitals, users[k].id).value]))
  {
    var email := Get(body, "email");
    if !IsNurse(req) then ErrorResponse(403, "Only nurses can search patients")
    else if !Truthy(email) then ErrorResponse(400, "Email is required")
    else
      match FirstPatientWithEmail(users, email)
      case None => Response(200, Obj(map["found" := Bool(false)]))
      case Some(k) =>
        var patient := users[k];
        var latest := match LatestReading(vitals, patient.id) case None => Null case Some(j) => VitalSummary(vitals[j]);
        Response(200, Obj(map["found" := Bool(true),
                              "patient" := Obj(map["id" := Str(patient.id),
                                                   "name" := Get(patient.doc, "name"),
                                                   "email" := Get(patient.doc, "email")]),
                              "latestVital" := latest]))
  }

  const PillCandidates := Arr([Obj(map["name" := Str("Aspirin"), "dosage" := Str("500mg")]),
                               Obj(map["name" := Str("Paracetamol"), "dosage" := Str("500mg")])])

  /** `POST /pill/identify`: a placeholder that echoes the description with
      defaults and always proposes the same two medications. */
  function IdentifyPill(body: Doc): (r: Response)
    ensures r.status == 400 <==>
              !Truthy(Get(body, "imprint")) && !Truthy(Get(body, "color"))
              && !Truthy(Get(body, "shape")) && !Truthy(Get(body, "image"))
    ensures r.status != 400 ==>
              && r.status == 200 && r.body.Obj?
              && "candidateMedications" in r.body.fields && r.body.fields["candidateMedications"] == PillCandidates
              && "detectedImprint" in r.body.fields
              && (Truthy(Get(body, "imprint")) ==> r.body.fields["detectedImprint"] == Get(body, "imprint"))
              && (!Truthy(Get(body, "imprint")) ==> r.body.fields["detectedImprint"] == Str("N/A"))
              && "detectedColor" in r.body.fields && "detectedShape" in r.body.fields && "imageLocalPath" in r.body.fields
              && (Truthy(Get(body, "color")) ==> r.body.fields["detectedColor"] == Get(body, "color"))
              && (!Truthy(Get(body, "color")) ==> r.body.fields["detectedColor"] == Str("Unknown"))
              && (Truthy(Get(body, "shape")) ==> r.body.fields["detectedShape"] == Get(body, "shape"))
              && (!Truthy(Get(body, "shape")) ==> r.body.fields["detectedShape"] == Str("Unknown"))
              && (Truthy(Get(body, "image")) ==> r.body.fields["imageLocalPath"] == Get(body, "image"))
              && (!Truthy(Get(body, "image")) ==> r.body.fields["imageLocalPath"] == Null)
  {
    var imprint, color, shape, image := Get(body, "imprint"), Get(body, "color"), Get(body, "shape"), Get(body, "image");
    if !Truthy(imprint) && !Truthy(color) && !Truthy(shape) && !Truthy(image) then
      ErrorResponse(400, "At least one identifier (imprint, color, shape, or image) is required")
    else
      Response(200, Obj(map["imageLocalPath" := Or(image, Null),
                            "detectedImprint" := Or(imprint, Str("N/A")),
                            "detectedColor" := Or(color, Str("Unknown")),
                            "detectedShape" := Or(shape, Str("Unknown")),
                            "candidateMedications" := PillCandidates]))
  }

}
