/** The back end's per-patient data routes: posting and listing vital
    readings (`vital_readings`) and stress alerts (`stress_alerts`). The
    clock and the id Firestore assigns to a new document are parameters;
    each collection is an input in document-id order. Firestore keeps only
    documents whose `timestamp` is a number in these queries, and breaks
    ties in an ordered query by document id in the query's direction. */
module DataRoutes {
  import opened Common
  import opened JsValues
  import opened BackendCommon
  import Sorting

  /** The timestamp of a stored document, for ordering (`0` when it has none;
      the queries below only ever order documents that have one). */
  function Timestamp(e: Entry): int
  {
    var t := Get(e.doc, "timestamp");
    if t.Num? then t.n else 0
  }

  function NegatedTimestamp(e: Entry): int { -Timestamp(e) }

  /** The documents as a JSON array of their data. */
  function DocList(es: seq<Entry>): seq<JsValue>
  {
    seq(|es|, i requires 0 <= i < |es| => Obj(es[i].doc))
  }

  /** The stored document of a new reading or alert: its data plus its own id. */
  function WithId(id: string, data: Doc): Entry
  {
    Entry(id, data["id" := Str(id)])
  }

  /** `POST /patients/:id/vitals`. Any nurse may write, not only the
      patient's; every measurement must be truthy, so a 0 is refused. */
  function PostVitals(req: Requester, patientId: string, body: Doc, now: int, newId: string): (r: RouteResult)
    ensures req.uid != patientId && !IsNurse(req) ==> r == RouteResult(ErrorResponse(403, "Not authorized"), None)
    ensures r.response.status == 200 <==>
              && (req.uid == patientId || IsNurse(req))
              && Truthy(Get(body, "heartRate")) && Truthy(Get(body, "spo2"))
              && Truthy(Get(body, "stressLevel")) && Truthy(Get(body, "deviceSource"))
    ensures r.response.status != 200 ==> r.written.None?
    // the stored reading: the patient, the server's clock, the measurements as sent
    ensures r.response.status == 200 ==>
              && r.written.Some? && r.written.value.id == newId
              && var d := r.written.value.doc;
                 && Get(d, "id") == Str(newId) && Get(d, "patientId") == Str(patientId) && Get(d, "timestamp") == Num(now)
                 && Get(d, "heartRate") == Get(body, "heartRate") && Get(d, "spo2") == Get(body, "spo2")
                 && Get(d, "stressLevel") == Get(body, "stressLevel") && Get(d, "deviceSource") == Get(body, "deviceSource")
                 && Get(d, "bodyBattery") == GetOr(body, "bodyBattery", Null)
                 && r.response.body == Obj(map["message" := Str("Vital reading saved"), "vital" := Obj(d)])
  {
    if req.uid != patientId && !IsNurse(req) then RouteResult(ErrorResponse(403, "Not authorized"), None)
    else
      var heartRate, spo2, stressLevel, deviceSource :=
        Get(body, "heartRate"), Get(body, "spo2"), Get(body, "stressLevel"), Get(body, "deviceSource");
      if !Truthy(heartRate) || !Truthy(spo2) || !Truthy(stressLevel) || !Truthy(deviceSource) then
        RouteResult(ErrorResponse(400, "Missing required fields"), None)
      else
        var e := WithId(newId, VitalData(patientId, now, body));
        RouteResult(Response(200, Obj(map["message" := Str("Vital reading saved"), "vital" := Obj(e.doc)])), Some(e))
  }

  /** The fields `vitalData` of a posted reading, before its id is added. */
  function VitalData(patientId: string, now: int, body: Doc): (d: Doc)
    ensures && Get(d, "patientId") == Str(patientId) && Get(d, "timestamp") == Num(now)
            && Get(d, "heartRate") == Get(body, "heartRate") && Get(d, "spo2") == Get(body, "spo2")
            && Get(d, "stressLevel") == Get(body, "stressLevel") && Get(d, "deviceSource") == Get(body, "deviceSource")
            && Get(d, "bodyBattery") == GetOr(body, "bodyBattery", Null)
  {
    map["patientId" := Str(patientId), "timestamp" := Num(now),
        "heartRate" := Get(body, "heartRate"), "spo2" := Get(body, "spo2"), "stressLevel" := Get(body, "stressLevel"),
        "bodyBattery" := GetOr(body, "bodyBattery", Null), "deviceSource" := Get(body, "deviceSource")]
  }

  /** Writing is looser than reading: a nurse who does not list the patient
      can post a reading the same nurse is then refused to read. */
  lemma NurseWritesWithoutMembership(req: Requester, patientId: string, body: Doc, now: int, newId: string, users: Collection)
    requires IsNurse(req) && req.uid != patientId
    requires NurseListsPatient(users, req.uid, patientId) == Ok(false)
    requires Truthy(Get(body, "heartRate")) && Truthy(Get(body, "spo2"))
    requires Truthy(Get(body, "stressLevel")) && Truthy(Get(body, "deviceSource"))
    ensures PostVitals(req, patientId, body, now, newId).response.status == 200
    ensures PatientDataGuard(req, patientId, users) == Some(ErrorResponse(403, "Nurse not authorized for this patient"))
  {
  }

  /** A reading with a measurement of zero is refused as missing. */
  lemma ZeroMeasurementRefused(req: Requester, patientId: string, body: Doc, now: int, newId: string)
    requires req.uid == patientId
    requires Get(body, "stressLevel") == Num(0)
    ensures PostVitals(req, patientId, body, now, newId).response == ErrorResponse(400, "Missing required fields")
  {
  }

  /** `parseInt(from) || 0`. */
  function FromBound(from: Option<string>): (lo: int)
    ensures ParseQuery(from).None? ==> lo == 0
    ensures ParseQuery(from).Some? ==> lo == ParseQuery(from).value
  {
    match ParseQuery(from) case None => 0 case Some(v) => v
  }

  /** `parseInt(to) || Date.now()`: a missing, unreadable or zero bound means "now". */
  function ToBound(to: Option<string>, now: int): (hi: int)
    ensures ParseQuery(to).None? || ParseQuery(to) == Some(0) ==> hi == now
    ensures ParseQuery(to).Some? && ParseQuery(to) != Some(0) ==> hi == ParseQuery(to).value
  {
    match ParseQuery(to) case None => now case Some(v) => if v == 0 then now else v
  }

  /** An explicit `to=0` is read as "up to now", not as the instant 0. */
  lemma ToZeroMeansNow(now: int)
    ensures ToBound(Some("0"), now) == now
  {
    ParseIntRoundTrip(0);
    assert IntToString(0) == "0";
  }

  /** A reading of the patient whose numeric timestamp lies in `[lo, hi]`. */
  predicate InWindow(e: Entry, patientId: string, lo: int, hi: int)
  {
    Get(e.doc, "patientId") == Str(patientId) && Get(e.doc, "timestamp").Num? && lo <= Timestamp(e) <= hi
  }

  /** The readings the range query selects, in collection order. */
  function Window(c: Collection, patientId: string, lo: int, hi: int): (w: seq<Entry>)
    ensures |w| <= |c|
    ensures forall i :: 0 <= i < |w| ==> w[i] in c && InWindow(w[i], patientId, lo, hi)
    ensures forall i :: 0 <= i < |c| && InWindow(c[i], patientId, lo, hi) ==> c[i] in w
    decreases |c|
  {
    if c == [] then []
    else
      var rest := Window(c[1..], patientId, lo, hi);
      assert forall i :: 1 <= i < |c| ==> c[i] == c[1..][i - 1];
      (if InWindow(c[0], patientId, lo, hi) then [c[0]] else []) + rest
  }

  /** The range query's answer: the selected readings in ascending time,
      equal times in ascending document id. */
  function RangeQuery(c: Collection, patientId: string, lo: int, hi: int): (r: seq<Entry>)
    ensures multiset(r) == multiset(Window(c, patientId, lo, hi))
    ensures Sorting.SortedBy(r, Timestamp)
    ensures forall i :: 0 <= i < |r| ==> r[i] in c && InWindow(r[i], patientId, lo, hi)
    ensures forall i :: 0 <= i < |c| && InWindow(c[i], patientId, lo, hi) ==> c[i] in r
  {
    var w := Window(c, patientId, lo, hi);
    var r := Sorting.SortBy(w, Timestamp);
    Sorting.SameElements(r, w);
    r
  }

  /** Among readings with the same timestamp, the range query keeps collection order. */
  lemma RangeQueryTiesInIdOrder(c: Collection, patientId: string, lo: int, hi: int, t: int)
    ensures Sorting.KeyClass(RangeQuery(c, patientId, lo, hi), Timestamp, t)
         == Sorting.KeyClass(Window(c, patientId, lo, hi), Timestamp, t)
  {
    Sorting.SortByStable(Window(c, patientId, lo, hi), Timestamp, t);
  }

  /** `GET /patients/:id/vitals?from=…&to=…`. */
  function GetVitals(req: Requester, patientId: string, from: Option<string>, to: Option<string>, now: int,
                     users: Collection, vitals: Collection): (r: Response)
    ensures PatientDataGuard(req, patientId, users).Some? ==> r == PatientDataGuard(req, patientId, users).value
    ensures r.status == 200 <==> PatientDataGuard(req, patientId, users).None?
    ensures r.status == 200 ==>
              r.body == Obj(map["vitals" := Arr(DocList(RangeQuery(vitals, patientId, FromBound(from), ToBound(to, now))))])
  {
    match PatientDataGuard(req, patientId, users)
    case Some(refusal) => refusal
    case None =>
      var es := RangeQuery(vitals, patientId, FromBound(from), ToBound(to, now));
      Response(200, Obj(map["vitals" := Arr(DocList(es))]))
  }

  /** A reading posted by an authorized caller is listed by a later range
      query whose bounds include its time. */
  lemma PostedReadingIsListed(req: Requester, patientId: string, body: Doc, now: int, newId: string,
                              before: Collection, after: Collection, lo: int, hi: int)
    requires PostVitals(req, patientId, body, now, newId).response.status == 200
    requires PostVitals(req, patientId, body, now, newId).written.value in after
    requires lo <= now <= hi
    ensures PostVitals(req, patientId, body, now, newId).written.value in RangeQuery(after, patientId, lo, hi)
  {
    var e := PostVitals(req, patientId, body, now, newId).written.value;
    var i :| 0 <= i < |after| && after[i] == e;
    assert InWindow(after[i], patientId, lo, hi);
  }

  /** `POST /patients/:id/alerts`: the shared access check, then a severity
      that is merely present (so 0 is accepted) and a non-empty message. */
  function PostAlert(req: Requester, patientId: string, body: Doc, now: int, newId: string, users: Collection): (r: RouteResult)
    ensures PatientDataGuard(req, patientId, users).Some? ==>
              r == RouteResult(PatientDataGuard(req, patientId, users).value, None)
    ensures r.response.status == 200 <==>
              && PatientDataGuard(req, patientId, users).None?
              && Get(body, "severity") != Undefined && Truthy(Get(body, "message"))
    ensures r.response.status != 200 ==> r.written.None?
    ensures r.response.status == 200 ==>
              && r.written.Some? && r.written.value.id == newId
              && var d := r.written.value.doc;
                 && Get(d, "id") == Str(newId) && Get(d, "patientId") == Str(patientId) && Get(d, "timestamp") == Num(now)
                 && Get(d, "severity") == Get(body, "severity") && Get(d, "message") == Get(body, "message")
                 && Get(d, "acknowledged") == Bool(false)
                 && r.response.body == Obj(map["message" := Str("Alert created"), "alert" := Obj(d)])
  {
    match PatientDataGuard(req, patientId, users)
    case Some(refusal) => RouteResult(refusal, None)
    case None =>
      var severity, message := Get(body, "severity"), Get(body, "message");
      if severity == Undefined || !Truthy(message) then RouteResult(ErrorResponse(400, "Missing required fields"), None)
      else
        var data := map["patientId" := Str(patientId), "timestamp" := Num(now), "severity" := severity,
                         "message" := message, "acknowledged" := Bool(false)];
        var e := WithId(newId, data);
        RouteResult(Response(200, Obj(map["message" := Str("Alert created"), "alert" := Obj(e.doc)])), Some(e))
  }

  /** Unlike a vital reading's measurements, a severity of 0 (or `null`) is accepted. */
  lemma ZeroSeverityAccepted(req: Requester, patientId: string, body: Doc, now: int, newId: string, users: Collection)
    requires req.uid == patientId
    requires Get(body, "severity") == Num(0) && Truthy(Get(body, "message"))
    ensures PostAlert(req, patientId, body, now, newId, users).response.status == 200
  {
  }

  /** An alert of the patient with a numeric timestamp. */
  predicate AlertOf(e: Entry, patientId: string)
  {
    Get(e.doc, "patientId") == Str(patientId) && Get(e.doc, "timestamp").Num?
  }

  function Matching(c: Collection, patientId: string): (m: seq<Entry>)
    ensures forall i :: 0 <= i < |m| ==> m[i] in c && AlertOf(m[i], patientId)
    ensures forall i :: 0 <= i < |c| && AlertOf(c[i], patientId) ==> c[i] in m
    decreases |c|
  {
    if c == [] then []
    else
      var rest := Matching(c[1..], patientId);
      assert forall i :: 1 <= i < |c| ==> c[i] == c[1..][i - 1];
      (if AlertOf(c[0], patientId) then [c[0]] else []) + rest
  }

  /** The alerts query's answer: newest first, equal times in descending document id. */
  function AlertsQuery(c: Collection, patientId: string): (r: seq<Entry>)
    ensures multiset(r) == multiset(Matching(c, patientId))
    ensures Sorting.SortedBy(r, NegatedTimestamp)
    ensures forall i :: 0 <= i < |r| ==> r[i] in c && AlertOf(r[i], patientId)
    ensures forall i :: 0 <= i < |c| && AlertOf(c[i], patientId) ==> c[i] in r
  {
    var m := Matching(c, patientId);
    var r := Sorting.SortBy(Sorting.Reversed(m), NegatedTimestamp);
    ReversedSameElements(m);
    Sorting.SameElements(r, m);
    r
  }

  lemma {:induction false} ReversedSameElements<T>(s: seq<T>)
    ensures multiset(Sorting.Reversed(s)) == multiset(s)
    decreases |s|
  {
    if s != [] {
      ReversedSameElements(s[1..]);
      assert s == [s[0]] + s[1..];
    }
  }

  /** Among alerts with the same timestamp, the alerts query lists the later
      document id first: each class of equal (negated) timestamps appears in
      reverse collection order. */
  lemma AlertsQueryTiesReversed(c: Collection, patientId: string, k: int)
    ensures Sorting.KeyClass(AlertsQuery(c, patientId), NegatedTimestamp, k)
         == Sorting.KeyClass(Sorting.Reversed(Matching(c, patientId)), NegatedTimestamp, k)
  {
    var rev := Sorting.Reversed(Matching(c, patientId));
    StableFor(rev, AlertsQuery(c, patientId), k);
  }

  lemma StableFor(rev: seq<Entry>, q: seq<Entry>, k: int)
    requires q == Sorting.SortBy(rev, NegatedTimestamp)
    ensures Sorting.KeyClass(q, NegatedTimestamp, k) == Sorting.KeyClass(rev, NegatedTimestamp, k)
  {
    Sorting.SortByStable(rev, NegatedTimestamp, k);
  }

  /** `GET /patients/:id/alerts`. */
  function GetAlerts(req: Requester, patientId: string, users: Collection, alerts: Collection): (r: Response)
    ensures PatientDataGuard(req, patientId, users).Some? ==> r == PatientDataGuard(req, patientId, users).value
    ensures r.status == 200 <==> PatientDataGuard(req, patientId, users).None?
    ensures r.status == 200 ==> r.body == Obj(map["alerts" := Arr(DocList(AlertsQuery(alerts, patientId)))])
  {
    match PatientDataGuard(req, patientId, users)
    case Some(refusal) => refusal
    case None => Response(200, Obj(map["alerts" := Arr(DocList(AlertsQuery(alerts, patientId)))]))
  }

  /** The first alert listed is one of the patient's newest. */
  lemma FirstAlertIsNewest(c: Collection, patientId: string, i: int)
    requires 0 <= i < |c| && AlertOf(c[i], patientId)
    ensures AlertsQuery(c, patientId) != []
    ensures Timestamp(AlertsQuery(c, patientId)[0]) >= Timestamp(c[i])
  {
    var r := AlertsQuery(c, patientId);
    var j :| 0 <= j < |r| && r[j] == c[i];
    assert j == 0 || NegatedTimestamp(r[0]) <= NegatedTimestamp(r[j]);
  }
}
