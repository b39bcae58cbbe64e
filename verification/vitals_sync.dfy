/** Syncing Health Connect readings to Firestore: each reading is stamped
    with the patient's id and a default source label, then all of them are
    written in one batch to the `vital_readings` collection, one document per
    (patient, timestamp). The collection is modelled as a map from document
    id to document; the batch commit is a parameter that may fail. */
module VitalsSync {
  import opened Common
  import opened DomainModel

  const DefaultSource := "HealthConnect"
  const UnknownPatient := "unknown"
  const CollectionVitals := "vital_readings"

  /** One reading as `syncLastestVitals` enriches it. */
  function EnrichOne(r: VitalRecord, patientId: string): (e: VitalRecord)
    ensures e.patientId == patientId
    ensures e.deviceSource != ""
    ensures r.deviceSource != "" ==> e.deviceSource == r.deviceSource
    ensures e.(patientId := r.patientId, deviceSource := r.deviceSource) == r
  {
    r.(patientId := patientId, deviceSource := if r.deviceSource == "" then DefaultSource else r.deviceSource)
  }

  /** The enrichment of the whole list read from Health Connect. */
  function Enrich(rs: seq<VitalRecord>, patientId: string): (es: seq<VitalRecord>)
    ensures |es| == |rs|
    ensures forall i :: 0 <= i < |rs| ==> es[i] == EnrichOne(rs[i], patientId)
  {
    seq(|rs|, i requires 0 <= i < |rs| => EnrichOne(rs[i], patientId))
  }

  /** Enriching an already enriched list changes nothing. */
  lemma EnrichIdempotent(rs: seq<VitalRecord>, patientId: string)
    ensures Enrich(Enrich(rs, patientId), patientId) == Enrich(rs, patientId)
  {
    var once := Enrich(rs, patientId);
    var twice := Enrich(once, patientId);
    assert forall i :: 0 <= i < |rs| ==> twice[i] == once[i];
  }

  /** The id part of a document id: the patient id, or "unknown" when blank. */
  function PatientPart(r: VitalRecord): (p: string)
    ensures IsBlank(r.patientId) ==> p == UnknownPatient
    ensures !IsBlank(r.patientId) ==> p == r.patientId
  {
    if IsBlank(r.patientId) then UnknownPatient else r.patientId
  }

  /** `buildDocumentId`. */
  function DocumentId(r: VitalRecord): string
  {
    PatientPart(r) + "_" + IntToString(r.timestamp)
  }

  /** Two readings land in the same document exactly when they have the same
      patient part and the same timestamp: the rendered timestamp never
      contains `_`, so the last `_` of an id separates the two parts. */
  lemma DocumentIdInjective(a: VitalRecord, b: VitalRecord)
    ensures DocumentId(a) == DocumentId(b) <==> PatientPart(a) == PatientPart(b) && a.timestamp == b.timestamp
  {
    if DocumentId(a) == DocumentId(b) {
      var pa, ta := PatientPart(a), IntToString(a.timestamp);
      var pb, tb := PatientPart(b), IntToString(b.timestamp);
      var d := DocumentId(a);
      assert d == pa + "_" + ta && d == pb + "_" + tb;
      NoSeparatorAfter(pa, ta, d);
      NoSeparatorAfter(pb, tb, d);
      assert d[|pa|] == '_' && d[|pb|] == '_';
      assert |pa| == |pb|;
      assert pa == d[..|pa|] && pb == d[..|pb|];
      assert ta == d[|pa| + 1..] && tb == d[|pb| + 1..];
      IntToStringInjective(a.timestamp, b.timestamp);
    }
  }

  /** In `p + "_" + t` with `t` a rendered integer, no `_` follows the separator. */
  lemma NoSeparatorAfter(p: string, t: string, d: string)
    requires d == p + "_" + t
    requires forall i :: 0 <= i < |t| ==> IsDigit(t[i]) || t[i] == '-'
    ensures forall q :: |p| < q < |d| ==> d[q] != '_'
  {
    forall q | |p| < q < |d| ensures d[q] != '_' {
      assert d[q] == t[q - |p| - 1];
    }
  }

  /** A reading with a blank patient id shares its document with any reading
      of a patient whose id is literally "unknown" at the same timestamp. */
  lemma BlankPatientSharesUnknown(a: VitalRecord, b: VitalRecord)
    requires IsBlank(a.patientId) && b.patientId == UnknownPatient && a.timestamp == b.timestamp
    ensures DocumentId(a) == DocumentId(b)
  {
    assert !IsBlank(b.patientId) by { assert !IsWhitespace(b.patientId[0]); }
  }

  /** A Firestore field value. */
  datatype FieldValue =
    | StringValue(s: string)
    | LongValue(n: int)
    | DoubleValue(x: real)
    | NullValue

  type Document = map<string, FieldValue>

  const StoredKeys: set<string> := {"patientId", "timestamp", "heartRate", "heartRateVariability", "spo2", "deviceSource"}

  function IntField(v: Option<int>): FieldValue
  {
    match v case Some(n) => LongValue(n) case None => NullValue
  }

  function RealField(v: Option<real>): FieldValue
  {
    match v case Some(x) => DoubleValue(x) case None => NullValue
  }

  /** `toMap`: six fields; the reading's own `id` is not stored. */
  function ToMap(r: VitalRecord): (d: Document)
    ensures d.Keys == StoredKeys
    ensures "id" !in d
  {
    map["patientId" := StringValue(r.patientId),
        "timestamp" := LongValue(r.timestamp),
        "heartRate" := IntField(r.heartRate),
        "heartRateVariability" := RealField(r.heartRateVariability),
        "spo2" := RealField(r.spo2),
        "deviceSource" := StringValue(r.deviceSource)]
  }

  /** Reading a stored document back, with the document's id as the reading's id. */
  function FromMap(docId: string, d: Document): (r: Option<VitalRecord>)
    ensures r.Some? ==> r.value.id == docId
  {
    if StoredKeys <= d.Keys && d["patientId"].StringValue? && d["timestamp"].LongValue?
       && d["deviceSource"].StringValue?
       && (d["heartRate"].LongValue? || d["heartRate"].NullValue?)
       && (d["heartRateVariability"].DoubleValue? || d["heartRateVariability"].NullValue?)
       && (d["spo2"].DoubleValue? || d["spo2"].NullValue?)
    then
      Some(VitalRecord(
        docId, d["patientId"].s, d["timestamp"].n,
        if d["heartRate"].LongValue? then Some(d["heartRate"].n) else None,
        if d["heartRateVariability"].DoubleValue? then Some(d["heartRateVariability"].x) else None,
        if d["spo2"].DoubleValue? then Some(d["spo2"].x) else None,
        d["deviceSource"].s))
    else None
  }

  /** A stored reading reads back as itself, except that its id becomes the document's id. */
  lemma ToMapRoundTrip(r: VitalRecord)
    ensures FromMap(DocumentId(r), ToMap(r)) == Some(r.(id := DocumentId(r)))
  {
  }

  type Store = map<string, Document>

  /** The batch's `set` operations, applied in list order (each replaces the whole document). */
  function WriteAll(store: Store, vitals: seq<VitalRecord>): Store
    decreases |vitals|
  {
    if vitals == [] then store
    else
      var last := vitals[|vitals| - 1];
      WriteAll(store, vitals[..|vitals| - 1])[DocumentId(last) := ToMap(last)]
  }

  /** The last reading of the batch that targets document `k`. */
  function LastFor(vitals: seq<VitalRecord>, k: string): (r: Option<VitalRecord>)
    ensures r.Some? ==> r.value in vitals && DocumentId(r.value) == k
    ensures r.None? ==> forall v :: v in vitals ==> DocumentId(v) != k
    decreases |vitals|
  {
    if vitals == [] then None
    else if DocumentId(vitals[|vitals| - 1]) == k then Some(vitals[|vitals| - 1])
    else
      var init := vitals[..|vitals| - 1];
      assert forall v :: v in vitals ==> v in init || v == vitals[|vitals| - 1];
      LastFor(init, k)
  }

  function DocumentIds(vitals: seq<VitalRecord>): set<string>
  {
    set v | v in vitals :: DocumentId(v)
  }

  /** After the batch, every targeted document holds the last reading aimed at
      it, every other document is as before, and nothing is deleted. */
  lemma {:induction false} WriteAllLastWins(store: Store, vitals: seq<VitalRecord>, k: string)
    ensures LastFor(vitals, k).Some? ==>
              k in WriteAll(store, vitals) && WriteAll(store, vitals)[k] == ToMap(LastFor(vitals, k).value)
    ensures LastFor(vitals, k).None? ==>
              (k in WriteAll(store, vitals) <==> k in store)
              && (k in store ==> WriteAll(store, vitals)[k] == store[k])
    decreases |vitals|
  {
    if vitals != [] {
      var init, last := vitals[..|vitals| - 1], vitals[|vitals| - 1];
      if DocumentId(last) != k {
        WriteAllLastWins(store, init, k);
        assert LastFor(vitals, k) == LastFor(init, k);
      }
    }
  }

  /** The collection's documents after the batch: the old ones plus one per targeted id. */
  lemma WriteAllKeys(store: Store, vitals: seq<VitalRecord>)
    ensures WriteAll(store, vitals).Keys == store.Keys + DocumentIds(vitals)
  {
    forall k ensures k in WriteAll(store, vitals) <==> k in store || k in DocumentIds(vitals) {
      WriteAllLastWins(store, vitals, k);
      if k in DocumentIds(vitals) {
        var v :| v in vitals && DocumentId(v) == k;
      }
    }
  }

  /** Writing the same batch twice leaves the collection as writing it once. */
  lemma WriteAllIdempotent(store: Store, vitals: seq<VitalRecord>)
    ensures WriteAll(WriteAll(store, vitals), vitals) == WriteAll(store, vitals)
  {
    var once := WriteAll(store, vitals);
    var twice := WriteAll(once, vitals);
    WriteAllKeys(store, vitals);
    WriteAllKeys(once, vitals);
    forall k | k in twice ensures twice[k] == once[k] {
      WriteAllLastWins(store, vitals, k);
      WriteAllLastWins(once, vitals, k);
    }
  }

  /** How the batch commit ended. */
  datatype Commit = Committed | CommitFailed(message: string)

  /** `saveVitals`: nothing at all for an empty list; otherwise one atomic
      batch, which either lands whole or fails leaving the collection intact. */
  function SaveVitals(store: Store, vitals: seq<VitalRecord>, commit: Commit): (r: Result<Store, string>)
    ensures vitals == [] ==> r == Ok(store)
    ensures vitals != [] && commit.CommitFailed? ==> r == Err(commit.message)
    ensures r.Ok? ==> r.value.Keys == store.Keys + DocumentIds(vitals)
    ensures r.Ok? ==> forall v :: v in vitals ==> r.value[DocumentId(v)] == ToMap(LastFor(vitals, DocumentId(v)).value)
    ensures r.Ok? ==> forall k :: k in store && k !in DocumentIds(vitals) ==> r.value[k] == store[k]
  {
    if vitals == [] then Ok(store)
    else
      match commit
      case CommitFailed(m) => Err(m)
      case Committed =>
        var s := WriteAll(store, vitals);
        WriteAllKeys(store, vitals);
        assert forall v :: v in vitals ==> s[DocumentId(v)] == ToMap(LastFor(vitals, DocumentId(v)).value) by {
          forall v | v in vitals ensures s[DocumentId(v)] == ToMap(LastFor(vitals, DocumentId(v)).value) {
            WriteAllLastWins(store, vitals, DocumentId(v));
          }
        }
        assert forall k :: k in store && k !in DocumentIds(vitals) ==> s[k] == store[k] by {
          forall k | k in store && k !in DocumentIds(vitals) ensures s[k] == store[k] {
            WriteAllLastWins(store, vitals, k);
          }
        }
        Ok(s)
  }

  /** `syncLastestVitals`: enrich what Health Connect returned, then save it.
      Every written document, new or overwritten, belongs to the syncing
      patient and has a non-empty source; every other document is untouched;
      a failed commit is reported with its message. */
  function SyncLatestVitals(store: Store, patientId: string, local: seq<VitalRecord>, commit: Commit): (r: Result<Store, string>)
    ensures local == [] ==> r == Ok(store)
    ensures local != [] && commit.CommitFailed? ==> r == Err(commit.message)
    ensures commit.Committed? ==> r.Ok?
    ensures r.Ok? ==> r.value.Keys == store.Keys + DocumentIds(Enrich(local, patientId))
    ensures r.Ok? ==> forall k :: k in DocumentIds(Enrich(local, patientId)) ==>
              && k in r.value
              && "patientId" in r.value[k] && r.value[k]["patientId"] == StringValue(patientId)
              && "deviceSource" in r.value[k] && r.value[k]["deviceSource"] != StringValue("")
    ensures r.Ok? ==> forall k :: k in store && k !in DocumentIds(Enrich(local, patientId)) ==> r.value[k] == store[k]
  {
    var enriched := Enrich(local, patientId);
    var r := SaveVitals(store, enriched, commit);
    if r.Ok? then
      NewDocumentsAreEnriched(store, local, patientId, r.value);
      r
    else r
  }

  /** Every document the batch targets holds an enriched reading. */
  lemma NewDocumentsAreEnriched(store: Store, local: seq<VitalRecord>, patientId: string, s: Store)
    requires s.Keys == store.Keys + DocumentIds(Enrich(local, patientId))
    requires forall v :: v in Enrich(local, patientId) ==>
               s[DocumentId(v)] == ToMap(LastFor(Enrich(local, patientId), DocumentId(v)).value)
    ensures forall k :: k in DocumentIds(Enrich(local, patientId)) ==>
              && k in s
              && "patientId" in s[k] && s[k]["patientId"] == StringValue(patientId)
              && "deviceSource" in s[k] && s[k]["deviceSource"] != StringValue("")
  {
    var enriched := Enrich(local, patientId);
    forall k | k in DocumentIds(enriched)
      ensures && k in s
              && "patientId" in s[k] && s[k]["patientId"] == StringValue(patientId)
              && "deviceSource" in s[k] && s[k]["deviceSource"] != StringValue("")
    {
      var v :| v in enriched && DocumentId(v) == k;
      var w := LastFor(enriched, k).value;
      assert s[DocumentId(v)] == ToMap(w);
      EnrichedMember(local, patientId, w);
      ToMapFields(w);
    }
  }

  /** The stored patient id and source are the reading's own. */
  lemma ToMapFields(w: VitalRecord)
    ensures "patientId" in ToMap(w) && ToMap(w)["patientId"] == StringValue(w.patientId)
    ensures "deviceSource" in ToMap(w) && ToMap(w)["deviceSource"] == StringValue(w.deviceSource)
  {
  }

  /** Every reading of an enriched list belongs to the patient and has a source. */
  lemma EnrichedMember(local: seq<VitalRecord>, patientId: string, w: VitalRecord)
    requires w in Enrich(local, patientId)
    ensures w.patientId == patientId && w.deviceSource != ""
  {
    var i :| 0 <= i < |local| && Enrich(local, patientId)[i] == w;
    assert w == EnrichOne(local[i], patientId);
  }

  /** Syncing the same readings twice gives the same collection as syncing once. */
  lemma SyncTwice(store: Store, patientId: string, local: seq<VitalRecord>)
    ensures SyncLatestVitals(store, patientId, local, Committed).Ok?
    ensures var once := SyncLatestVitals(store, patientId, local, Committed).value;
            SyncLatestVitals(once, patientId, local, Committed) == Ok(once)
  {
    var enriched := Enrich(local, patientId);
    if local != [] {
      WriteAllIdempotent(store, enriched);
    }
  }
}
