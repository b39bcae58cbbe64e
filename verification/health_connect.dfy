/** Health Connect decision logic: which permissions the app asks for, how
    the SDK status and the granted permissions map to an availability, and
    how heart-rate, SpO2 and HRV records are merged into one reading per
    second and returned newest first. The SDK records arrive already mapped
    to `VitalRecord`s (one per heart-rate sample, one per SpO2 or HRV record). */
module HealthConnect {
  import opened Common
  import opened DomainModel
  import Sorting

  /** The read permissions the app deals with; `OtherPermission` is anything
      else the platform may report as granted. */
  datatype Permission =
    | ReadHeartRate
    | ReadOxygenSaturation
    | ReadHeartRateVariability
    | OtherPermission(name: string)

  const RequiredPermissions: set<Permission> := {ReadHeartRate, ReadOxygenSaturation}
  const OptionalPermissions: set<Permission> := {ReadHeartRateVariability}
  /** Everything the app requests: the required set plus the optional HRV permission. */
  const Permissions: set<Permission> := RequiredPermissions + OptionalPermissions

  lemma PermissionSets()
    ensures Permissions == {ReadHeartRate, ReadOxygenSaturation, ReadHeartRateVariability}
    ensures RequiredPermissions <= Permissions
    ensures RequiredPermissions !! OptionalPermissions
  {
  }

  /** `HealthConnectClient.getSdkStatus` results (the SDK's constants). */
  const SdkUnavailable := 1
  const SdkUnavailableProviderUpdateRequired := 2
  const SdkAvailable := 3

  datatype Availability = NotSupported | NotInstalled | PermissionsNotGranted | InstalledAndAvailable

  /** No required permission is missing from the granted set. */
  function HasRequiredPermissions(granted: set<Permission>): (r: bool)
    ensures r <==> ReadHeartRate in granted && ReadOxygenSaturation in granted
  {
    var missing := RequiredPermissions - granted;
    assert ReadHeartRate !in granted ==> ReadHeartRate in missing;
    assert ReadOxygenSaturation !in granted ==> ReadOxygenSaturation in missing;
    missing == {}
  }

  /** The optional HRV permission (or any unrelated one) never changes the answer. */
  lemma OptionalPermissionIrrelevant(granted: set<Permission>, extra: set<Permission>)
    requires extra !! RequiredPermissions
    ensures HasRequiredPermissions(granted + extra) == HasRequiredPermissions(granted)
    ensures HasRequiredPermissions(granted - extra) == HasRequiredPermissions(granted)
  {
  }

  function GetAvailability(sdkStatus: int, granted: set<Permission>): (a: Availability)
    ensures sdkStatus == SdkAvailable ==>
              (a == InstalledAndAvailable <==> HasRequiredPermissions(granted))
              && (a == PermissionsNotGranted <==> !HasRequiredPermissions(granted))
    ensures sdkStatus == SdkUnavailableProviderUpdateRequired <==> a == NotInstalled
    ensures sdkStatus != SdkAvailable && sdkStatus != SdkUnavailableProviderUpdateRequired ==> a == NotSupported
  {
    if sdkStatus == SdkAvailable then
      if HasRequiredPermissions(granted) then InstalledAndAvailable else PermissionsNotGranted
    else if sdkStatus == SdkUnavailable then NotSupported
    else if sdkStatus == SdkUnavailableProviderUpdateRequired then NotInstalled
    else NotSupported
  }

  /** Which measurement a record carries, hence which field a merge overwrites. */
  datatype RecordKind = HeartRateSample | OxygenSaturation | HeartRateVariability

  /** The second a timestamp falls in: `timestamp / 1000`, truncating toward zero. */
  function Bucket(timestamp: int): int
  {
    TruncDiv(timestamp, 1000)
  }

  /** The `mutableMapOf<Long, VitalReading>()` being filled: a map from second
      to reading, plus its insertion order (a `LinkedHashMap`'s iteration order). */
  datatype Merged = Merged(order: seq<int>, byBucket: map<int, VitalRecord>)

  const EmptyMerged := Merged([], map[])

  ghost predicate Valid(m: Merged)
  {
    && Sorting.Distinct(m.order)
    && (forall i :: 0 <= i < |m.order| ==> m.order[i] in m.byBucket)
    && (forall k :: k in m.byBucket ==> k in m.order)
    && (forall k :: k in m.byBucket ==> Bucket(m.byBucket[k].timestamp) == k)
  }

  /** The reading stored for an existing second after a record of `kind`
      arrives: only that record's measurement is copied; the source label is
      replaced only when the stored one is "Unknown". */
  function Overwrite(existing: VitalRecord, incoming: VitalRecord, kind: RecordKind): VitalRecord
  {
    var source := if existing.deviceSource == "Unknown" then incoming.deviceSource else existing.deviceSource;
    match kind
    case HeartRateSample => existing.(heartRate := incoming.heartRate, deviceSource := source)
    case OxygenSaturation => existing.(spo2 := incoming.spo2, deviceSource := source)
    case HeartRateVariability => existing.(heartRateVariability := incoming.heartRateVariability, deviceSource := source)
  }

  /** Adds one record to the map (the body of each `forEach`). */
  function MergeOne(m: Merged, r: VitalRecord, kind: RecordKind): (m': Merged)
    requires Valid(m)
    ensures Valid(m')
    ensures m'.byBucket.Keys == m.byBucket.Keys + {Bucket(r.timestamp)}
    ensures forall k :: k in m.byBucket && k != Bucket(r.timestamp) ==> m'.byBucket[k] == m.byBucket[k]
    // the record's own measurement lands in its second either way
    ensures SameMeasurement(m'.byBucket[Bucket(r.timestamp)], r, kind)
    // a new second takes the record as it is
    ensures Bucket(r.timestamp) !in m.byBucket ==> m'.byBucket[Bucket(r.timestamp)] == r
    // an existing second keeps its identity, timestamp and other measurements
    ensures Bucket(r.timestamp) in m.byBucket ==>
              var was := m.byBucket[Bucket(r.timestamp)];
              var now := m'.byBucket[Bucket(r.timestamp)];
              && now.id == was.id && now.patientId == was.patientId && now.timestamp == was.timestamp
              && now.deviceSource == (if was.deviceSource == "Unknown" then r.deviceSource else was.deviceSource)
              && now.heartRate == (if kind == HeartRateSample then r.heartRate else was.heartRate)
              && now.spo2 == (if kind == OxygenSaturation then r.spo2 else was.spo2)
              && now.heartRateVariability ==
                   (if kind == HeartRateVariability then r.heartRateVariability else was.heartRateVariability)
  {
    var b := Bucket(r.timestamp);
    if b in m.byBucket then
      Merged(m.order, m.byBucket[b := Overwrite(m.byBucket[b], r, kind)])
    else
      Merged(m.order + [b], m.byBucket[b := r])
  }

  function BucketsOf(rs: seq<VitalRecord>): set<int>
  {
    set r | r in rs :: Bucket(r.timestamp)
  }

  /** Adds records of one kind, in list order. */
  function MergeAll(m: Merged, rs: seq<VitalRecord>, kind: RecordKind): (m': Merged)
    requires Valid(m)
    ensures Valid(m')
    ensures m'.byBucket.Keys == m.byBucket.Keys + BucketsOf(rs)
    decreases |rs|
  {
    if rs == [] then m
    else
      BucketsOfSnoc(rs);
      MergeOne(MergeAll(m, rs[..|rs| - 1], kind), rs[|rs| - 1], kind)
  }

  /** The seconds of a non-empty list: those of all but its last record, and the last one's. */
  lemma BucketsOfSnoc(rs: seq<VitalRecord>)
    requires rs != []
    ensures BucketsOf(rs) == BucketsOf(rs[..|rs| - 1]) + {Bucket(rs[|rs| - 1].timestamp)}
  {
    assert forall r :: r in rs <==> r in rs[..|rs| - 1] || r == rs[|rs| - 1];
  }

  /** The map's values in insertion order. */
  function Values(order: seq<int>, byBucket: map<int, VitalRecord>): (vs: seq<VitalRecord>)
    requires forall i :: 0 <= i < |order| ==> order[i] in byBucket
    ensures |vs| == |order|
    ensures forall i :: 0 <= i < |vs| ==> vs[i] == byBucket[order[i]]
  {
    if order == [] then [] else [byBucket[order[0]]] + Values(order[1..], byBucket)
  }

  function NegatedTimestamp(r: VitalRecord): int { -r.timestamp }

  /** The three `forEach` passes, heart rate first, then SpO2, then HRV. */
  function MergeRecords(heartRates: seq<VitalRecord>, spo2s: seq<VitalRecord>, hrvs: seq<VitalRecord>): (m: Merged)
    ensures Valid(m)
    ensures m.byBucket.Keys == BucketsOf(heartRates + spo2s + hrvs)
  {
    var m1 := MergeAll(EmptyMerged, heartRates, HeartRateSample);
    var m2 := MergeAll(m1, spo2s, OxygenSaturation);
    BucketsOfConcat(heartRates, spo2s, hrvs);
    MergeAll(m2, hrvs, HeartRateVariability)
  }

  /** `combineRecordsToVitalReadings`: one reading per second, newest first. */
  function Combine(heartRates: seq<VitalRecord>, spo2s: seq<VitalRecord>, hrvs: seq<VitalRecord>): (out: seq<VitalRecord>)
    // every second that any record falls in appears, and no other
    ensures BucketsOf(out) == BucketsOf(heartRates + spo2s + hrvs)
    // at most one reading per second
    ensures forall i, j :: 0 <= i < j < |out| ==> Bucket(out[i].timestamp) != Bucket(out[j].timestamp)
    // newest first
    ensures forall i, j :: 0 <= i < j < |out| ==> out[i].timestamp > out[j].timestamp
  {
    var m := MergeRecords(heartRates, spo2s, hrvs);
    var vs := Values(m.order, m.byBucket);
    ValuesCoverMap(m, vs);
    var out := Sorting.SortBy(vs, NegatedTimestamp);
    SortedReadings(vs, out);
    out
  }

  lemma BucketsOfConcat(a: seq<VitalRecord>, b: seq<VitalRecord>, c: seq<VitalRecord>)
    ensures BucketsOf(a + b + c) == BucketsOf(a) + BucketsOf(b) + BucketsOf(c)
  {
    assert forall r :: r in a + b + c <==> r in a || r in b || r in c;
  }

  /** The values of a valid map lie in pairwise distinct seconds, which are
      exactly the map's keys. */
  lemma ValuesCoverMap(m: Merged, vs: seq<VitalRecord>)
    requires Valid(m)
    requires |vs| == |m.order| && forall i :: 0 <= i < |vs| ==> m.order[i] in m.byBucket && vs[i] == m.byBucket[m.order[i]]
    ensures BucketsOf(vs) == m.byBucket.Keys
    ensures forall i, j :: 0 <= i < j < |vs| ==> Bucket(vs[i].timestamp) != Bucket(vs[j].timestamp)
  {
    forall i, j | 0 <= i < j < |vs| ensures Bucket(vs[i].timestamp) != Bucket(vs[j].timestamp) {
      assert Bucket(vs[i].timestamp) == m.order[i];
      assert Bucket(vs[j].timestamp) == m.order[j];
    }
    forall k | k in m.byBucket ensures k in BucketsOf(vs) {
      assert k in m.order;
      var i :| 0 <= i < |m.order| && m.order[i] == k;
      assert vs[i] in vs;
    }
    forall k | k in BucketsOf(vs) ensures k in m.byBucket {
      var r :| r in vs && Bucket(r.timestamp) == k;
      var i :| 0 <= i < |vs| && vs[i] == r;
      assert Bucket(vs[i].timestamp) == m.order[i];
    }
  }

  /** Readings at distinct positions in distinct seconds are different readings in distinct seconds. */
  lemma SeparatedMembers(vs: seq<VitalRecord>)
    requires forall i, j :: 0 <= i < j < |vs| ==> Bucket(vs[i].timestamp) != Bucket(vs[j].timestamp)
    ensures forall x, y :: x in vs && y in vs && x != y ==> Bucket(x.timestamp) != Bucket(y.timestamp)
  {
    forall x, y | x in vs && y in vs && x != y ensures Bucket(x.timestamp) != Bucket(y.timestamp) {
      var i :| 0 <= i < |vs| && vs[i] == x;
      var j :| 0 <= j < |vs| && vs[j] == y;
      if i > j {
        assert Bucket(vs[j].timestamp) != Bucket(vs[i].timestamp);
      }
    }
  }

  /** Sorting readings that lie in distinct seconds by descending timestamp
      keeps them in distinct seconds and makes the order strict. */
  lemma SortedReadings(vs: seq<VitalRecord>, out: seq<VitalRecord>)
    requires forall i, j :: 0 <= i < j < |vs| ==> Bucket(vs[i].timestamp) != Bucket(vs[j].timestamp)
    requires multiset(out) == multiset(vs) && Sorting.SortedBy(out, NegatedTimestamp)
    ensures BucketsOf(out) == BucketsOf(vs)
    ensures forall i, j :: 0 <= i < j < |out| ==> Bucket(out[i].timestamp) != Bucket(out[j].timestamp)
    ensures forall i, j :: 0 <= i < j < |out| ==> out[i].timestamp > out[j].timestamp
  {
    assert Sorting.Distinct(vs);
    Sorting.PermutationKeepsDistinct(vs, out);
    assert forall r :: r in out <==> r in multiset(out);
    assert forall r :: r in vs <==> r in multiset(vs);
    SeparatedMembers(vs);
    forall i, j | 0 <= i < j < |out| ensures Bucket(out[i].timestamp) != Bucket(out[j].timestamp) {
      assert out[i] in vs && out[j] in vs;
    }
    forall i, j | 0 <= i < j < |out| ensures out[i].timestamp > out[j].timestamp {
      assert NegatedTimestamp(out[i]) <= NegatedTimestamp(out[j]);
      assert out[i] in vs && out[j] in vs;
    }
  }

  /** The last record of `rs` that falls in second `k`, if any. */
  function LastIn(rs: seq<VitalRecord>, k: int): (r: Option<VitalRecord>)
    ensures r.Some? ==> r.value in rs && Bucket(r.value.timestamp) == k
    ensures r.None? ==> k !in BucketsOf(rs)
  {
    if rs == [] then None
    else if Bucket(rs[|rs| - 1].timestamp) == k then Some(rs[|rs| - 1])
    else
      var r := LastIn(rs[..|rs| - 1], k);
      assert forall x :: x in rs ==> x in rs[..|rs| - 1] || x == rs[|rs| - 1];
      r
  }

  /** `a` carries the same measurement of `kind` as `b`. */
  predicate SameMeasurement(a: VitalRecord, b: VitalRecord, kind: RecordKind)
  {
    match kind
    case HeartRateSample => a.heartRate == b.heartRate
    case OxygenSaturation => a.spo2 == b.spo2
    case HeartRateVariability => a.heartRateVariability == b.heartRateVariability
  }

  /** `a` agrees with `b` on its identity and on every measurement except the one of `kind`. */
  predicate AgreeExcept(a: VitalRecord, b: VitalRecord, kind: RecordKind)
  {
    && a.id == b.id && a.patientId == b.patientId && a.timestamp == b.timestamp
    && (kind != HeartRateSample ==> a.heartRate == b.heartRate)
    && (kind != OxygenSaturation ==> a.spo2 == b.spo2)
    && (kind != HeartRateVariability ==> a.heartRateVariability == b.heartRateVariability)
  }

  /** Within one pass the last record of each second wins its measurement;
      a second the pass does not touch keeps its reading. */
  lemma {:induction false} MergeAllLastWins(m: Merged, rs: seq<VitalRecord>, kind: RecordKind, k: int)
    requires Valid(m)
    ensures LastIn(rs, k).Some? ==>
              k in MergeAll(m, rs, kind).byBucket
              && SameMeasurement(MergeAll(m, rs, kind).byBucket[k], LastIn(rs, k).value, kind)
    ensures LastIn(rs, k).None? && k in m.byBucket ==>
              MergeAll(m, rs, kind).byBucket[k] == m.byBucket[k]
    decreases |rs|
  {
    if rs != [] {
      if Bucket(rs[|rs| - 1].timestamp) != k {
        MergeAllLastWins(m, rs[..|rs| - 1], kind, k);
      }
    }
  }

  /** A pass keeps every existing second's identity and its other measurements. */
  lemma {:induction false} MergeAllPreserves(m: Merged, rs: seq<VitalRecord>, kind: RecordKind, k: int)
    requires Valid(m) && k in m.byBucket
    ensures k in MergeAll(m, rs, kind).byBucket
    ensures AgreeExcept(MergeAll(m, rs, kind).byBucket[k], m.byBucket[k], kind)
    decreases |rs|
  {
    if rs != [] {
      MergeAllPreserves(m, rs[..|rs| - 1], kind, k);
    }
  }

  /** Each combined reading carries, for each kind, the measurement of the last
      record of that kind in its second (later records overwrite earlier ones). */
  lemma CombineLastWins(heartRates: seq<VitalRecord>, spo2s: seq<VitalRecord>, hrvs: seq<VitalRecord>, o: VitalRecord)
    requires o in Combine(heartRates, spo2s, hrvs)
    ensures var k := Bucket(o.timestamp);
            && (LastIn(heartRates, k).Some? ==> o.heartRate == LastIn(heartRates, k).value.heartRate)
            && (LastIn(spo2s, k).Some? ==> o.spo2 == LastIn(spo2s, k).value.spo2)
            && (LastIn(hrvs, k).Some? ==> o.heartRateVariability == LastIn(hrvs, k).value.heartRateVariability)
  {
    CombinedFromMap(heartRates, spo2s, hrvs, o);
    PassesLastWins(heartRates, spo2s, hrvs, Bucket(o.timestamp));
  }

  /** A combined reading is the map's reading at its own second. */
  lemma CombinedFromMap(heartRates: seq<VitalRecord>, spo2s: seq<VitalRecord>, hrvs: seq<VitalRecord>, o: VitalRecord)
    requires o in Combine(heartRates, spo2s, hrvs)
    ensures var m := MergeRecords(heartRates, spo2s, hrvs);
            Bucket(o.timestamp) in m.byBucket && m.byBucket[Bucket(o.timestamp)] == o
  {
    var m := MergeRecords(heartRates, spo2s, hrvs);
    var vs := Values(m.order, m.byBucket);
    var out := Sorting.SortBy(vs, NegatedTimestamp);
    assert out == Combine(heartRates, spo2s, hrvs);
    PermutationMember(vs, out, o);
    ValuesMember(m, o);
  }

  lemma PermutationMember(vs: seq<VitalRecord>, out: seq<VitalRecord>, o: VitalRecord)
    requires multiset(out) == multiset(vs) && o in out
    ensures o in vs
  {
    assert o in multiset(out);
  }

  /** Each of the map's values sits at its own second. */
  lemma ValuesMember(m: Merged, o: VitalRecord)
    requires Valid(m) && o in Values(m.order, m.byBucket)
    ensures Bucket(o.timestamp) in m.byBucket && m.byBucket[Bucket(o.timestamp)] == o
  {
    var vs := Values(m.order, m.byBucket);
    var i :| 0 <= i < |vs| && vs[i] == o;
    var k := m.order[i];
    assert k in m.byBucket && o == m.byBucket[k];
    assert Bucket(m.byBucket[k].timestamp) == k;
  }

  /** After the three passes, the reading at second `k` carries each kind's
      measurement from the last record of that kind in `k`. */
  lemma PassesLastWins(heartRates: seq<VitalRecord>, spo2s: seq<VitalRecord>, hrvs: seq<VitalRecord>, k: int)
    requires k in MergeRecords(heartRates, spo2s, hrvs).byBucket
    ensures var o := MergeRecords(heartRates, spo2s, hrvs).byBucket[k];
            && (LastIn(heartRates, k).Some? ==> o.heartRate == LastIn(heartRates, k).value.heartRate)
            && (LastIn(spo2s, k).Some? ==> o.spo2 == LastIn(spo2s, k).value.spo2)
            && (LastIn(hrvs, k).Some? ==> o.heartRateVariability == LastIn(hrvs, k).value.heartRateVariability)
  {
    var m1 := MergeAll(EmptyMerged, heartRates, HeartRateSample);
    var m2 := MergeAll(m1, spo2s, OxygenSaturation);
    MergeAllLastWins(EmptyMerged, heartRates, HeartRateSample, k);
    MergeAllLastWins(m1, spo2s, OxygenSaturation, k);
    MergeAllLastWins(m2, hrvs, HeartRateVariability, k);
    if k in m1.byBucket {
      MergeAllPreserves(m1, spo2s, OxygenSaturation, k);
      MergeAllPreserves(m2, hrvs, HeartRateVariability, k);
    }
    if k in m2.byBucket {
      MergeAllPreserves(m2, hrvs, HeartRateVariability, k);
    }
  }
}
