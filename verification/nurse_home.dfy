/** The nurse home screen's state holder: one card per patient with the
    latest vitals and the latest stress alert rendered as text, and a summary
    of how many patients there are and how many show an alert. The
    repositories and the date formatter are parameters: each lookup either
    threw or produced the first emission of its flow. */
module NurseHome {
  import opened Common
  import opened DomainModel

  const NoAlerts := "Sem novos alertas"
  const NoVitals := "Sem vitals"

  /** `PatientUiState`: one card on the list. */
  datatype PatientCard = PatientCard(id: string, name: string, lastVitals: string, lastAlert: string)

  datatype Summary = Summary(totalPatients: int, alerts: int)

  /** `NurseHomeUiState`. */
  datatype NurseUi = NurseUi(isLoading: bool, error: Option<string>, summary: Summary, patients: seq<PatientCard>)

  const DefaultNurseUi := NurseUi(false, None, Summary(0, 0), [])

  /** A lookup run under `runCatching { flow.firstOrNull() }`: it threw, or
      the flow's first emission (none when the flow completed empty). */
  datatype Lookup<T> = Threw | FirstEmission(value: Option<T>)

  /** A lookup's value, with an exception read as "nothing". */
  function Found<T>(l: Lookup<T>): (r: Option<T>)
    ensures l.Threw? ==> r.None?
    ensures l.FirstEmission? ==> r == l.value
  {
    match l
    case Threw => None
    case FirstEmission(v) => v
  }

  /** Position of the first alert with the largest timestamp (`maxByOrNull`
      keeps the earlier element on ties). */
  function MaxIndex(alerts: seq<StressAlert>): (i: nat)
    requires alerts != []
    ensures i < |alerts|
    ensures forall j :: 0 <= j < |alerts| ==> alerts[j].timestamp <= alerts[i].timestamp
    ensures forall j :: 0 <= j < i ==> alerts[j].timestamp < alerts[i].timestamp
    decreases |alerts|
  {
    if |alerts| == 1 then 0
    else
      var init := alerts[..|alerts| - 1];
      var i := MaxIndex(init);
      assert forall j :: 0 <= j < |init| ==> init[j] == alerts[j];
      if alerts[|alerts| - 1].timestamp > alerts[i].timestamp then |alerts| - 1 else i
  }

  /** `maxByOrNull { it.timestamp }`. */
  function LatestAlert(alerts: seq<StressAlert>): (r: Option<StressAlert>)
    ensures r.None? <==> alerts == []
    ensures r.Some? ==> r.value in alerts && forall a :: a in alerts ==> a.timestamp <= r.value.timestamp
  {
    if alerts == [] then None else Some(alerts[MaxIndex(alerts)])
  }

  /** `toCardVitalsString`. */
  function CardVitalsString(v: Option<VitalReading>): (s: string)
    ensures v.None? ==> s == NoVitals
    ensures v.Some? ==>
              s == "FC: " + IntToString(v.value.heartRate)
                   + " | SpO\U{2082}: " + IntToString(v.value.spo2)
                   + " | Stress: " + IntToString(v.value.stressLevel)
  {
    match v
    case None => NoVitals
    case Some(r) =>
      "FC: " + IntToString(r.heartRate) + " | SpO\U{2082}: " + IntToString(r.spo2)
      + " | Stress: " + IntToString(r.stressLevel)
  }

  /** A card with vitals never reads as the placeholder, so the two cases are told apart. */
  lemma VitalsCardDistinguishable(v: Option<VitalReading>)
    ensures CardVitalsString(v) == NoVitals <==> v.None?
  {
    if v.Some? {
      var s := CardVitalsString(v);
      assert s[0] == 'F';
      assert NoVitals[0] == 'S';
    }
  }

  /** `toCardAlertString`: the message, followed by the formatted time in
      parentheses when the date formatter succeeds. */
  function CardAlertString(a: Option<StressAlert>, formatTime: int -> Option<string>): (s: string)
    ensures a.None? ==> s == NoAlerts
    ensures a.Some? && formatTime(a.value.timestamp).Some? ==>
              s == a.value.message + " (" + formatTime(a.value.timestamp).value + ")"
    ensures a.Some? && formatTime(a.value.timestamp).None? ==> s == a.value.message
  {
    match a
    case None => NoAlerts
    case Some(alert) =>
      match formatTime(alert.timestamp)
      case Some(time) => alert.message + " (" + time + ")"
      case None => alert.message
  }

  /** An alert card reads as "no alerts" exactly when there is no alert, or
      when the alert's own message is that text and its time could not be formatted. */
  lemma AlertCardPlaceholder(a: Option<StressAlert>, formatTime: int -> Option<string>)
    ensures CardAlertString(a, formatTime) == NoAlerts <==>
              a.None? || (a.value.message == NoAlerts && formatTime(a.value.timestamp).None?)
  {
    if a.Some? && formatTime(a.value.timestamp).Some? {
      var s := CardAlertString(a, formatTime);
      assert s[|s| - 1] == ')';
      assert NoAlerts[|NoAlerts| - 1] == 's';
    }
  }

  /** The alert shown for a patient, from their alert lookup. */
  function ShownAlert(alerts: Lookup<seq<StressAlert>>): (r: Option<StressAlert>)
    ensures r.Some? ==> alerts.FirstEmission? && alerts.value.Some? && r.value in alerts.value.value
  {
    match Found(alerts) case None => None case Some(list) => LatestAlert(list)
  }

  /** The card for one patient; lookup failures only fall back to the placeholders. */
  function Card(p: PatientProfile, vitals: Lookup<VitalReading>, alerts: Lookup<seq<StressAlert>>,
                formatTime: int -> Option<string>): PatientCard
  {
    PatientCard(p.id, p.name, CardVitalsString(Found(vitals)), CardAlertString(ShownAlert(alerts), formatTime))
  }

  /** `count { it.lastAlert != NO_ALERTS }`. */
  function CountAlertCards(cards: seq<PatientCard>): (n: nat)
    ensures n <= |cards|
    decreases |cards|
  {
    if cards == [] then 0
    else (if cards[0].lastAlert != NoAlerts then 1 else 0) + CountAlertCards(cards[1..])
  }

  /** `loadNurseHomeData`: `patients` is the repository's answer (or the
      exception's message); `vitalsOf`, `alertsOf` are the per-patient lookups. */
  function Load(ui: NurseUi, patients: Result<seq<PatientProfile>, Option<string>>,
                vitalsOf: string -> Lookup<VitalReading>,
                alertsOf: string -> Lookup<seq<StressAlert>>,
                formatTime: int -> Option<string>): (ui': NurseUi)
    ensures !ui'.isLoading
    // a failed patient query: only the loading flag and the error change
    ensures patients.Err? ==>
              && ui'.error == Some(if patients.error.Some? then patients.error.value else UnknownErrorMessage)
              && ui'.patients == ui.patients && ui'.summary == ui.summary
    // otherwise one card per patient, in the repository's order
    ensures patients.Ok? ==>
              var ps := patients.value;
              && ui'.error == None
              && |ui'.patients| == |ps|
              && (forall i :: 0 <= i < |ps| ==>
                    && ui'.patients[i].id == ps[i].id && ui'.patients[i].name == ps[i].name
                    && ui'.patients[i].lastVitals == CardVitalsString(Found(vitalsOf(ps[i].id)))
                    && ui'.patients[i].lastAlert == CardAlertString(ShownAlert(alertsOf(ps[i].id)), formatTime))
              && ui'.summary.totalPatients == |ps|
              && ui'.summary.alerts == CountAlertCards(ui'.patients)
  {
    var loading := ui.(isLoading := true, error := None);
    match patients
    case Err(message) =>
      loading.(isLoading := false, error := Some(match message case Some(m) => m case None => UnknownErrorMessage))
    case Ok(ps) =>
      var cards := seq(|ps|, i requires 0 <= i < |ps| => Card(ps[i], vitalsOf(ps[i].id), alertsOf(ps[i].id), formatTime));
      assert forall i :: 0 <= i < |ps| ==>
               cards[i].lastAlert == CardAlertString(ShownAlert(alertsOf(ps[i].id)), formatTime);
      loading.(isLoading := false, patients := cards, summary := Summary(|cards|, CountAlertCards(cards)))
  }

  /** How many of the patients have an alert to show. */
  function CountWithAlert(ps: seq<PatientProfile>, alertsOf: string -> Lookup<seq<StressAlert>>): (n: nat)
    ensures n <= |ps|
    decreases |ps|
  {
    if ps == [] then 0
    else (if ShownAlert(alertsOf(ps[0].id)).Some? then 1 else 0) + CountWithAlert(ps[1..], alertsOf)
  }

  /** The alert count in the summary is the number of patients with an alert,
      unless some shown alert's own message is "Sem novos alertas" and its time
      could not be formatted: such a card is indistinguishable from "no alert". */
  lemma {:induction false} AlertCountIsPatientsWithAlert(ps: seq<PatientProfile>,
                                                        vitalsOf: string -> Lookup<VitalReading>,
                                                        alertsOf: string -> Lookup<seq<StressAlert>>,
                                                        formatTime: int -> Option<string>)
    requires forall i :: 0 <= i < |ps| && ShownAlert(alertsOf(ps[i].id)).Some? ==>
               var a := ShownAlert(alertsOf(ps[i].id)).value;
               a.message != NoAlerts || formatTime(a.timestamp).Some?
    ensures var ui := Load(DefaultNurseUi, Ok(ps), vitalsOf, alertsOf, formatTime);
            ui.summary.alerts == CountWithAlert(ps, alertsOf)
    decreases |ps|
  {
    var ui := Load(DefaultNurseUi, Ok(ps), vitalsOf, alertsOf, formatTime);
    CardCountMatches(ps, ui.patients, alertsOf, formatTime);
  }

  lemma {:induction false} CardCountMatches(ps: seq<PatientProfile>, cards: seq<PatientCard>,
                                            alertsOf: string -> Lookup<seq<StressAlert>>,
                                            formatTime: int -> Option<string>)
    requires |cards| == |ps|
    requires forall i :: 0 <= i < |ps| ==> cards[i].lastAlert == CardAlertString(ShownAlert(alertsOf(ps[i].id)), formatTime)
    requires forall i :: 0 <= i < |ps| && ShownAlert(alertsOf(ps[i].id)).Some? ==>
               var a := ShownAlert(alertsOf(ps[i].id)).value;
               a.message != NoAlerts || formatTime(a.timestamp).Some?
    ensures CountAlertCards(cards) == CountWithAlert(ps, alertsOf)
    decreases |ps|
  {
    if ps != [] {
      AlertCardPlaceholder(ShownAlert(alertsOf(ps[0].id)), formatTime);
      CardCountMatches(ps[1..], cards[1..], alertsOf, formatTime);
    }
  }

  /** The witness that the caveat is real: a patient whose only alert says
      "Sem novos alertas" at a time the formatter rejects is not counted. */
  lemma MaskedAlertNotCounted(p: PatientProfile, a: StressAlert,
                              vitalsOf: string -> Lookup<VitalReading>,
                              alertsOf: string -> Lookup<seq<StressAlert>>,
                              formatTime: int -> Option<string>)
    requires alertsOf(p.id) == FirstEmission(Some([a])) && a.message == NoAlerts
    requires formatTime(a.timestamp).None?
    ensures Load(DefaultNurseUi, Ok([p]), vitalsOf, alertsOf, formatTime).summary.alerts == 0
    ensures CountWithAlert([p], alertsOf) == 1
  {
    assert ShownAlert(alertsOf(p.id)) == Some(a);
    var ui := Load(DefaultNurseUi, Ok([p]), vitalsOf, alertsOf, formatTime);
    assert ui.patients[0].lastAlert == NoAlerts;
    assert ui.patients[1..] == [];
  }
}
