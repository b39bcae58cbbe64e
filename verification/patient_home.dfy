/** The patient home screen's state holder: it shows the latest vital reading
    and its stress level, feeds each reading to the stress analyzer, routes
    raised alerts to the alert handler (whose latest alert drives the alert
    dialog) and to the back end, and tracks Health Connect availability.
    Each coroutine body is modelled as one atomic transition of the screen's
    state; the clock, alert ids, the signed-in user, the notifier and the
    Health Connect probe are parameters of the events. */
module PatientHome {
  import opened Common
  import opened DomainModel
  import StressAnalysis
  import StressAlertHandling
  import HealthConnect

  datatype StressLevel = Calm | Elevated | High

  /** The level's label on screen. */
  function Label(l: StressLevel): string
  {
    match l
    case Calm => "Calmo"
    case Elevated => "Elevado"
    case High => "Alto"
  }

  /** The stress gauge: 0..40 calm, 41..70 elevated, anything else (including
      a negative value) high. */
  function Classify(stress: int): (l: StressLevel)
    ensures l == Calm <==> 0 <= stress <= 40
    ensures l == Elevated <==> 41 <= stress <= 70
    ensures l == High <==> stress < 0 || 70 < stress
  {
    if 0 <= stress <= 40 then Calm
    else if 41 <= stress <= 70 then Elevated
    else High
  }

  function Rank(l: StressLevel): int
  {
    match l
    case Calm => 0
    case Elevated => 1
    case High => 2
  }

  /** On non-negative stress values the gauge never goes down as stress goes up. */
  lemma ClassifyMonotone(a: int, b: int)
    requires 0 <= a <= b
    ensures Rank(Classify(a)) <= Rank(Classify(b))
  {
  }

  /** The gauge agrees with the analyzer's default threshold: a value the
      analyzer treats as high stress (at least 70) is shown as elevated or high,
      and only 70 itself is shown as merely elevated. */
  lemma ClassifyAgreesWithThreshold(stress: int)
    requires stress >= StressAnalysis.DefaultConfig.thresholdHigh
    ensures Classify(stress) != Calm
    ensures Classify(stress) == Elevated <==> stress == 70
  {
  }

  /** The stress-alert dialog. */
  datatype DialogState = DialogState(alertId: string, message: string, severity: int, visible: bool)

  const Hidden := DialogState("", "", 0, false)

  /** The dialog that presents `a`. */
  function DialogOf(a: StressAlert): DialogState
  {
    DialogState(a.id, a.message, a.severity, true)
  }

  /** `PatientHomeUiState`. */
  datatype UiState = UiState(
    isLoading: bool,
    error: Option<string>,
    patientName: string,
    vitals: Option<VitalReading>,
    stressLevel: StressLevel,
    availability: Option<HealthConnect.Availability>,
    isCheckingHealthConnect: bool,
    healthConnectMessage: Option<string>,
    dialog: DialogState)

  const DefaultUi := UiState(false, None, "Patient", None, Calm, None, false, None, Hidden)

  const PermissionsMissingMessage :=
    "As permiss\U{F5}es do Health Connect s\U{E3}o necess\U{E1}rias para sincronizar os dados."
  const AvailabilityFailedMessage :=
    "N\U{E3}o foi poss\U{ED}vel verificar o estado do Health Connect."

  /** The screen's whole state: what it shows, the analyzer's and the handler's
      state, the signed-in user, whether the vitals stream is still being
      collected, and every alert handed to the back end so far (a failing
      back-end call is only logged, so each attempt is simply recorded). */
  datatype Home = Home(
    ui: UiState,
    analyzer: StressAnalysis.AnalyzerState,
    handler: StressAlertHandling.HandlerState,
    user: Option<AppUser>,
    collecting: bool,
    backendAlerts: seq<StressAlert>)

  const InitialHome := Home(DefaultUi, StressAnalysis.Fresh, StressAlertHandling.Initial, None, false, [])

  /** What one Health Connect availability check returned: the SDK status and
      the granted permissions, or an exception with its localized message. */
  datatype Probe = Probed(sdkStatus: int, granted: set<HealthConnect.Permission>) | ProbeFailed(localizedMessage: Option<string>)

  /** The start of `observeVitals`: loading, the user's name if someone is
      signed in, and the vitals stream being collected. */
  function StartObservingVitals(h: Home, user: Option<AppUser>): (h': Home)
    ensures h'.ui.isLoading && h'.collecting && h'.user == user
    ensures h'.ui.patientName == (if user.Some? then user.value.name else h.ui.patientName)
    ensures h'.ui.(isLoading := h.ui.isLoading, patientName := h.ui.patientName) == h.ui
    ensures h'.analyzer == h.analyzer && h'.handler == h.handler && h'.backendAlerts == h.backendAlerts
  {
    var ui := h.ui.(isLoading := true);
    var ui := if user.Some? then ui.(patientName := user.value.name) else ui;
    h.(ui := ui, user := user, collecting := true)
  }

  /** One reading from the vitals stream: show it, then, when a user is signed
      in, run the analyzer; a raised alert goes to the handler (and so to the
      dialog) and to the back end; an exception from the analyzer ends the
      collection with its message as the screen's error. */
  function OnReading(cfg: StressAnalysis.StressThresholdConfig, h: Home, reading: VitalReading,
                     now: int, alertId: string, notifier: StressAlertHandling.NotifierOutcome): (h': Home)
    // nothing arrives once collection has stopped
    ensures !h.collecting ==> h' == h
    // the reading is always shown first
    ensures h.collecting ==>
              && h'.ui.vitals == Some(reading)
              && h'.ui.stressLevel == Classify(reading.stressLevel)
              && !h'.ui.isLoading
              && h'.ui.patientName == h.ui.patientName
              && h'.user == h.user
    // with nobody signed in the analyzer is not consulted
    ensures h.collecting && h.user.None? ==>
              h'.analyzer == h.analyzer && h'.handler == h.handler && h'.ui.dialog == h.ui.dialog
              && h'.backendAlerts == h.backendAlerts && h'.collecting
    ensures h.collecting && h.user.Some? ==>
              var e := StressAnalysis.Evaluate(cfg, h.analyzer, reading, h.user.value.id, h.user.value.name, now, alertId);
              && h'.analyzer == e.state
              // an alert reaches the handler, the dialog and the back end
              && (e.outcome.Raised? ==>
                    && h'.handler.latestAlert == Some(e.outcome.alert)
                    && h'.ui.dialog == DialogOf(e.outcome.alert)
                    && h'.backendAlerts == h.backendAlerts + [e.outcome.alert]
                    && h'.collecting && h'.ui.error == h.ui.error)
              // no alert: handler, dialog and back end untouched
              && (!e.outcome.Raised? ==>
                    h'.handler == h.handler && h'.ui.dialog == h.ui.dialog && h'.backendAlerts == h.backendAlerts)
              && (e.outcome.Quiet? ==> h'.collecting && h'.ui.error == h.ui.error)
              // an analyzer exception ends the collection with its message
              && (e.outcome.Thrown? ==> !h'.collecting && h'.ui.error == Some(e.outcome.message))
  {
    if !h.collecting then h
    else
      var ui := h.ui.(isLoading := false, vitals := Some(reading), stressLevel := Classify(reading.stressLevel));
      match h.user
      case None => h.(ui := ui)
      case Some(u) =>
        var e := StressAnalysis.Evaluate(cfg, h.analyzer, reading, u.id, u.name, now, alertId);
        match e.outcome
        case Quiet => h.(ui := ui, analyzer := e.state)
        case Raised(alert) =>
          h.(ui := ui.(dialog := DialogOf(alert)),
             analyzer := e.state,
             handler := StressAlertHandling.Handle(h.handler, alert, notifier),
             backendAlerts := h.backendAlerts + [alert])
        case Thrown(message) =>
          h.(ui := ui.(isLoading := false, error := Some(message)), analyzer := e.state, collecting := false)
  }

  /** The vitals stream itself failed: the error is shown and collection ends. */
  function OnVitalsStreamError(h: Home, message: Option<string>): (h': Home)
    ensures !h.collecting ==> h' == h
    ensures h.collecting ==>
              && !h'.collecting && !h'.ui.isLoading
              && h'.ui.error == Some(if message.Some? then message.value else UnknownErrorMessage)
              && h'.ui.(isLoading := h.ui.isLoading, error := h.ui.error) == h.ui
              && h'.(ui := h.ui, collecting := h.collecting) == h
  {
    if !h.collecting then h
    else
      var text := match message case Some(m) => m case None => UnknownErrorMessage;
      h.(ui := h.ui.(isLoading := false, error := Some(text)), collecting := false)
  }

  /** `dismissStressDialog`: clear the handler and hide the dialog. */
  function Dismiss(h: Home): (h': Home)
    ensures h'.handler.latestAlert == None && h'.ui.dialog == Hidden
    ensures h'.ui.(dialog := h.ui.dialog) == h.ui
    ensures h'.(ui := h.ui, handler := h.handler) == h
  {
    h.(handler := StressAlertHandling.Clear(h.handler), ui := h.ui.(dialog := Hidden))
  }

  /** `startBreathingExercise` has no flow of its own yet: it dismisses the dialog. */
  function StartBreathingExercise(h: Home): (h': Home)
    ensures h'.handler.latestAlert == None && h'.ui.dialog == Hidden
    ensures h'.ui.(dialog := h.ui.dialog) == h.ui
    ensures h'.(ui := h.ui, handler := h.handler) == h
  {
    Dismiss(h)
  }

  /** `loadHealthConnectAvailability` as a whole: the check ends either with
      the availability the manager computes or with no availability and the
      failure's message. */
  function LoadAvailability(ui: UiState, probe: Probe): (ui': UiState)
    ensures !ui'.isCheckingHealthConnect
    ensures probe.Probed? ==>
              && ui'.availability == Some(HealthConnect.GetAvailability(probe.sdkStatus, probe.granted))
              && ui'.healthConnectMessage == ui.healthConnectMessage
    ensures probe.ProbeFailed? ==>
              && ui'.availability == None
              && ui'.healthConnectMessage ==
                   Some(if probe.localizedMessage.Some? then probe.localizedMessage.value else AvailabilityFailedMessage)
    ensures ui'.(availability := ui.availability, isCheckingHealthConnect := ui.isCheckingHealthConnect,
                 healthConnectMessage := ui.healthConnectMessage) == ui
  {
    var checking := ui.(isCheckingHealthConnect := true);
    match probe
    case Probed(status, granted) =>
      checking.(availability := Some(HealthConnect.GetAvailability(status, granted)), isCheckingHealthConnect := false)
    case ProbeFailed(m) =>
      var text := match m case Some(t) => t case None => AvailabilityFailedMessage;
      checking.(isCheckingHealthConnect := false, availability := None, healthConnectMessage := Some(text))
  }

  /** `onHealthPermissionsResult`: complain unless every requested permission
      (the optional HRV one included) was granted, then re-check availability. */
  function OnHealthPermissionsResult(ui: UiState, granted: set<HealthConnect.Permission>, probe: Probe): (ui': UiState)
    ensures !ui'.isCheckingHealthConnect
    ensures probe.Probed? ==>
              (ui'.healthConnectMessage == None <==> HealthConnect.Permissions <= granted)
              && (ui'.healthConnectMessage != None ==> ui'.healthConnectMessage == Some(PermissionsMissingMessage))
    ensures probe.ProbeFailed? ==> ui'.availability == None && ui'.healthConnectMessage.Some?
  {
    var hasAll := HealthConnect.Permissions <= granted;
    LoadAvailability(ui.(healthConnectMessage := if hasAll then None else Some(PermissionsMissingMessage)), probe)
  }

  /** Something that happens to the screen. */
  datatype Event =
    | VitalsStarted(user: Option<AppUser>)
    | ReadingArrived(reading: VitalReading, now: int, alertId: string, notifier: StressAlertHandling.NotifierOutcome)
    | StreamFailed(message: Option<string>)
    | DialogDismissed
    | BreathingExerciseStarted
    | PermissionsResult(granted: set<HealthConnect.Permission>, probe: Probe)
    | AvailabilityRefreshed(probe: Probe)

  function Step(cfg: StressAnalysis.StressThresholdConfig, h: Home, ev: Event): Home
  {
    match ev
    case VitalsStarted(user) => StartObservingVitals(h, user)
    case ReadingArrived(reading, now, alertId, notifier) => OnReading(cfg, h, reading, now, alertId, notifier)
    case StreamFailed(message) => OnVitalsStreamError(h, message)
    case DialogDismissed => Dismiss(h)
    case BreathingExerciseStarted => StartBreathingExercise(h)
    case PermissionsResult(granted, probe) => h.(ui := OnHealthPermissionsResult(h.ui, granted, probe))
    case AvailabilityRefreshed(probe) => h.(ui := LoadAvailability(h.ui, probe))
  }

  function RunEvents(cfg: StressAnalysis.StressThresholdConfig, h: Home, events: seq<Event>): Home
    decreases |events|
  {
    if events == [] then h else RunEvents(cfg, Step(cfg, h, events[0]), events[1..])
  }

  /** What the screen keeps true at every point: the dialog shows exactly the
      handler's latest alert (or is hidden when there is none), and the alerts
      sent to the back end are spaced by at least the cooldown, the newest one
      being the analyzer's last-alert time. */
  ghost predicate Consistent(cfg: StressAnalysis.StressThresholdConfig, h: Home)
  {
    && (h.handler.latestAlert.None? ==> h.ui.dialog == Hidden)
    && (h.handler.latestAlert.Some? ==> h.ui.dialog == DialogOf(h.handler.latestAlert.value))
    && (h.backendAlerts == [] ==> h.analyzer.lastAlertTimestamp == 0)
    && (h.backendAlerts != [] ==>
          h.backendAlerts[|h.backendAlerts| - 1].timestamp == h.analyzer.lastAlertTimestamp)
    && (forall i :: 0 <= i < |h.backendAlerts| - 1 ==>
          h.backendAlerts[i + 1].timestamp - h.backendAlerts[i].timestamp >= cfg.cooldownMs)
  }

  lemma InitialConsistent(cfg: StressAnalysis.StressThresholdConfig)
    ensures Consistent(cfg, InitialHome)
  {
  }

  lemma {:induction false} StepConsistent(cfg: StressAnalysis.StressThresholdConfig, h: Home, ev: Event)
    requires Consistent(cfg, h)
    ensures Consistent(cfg, Step(cfg, h, ev))
  {
    match ev
    case ReadingArrived(reading, now, alertId, notifier) =>
      ReadingConsistent(cfg, h, reading, now, alertId, notifier);
    case _ =>
  }

  lemma ReadingConsistent(cfg: StressAnalysis.StressThresholdConfig, h: Home, reading: VitalReading,
                          now: int, alertId: string, notifier: StressAlertHandling.NotifierOutcome)
    requires Consistent(cfg, h)
    ensures Consistent(cfg, OnReading(cfg, h, reading, now, alertId, notifier))
  {
    if h.collecting && h.user.Some? {
      var e := StressAnalysis.Evaluate(cfg, h.analyzer, reading, h.user.value.id, h.user.value.name, now, alertId);
      StressAnalysis.GateStep(cfg, h.analyzer, StressAnalysis.Call(reading, h.user.value.id, h.user.value.name, now, alertId));
      var h' := OnReading(cfg, h, reading, now, alertId, notifier);
      if e.outcome.Raised? {
        AppendSpaced(cfg, h.backendAlerts, e.outcome.alert, h.analyzer.lastAlertTimestamp);
        assert h'.backendAlerts == h.backendAlerts + [e.outcome.alert];
        assert h'.ui.dialog == DialogOf(h'.handler.latestAlert.value);
      } else {
        assert h'.handler == h.handler && h'.ui.dialog == h.ui.dialog && h'.backendAlerts == h.backendAlerts;
      }
    }
  }

  /** Appending an alert at least the cooldown after the newest one keeps the
      back-end alerts spaced. */
  lemma AppendSpaced(cfg: StressAnalysis.StressThresholdConfig, alerts: seq<StressAlert>, a: StressAlert, last: int)
    requires alerts != [] ==> alerts[|alerts| - 1].timestamp == last
    requires forall i :: 0 <= i < |alerts| - 1 ==> alerts[i + 1].timestamp - alerts[i].timestamp >= cfg.cooldownMs
    requires a.timestamp - last >= cfg.cooldownMs
    ensures var b := alerts + [a];
            forall i :: 0 <= i < |b| - 1 ==> b[i + 1].timestamp - b[i].timestamp >= cfg.cooldownMs
  {
    var b := alerts + [a];
    assert forall i :: 0 <= i < |alerts| ==> b[i] == alerts[i];
  }

  /** Along any sequence of events, starting from a newly created screen, the
      dialog mirrors the handler and the back end never receives two alerts
      closer together than the cooldown. */
  lemma {:induction false} RunConsistent(cfg: StressAnalysis.StressThresholdConfig, h: Home, events: seq<Event>)
    requires Consistent(cfg, h)
    ensures Consistent(cfg, RunEvents(cfg, h, events))
    decreases |events|
  {
    if events != [] {
      StepConsistent(cfg, h, events[0]);
      RunConsistent(cfg, Step(cfg, h, events[0]), events[1..]);
    }
  }
}
