/** The stress analyzer: a per-patient evaluator that smooths stress readings
    with a moving average and raises at most one alert per call, once the
    average has stayed at or above the high threshold for a minimum time and
    the cooldown since the previous alert has elapsed.

    The wall clock used for readings without a timestamp, and the random alert
    id, are parameters (`now`, `alertId`).

    Note on the analyzer's unit test: its first case feeds readings at 0, 500
    and 1500 ms and expects an alert at 1500. As written, the analyzer replaces
    the timestamp 0 by the wall clock, and `lastAlertTimestamp` starts at 0, so
    the cooldown gate refuses every alert whose timestamp is below `cooldownMs`
    (5000 in that test); see `FirstAlertAfterCooldown`. The test's expectation
    does not follow from the code. */
module StressAnalysis {
  import opened Common
  import opened DomainModel

  datatype StressThresholdConfig = StressThresholdConfig(
    thresholdHigh: int,
    minDurationMs: int,
    movingAverageWindow: int,
    cooldownMs: int)

  /** The defaults the app is wired with: 70, two minutes, three samples, five minutes. */
  const DefaultConfig := StressThresholdConfig(70, 2 * 60_000, 3, 5 * 60_000)

  /** One `(timestamp, stressLevel)` entry of the moving-average window. */
  datatype Sample = Sample(timestamp: int, stress: int)

  /** The analyzer's three fields. */
  datatype AnalyzerState = AnalyzerState(
    window: seq<Sample>,
    aboveThresholdSince: Option<int>,
    lastAlertTimestamp: int)

  /** A newly constructed analyzer: empty window, not tracking, last alert at 0. */
  const Fresh := AnalyzerState([], None, 0)

  /** What one call produced: nothing, an alert, or the exception that
      Kotlin's `ArrayDeque.removeFirst` throws when the window is already empty. */
  datatype Outcome = Quiet | Raised(alert: StressAlert) | Thrown(message: string)

  datatype Evaluation = Evaluation(state: AnalyzerState, outcome: Outcome)

  const EmptyDequeMessage := "ArrayDeque is empty."

  /** The reading's own timestamp when positive, otherwise the wall clock. */
  function Stamp(reading: VitalReading, now: int): int
  {
    if reading.timestamp > 0 then reading.timestamp else now
  }

  /** The eviction loop `while (size > movingAverageWindow) removeFirst()`.
      A negative window size drains the deque and then calls `removeFirst`
      on the empty deque, which throws. */
  function Evict(q: seq<Sample>, capacity: int): (r: Result<seq<Sample>, string>)
    ensures r.Err? <==> capacity < 0
    ensures r.Err? ==> r.error == EmptyDequeMessage
    ensures r.Ok? ==> |r.value| == Min(|q|, capacity) && r.value == q[|q| - |r.value|..]
    decreases |q|
  {
    if |q| > capacity then
      if q == [] then Err(EmptyDequeMessage) else Evict(q[1..], capacity)
    else Ok(q)
  }

  function SumStress(w: seq<Sample>): int
  {
    if w == [] then 0 else SumStress(w[..|w| - 1]) + w[|w| - 1].stress
  }

  /** `map { it.second }.average().toInt()`: the mean truncated toward zero;
      the mean of an empty window is NaN, which `toInt()` turns into 0. */
  function Average(w: seq<Sample>): (avg: int)
    ensures w == [] ==> avg == 0
    ensures w != [] && SumStress(w) >= 0 ==> avg * |w| <= SumStress(w) < (avg + 1) * |w|
    ensures w != [] && SumStress(w) < 0 ==> (avg - 1) * |w| < SumStress(w) <= avg * |w|
  {
    if w == [] then 0 else TruncDiv(SumStress(w), |w|)
  }

  /** `coerceIn(lo, hi)`. */
  function Clamp(x: int, lo: int, hi: int): (r: int)
    requires lo <= hi
    ensures lo <= r <= hi
    ensures lo <= x <= hi ==> r == x
    ensures x < lo ==> r == lo
    ensures x > hi ==> r == hi
  {
    if x < lo then lo else if x > hi then hi else x
  }

  function AlertMessage(patientName: string, severity: int): string
  {
    patientName + " est\U{221A}\U{B0} com stress elevado (" + IntToString(severity) + ")"
  }

  /** Start of the above-threshold period: the one already tracked, otherwise
      the oldest sample in the window (the current reading if the window is empty). */
  function TrackingStart(st: AnalyzerState, w: seq<Sample>, ts: int): int
  {
    match st.aboveThresholdSince
    case Some(since) => since
    case None => if w != [] then w[0].timestamp else ts
  }

  /** `StressAnalyzer.evaluate`, as a transition of the analyzer's state. */
  function Evaluate(cfg: StressThresholdConfig, st: AnalyzerState, reading: VitalReading,
                    patientId: string, patientName: string, now: int, alertId: string): (e: Evaluation)
    // a blank patient id is a no-op
    ensures IsBlank(patientId) ==> e == Evaluation(st, Quiet)
    // a negative window size empties the window and throws, touching nothing else
    ensures !IsBlank(patientId) && cfg.movingAverageWindow < 0 ==>
              e == Evaluation(st.(window := []), Thrown(EmptyDequeMessage))
    // otherwise the window is the newest `movingAverageWindow` samples, ending with this reading
    ensures !IsBlank(patientId) && cfg.movingAverageWindow >= 0 ==>
              var q := st.window + [Sample(Stamp(reading, now), reading.stressLevel)];
              var w := e.state.window;
              && !e.outcome.Thrown?
              && |w| == Min(|q|, cfg.movingAverageWindow)
              && w == q[|q| - |w|..]
    // a below-threshold average never alerts and cancels any tracked period
    ensures !IsBlank(patientId) && cfg.movingAverageWindow >= 0 &&
            Average(e.state.window) < cfg.thresholdHigh ==>
              && e.outcome == Quiet
              && e.state.aboveThresholdSince == None
              && e.state.lastAlertTimestamp == st.lastAlertTimestamp
    // at or above threshold: alert iff sustained long enough and out of cooldown
    ensures !IsBlank(patientId) && cfg.movingAverageWindow >= 0 &&
            Average(e.state.window) >= cfg.thresholdHigh ==>
              var ts := Stamp(reading, now);
              var since := TrackingStart(st, e.state.window, ts);
              && (e.outcome.Raised? <==>
                    ts - since >= cfg.minDurationMs && ts - st.lastAlertTimestamp >= cfg.cooldownMs)
              && (!e.outcome.Raised? ==> e.state.aboveThresholdSince == Some(since))
    // an emitted alert: its fields, and the state reset it causes
    ensures e.outcome.Raised? ==>
              var severity := Clamp(Average(e.state.window), 0, 100);
              && e.outcome.alert == StressAlert(alertId, patientId, Stamp(reading, now), severity,
                                                AlertMessage(patientName, severity), false)
              && e.state.lastAlertTimestamp == Stamp(reading, now)
              && e.state.aboveThresholdSince == None
    // the last-alert time moves only when an alert is emitted
    ensures !e.outcome.Raised? ==> e.state.lastAlertTimestamp == st.lastAlertTimestamp
  {
    if IsBlank(patientId) then Evaluation(st, Quiet)
    else
      var ts := Stamp(reading, now);
      match Evict(st.window + [Sample(ts, reading.stressLevel)], cfg.movingAverageWindow)
      case Err(msg) => Evaluation(st.(window := []), Thrown(msg))
      case Ok(w) =>
        var avg := Average(w);
        if avg >= cfg.thresholdHigh then
          var since := TrackingStart(st, w, ts);
          var sustainedMs := ts - since;
          var cooldownElapsed := ts - st.lastAlertTimestamp >= cfg.cooldownMs;
          if sustainedMs >= cfg.minDurationMs && cooldownElapsed then
            var severity := Clamp(avg, 0, 100);
            var alert := StressAlert(alertId, patientId, ts, severity,
                                     AlertMessage(patientName, severity), false);
            Evaluation(AnalyzerState(w, None, ts), Raised(alert))
          else
            Evaluation(AnalyzerState(w, Some(since), st.lastAlertTimestamp), Quiet)
        else
          Evaluation(AnalyzerState(w, None, st.lastAlertTimestamp), Quiet)
  }

  /** One call of `evaluate` with its arguments and the environment it sees. */
  datatype Call = Call(reading: VitalReading, patientId: string, patientName: string,
                       now: int, alertId: string)

  datatype Trace = Trace(state: AnalyzerState, alerts: seq<StressAlert>)

  function AlertsOf(o: Outcome): seq<StressAlert>
  {
    if o.Raised? then [o.alert] else []
  }

  /** Feeds the calls to one analyzer in order and collects the emitted alerts. */
  function Run(cfg: StressThresholdConfig, st: AnalyzerState, calls: seq<Call>): Trace
    decreases |calls|
  {
    if calls == [] then Trace(st, [])
    else
      var t := Run(cfg, st, calls[..|calls| - 1]);
      var c := calls[|calls| - 1];
      var e := Evaluate(cfg, t.state, c.reading, c.patientId, c.patientName, c.now, c.alertId);
      Trace(e.state, t.alerts + AlertsOf(e.outcome))
  }

  /** The cooldown gate of one call: an alert is stamped with the new
      last-alert time, which is at least `cooldownMs` past the previous one;
      without an alert the last-alert time stays. */
  lemma GateStep(cfg: StressThresholdConfig, st: AnalyzerState, c: Call)
    ensures var e := Evaluate(cfg, st, c.reading, c.patientId, c.patientName, c.now, c.alertId);
            && (e.outcome.Raised? ==>
                  && e.outcome.alert.timestamp == e.state.lastAlertTimestamp
                  && e.state.lastAlertTimestamp - st.lastAlertTimestamp >= cfg.cooldownMs)
            && (!e.outcome.Raised? ==> e.state.lastAlertTimestamp == st.lastAlertTimestamp)
  {
  }

  /** The effect of one more call on a trace, in terms of the gate alone. */
  lemma RunStep(cfg: StressThresholdConfig, st: AnalyzerState, calls: seq<Call>)
    requires calls != []
    ensures var t0 := Run(cfg, st, calls[..|calls| - 1]);
            var t := Run(cfg, st, calls);
            || (t.alerts == t0.alerts && t.state.lastAlertTimestamp == t0.state.lastAlertTimestamp)
            || (&& |t.alerts| == |t0.alerts| + 1
                && t.alerts[..|t0.alerts|] == t0.alerts
                && t.alerts[|t0.alerts|].timestamp == t.state.lastAlertTimestamp
                && t.state.lastAlertTimestamp - t0.state.lastAlertTimestamp >= cfg.cooldownMs)
  {
    var t0 := Run(cfg, st, calls[..|calls| - 1]);
    GateStep(cfg, t0.state, calls[|calls| - 1]);
  }

  /** Cooldown spacing across any sequence of calls: every alert comes at least
      `cooldownMs` after the analyzer's initial last-alert time or after the
      alert before it, and the last alert's time is the stored one. */
  lemma {:induction false} CooldownSpacing(cfg: StressThresholdConfig, st: AnalyzerState, calls: seq<Call>)
    ensures var t := Run(cfg, st, calls);
            && (t.alerts == [] ==> t.state.lastAlertTimestamp == st.lastAlertTimestamp)
            && (t.alerts != [] ==> t.alerts[|t.alerts| - 1].timestamp == t.state.lastAlertTimestamp)
            && (t.alerts != [] ==> t.alerts[0].timestamp - st.lastAlertTimestamp >= cfg.cooldownMs)
            && (forall i :: 0 <= i < |t.alerts| - 1 ==>
                  t.alerts[i + 1].timestamp - t.alerts[i].timestamp >= cfg.cooldownMs)
    decreases |calls|
  {
    if calls != [] {
      var prefix := calls[..|calls| - 1];
      CooldownSpacing(cfg, st, prefix);
      RunStep(cfg, st, calls);
    }
  }

  /** With a non-negative cooldown, any two alerts of one analyzer are at least
      `cooldownMs` apart, and none is later than the stored last-alert time. */
  lemma {:induction false} PairwiseCooldown(cfg: StressThresholdConfig, st: AnalyzerState, calls: seq<Call>)
    requires cfg.cooldownMs >= 0
    ensures var t := Run(cfg, st, calls);
            && st.lastAlertTimestamp <= t.state.lastAlertTimestamp
            && (forall i :: 0 <= i < |t.alerts| ==> t.alerts[i].timestamp <= t.state.lastAlertTimestamp)
            && (forall i, j :: 0 <= i < j < |t.alerts| ==>
                  t.alerts[j].timestamp - t.alerts[i].timestamp >= cfg.cooldownMs)
    decreases |calls|
  {
    if calls != [] {
      var prefix := calls[..|calls| - 1];
      PairwiseCooldown(cfg, st, prefix);
      RunStep(cfg, st, calls);
      var t0 := Run(cfg, st, prefix);
      var t := Run(cfg, st, calls);
      if |t.alerts| == |t0.alerts| + 1 {
        forall i | 0 <= i < |t0.alerts| ensures t.alerts[i] == t0.alerts[i] {
          assert t.alerts[..|t0.alerts|][i] == t.alerts[i];
        }
      }
    }
  }

  /** From a freshly constructed analyzer no alert can carry a timestamp below
      `cooldownMs`, because the last-alert time starts at 0. */
  lemma FirstAlertAfterCooldown(cfg: StressThresholdConfig, calls: seq<Call>)
    requires cfg.cooldownMs >= 0
    ensures forall a :: a in Run(cfg, Fresh, calls).alerts ==> a.timestamp >= cfg.cooldownMs
  {
    PairwiseCooldown(cfg, Fresh, calls);
    CooldownSpacing(cfg, Fresh, calls);
    var t := Run(cfg, Fresh, calls);
    forall a | a in t.alerts ensures a.timestamp >= cfg.cooldownMs {
      var i :| 0 <= i < |t.alerts| && t.alerts[i] == a;
      if i > 0 {
        assert t.alerts[i].timestamp - t.alerts[0].timestamp >= cfg.cooldownMs;
      }
    }
  }
  predicate AllBelow(w: seq<Sample>, threshold: int)
  {
    forall i :: 0 <= i < |w| ==> w[i].stress < threshold
  }

  lemma {:induction false} SumBelow(w: seq<Sample>, threshold: int)
    requires AllBelow(w, threshold)
    ensures SumStress(w) <= |w| * (threshold - 1)
    decreases |w|
  {
    if w != [] {
      SumBelow(w[..|w| - 1], threshold);
    }
  }

  /** The truncated mean of values that are all below the threshold is below it. */
  lemma AverageBelow(w: seq<Sample>, threshold: int)
    requires w != [] && AllBelow(w, threshold)
    ensures Average(w) < threshold
  {
    SumBelow(w, threshold);
  }

  /** A stream whose readings all stay below the threshold, fed to an analyzer
      whose window holds only such readings, never raises an alert. The window
      size must be positive: an empty window averages to 0, which a threshold
      of 0 or less would accept. */
  lemma {:induction false} LowStreamNeverAlerts(cfg: StressThresholdConfig, st: AnalyzerState, calls: seq<Call>)
    requires cfg.movingAverageWindow >= 1
    requires AllBelow(st.window, cfg.thresholdHigh)
    requires forall i :: 0 <= i < |calls| ==> calls[i].reading.stressLevel < cfg.thresholdHigh
    ensures Run(cfg, st, calls).alerts == []
    ensures AllBelow(Run(cfg, st, calls).state.window, cfg.thresholdHigh)
    decreases |calls|
  {
    if calls != [] {
      var prefix := calls[..|calls| - 1];
      LowStreamNeverAlerts(cfg, st, prefix);
      var t0 := Run(cfg, st, prefix);
      LowCallQuiet(cfg, t0.state, calls[|calls| - 1]);
    }
  }

  /** One below-threshold reading on a below-threshold window: no alert, and
      the window stays below the threshold. */
  lemma LowCallQuiet(cfg: StressThresholdConfig, st: AnalyzerState, c: Call)
    requires cfg.movingAverageWindow >= 1
    requires AllBelow(st.window, cfg.thresholdHigh)
    requires c.reading.stressLevel < cfg.thresholdHigh
    ensures var e := Evaluate(cfg, st, c.reading, c.patientId, c.patientName, c.now, c.alertId);
            && AlertsOf(e.outcome) == []
            && AllBelow(e.state.window, cfg.thresholdHigh)
  {
    var e := Evaluate(cfg, st, c.reading, c.patientId, c.patientName, c.now, c.alertId);
    if !IsBlank(c.patientId) {
      var q := st.window + [Sample(Stamp(c.reading, c.now), c.reading.stressLevel)];
      assert AllBelow(q, cfg.thresholdHigh);
      var w := e.state.window;
      assert w != [] && w == q[|q| - |w|..];
      SuffixBelow(q, |q| - |w|, cfg.thresholdHigh);
      AverageBelow(w, cfg.thresholdHigh);
      assert e.outcome == Quiet;
    }
  }

  lemma SuffixBelow(q: seq<Sample>, k: nat, threshold: int)
    requires k <= |q| && AllBelow(q, threshold)
    ensures AllBelow(q[k..], threshold)
  {
    forall i | 0 <= i < |q| - k ensures q[k..][i].stress < threshold {
      assert q[k..][i] == q[k + i];
    }
  }

  /** On a fresh analyzer the first reading starts the tracked period at its
      own timestamp, so it cannot alert when `minDurationMs` is positive; with
      a positive window size its average is the reading's own stress level. */
  lemma ColdStart(cfg: StressThresholdConfig, reading: VitalReading, patientId: string,
                  patientName: string, now: int, alertId: string)
    requires !IsBlank(patientId) && cfg.movingAverageWindow >= 0
    ensures var e := Evaluate(cfg, Fresh, reading, patientId, patientName, now, alertId);
            && (cfg.minDurationMs > 0 ==> !e.outcome.Raised?)
            && (cfg.movingAverageWindow >= 1 ==> Average(e.state.window) == reading.stressLevel)
            && (Average(e.state.window) >= cfg.thresholdHigh && !e.outcome.Raised? ==>
                  e.state.aboveThresholdSince == Some(Stamp(reading, now)))
  {
    var e := Evaluate(cfg, Fresh, reading, patientId, patientName, now, alertId);
    if cfg.movingAverageWindow >= 1 {
      assert e.state.window == [Sample(Stamp(reading, now), reading.stressLevel)];
      assert SumStress(e.state.window) == reading.stressLevel;
    }
  }
}

/** The analyzer as the app holds it: one mutable object whose three fields
    evolve by `StressAnalysis.Evaluate`. The ghost history of emitted alerts
    carries the cooldown invariant from call to call. */
module StressAnalyzerObject {
  import opened Common
  import opened DomainModel
  import StressAnalysis

  class StressAnalyzer {
    const config: StressAnalysis.StressThresholdConfig
    var state: StressAnalysis.AnalyzerState
    ghost var emitted: seq<StressAlert>

    ghost predicate Valid()
      reads this
    {
      && (emitted == [] ==> state.lastAlertTimestamp == 0)
      && (emitted != [] ==> emitted[|emitted| - 1].timestamp == state.lastAlertTimestamp)
      && (emitted != [] ==> emitted[0].timestamp >= config.cooldownMs)
      && (forall i :: 0 <= i < |emitted| - 1 ==>
            emitted[i + 1].timestamp - emitted[i].timestamp >= config.cooldownMs)
      && (config.movingAverageWindow >= 0 ==> |state.window| <= config.movingAverageWindow)
    }

    constructor(config: StressAnalysis.StressThresholdConfig)
      ensures Valid()
      ensures this.config == config && state == StressAnalysis.Fresh && emitted == []
    {
      this.config := config;
      state := StressAnalysis.Fresh;
      emitted := [];
    }

    method Evaluate(reading: VitalReading, patientId: string, patientName: string,
                    now: int, alertId: string) returns (outcome: StressAnalysis.Outcome)
      requires Valid()
      modifies this
      ensures Valid()
      ensures StressAnalysis.Evaluation(state, outcome)
              == StressAnalysis.Evaluate(config, old(state), reading, patientId, patientName, now, alertId)
      ensures emitted == old(emitted) + StressAnalysis.AlertsOf(outcome)
    {
      var e := StressAnalysis.Evaluate(config, state, reading, patientId, patientName, now, alertId);
      state := e.state;
      outcome := e.outcome;
      emitted := emitted + StressAnalysis.AlertsOf(outcome);
    }
  }
}
