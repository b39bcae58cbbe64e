/** The stress-alert handler: it shows a notification for each alert (a
    notifier failure is swallowed) and publishes the most recent alert until
    it is cleared. The notifier is outside the model; only whether it
    succeeded or threw is a parameter. */
module StressAlertHandling {
  import opened Common
  import opened DomainModel

  /** What the platform notifier did with one alert. */
  datatype NotifierOutcome = Shown | NotifierThrew(message: string)

  /** The handler's observable state: the `latestAlert` flow's current value. */
  datatype HandlerState = HandlerState(latestAlert: Option<StressAlert>)

  const Initial := HandlerState(None)

  /** `handle`: notify, swallow any notifier exception, publish the alert. */
  function Handle(h: HandlerState, alert: StressAlert, notifier: NotifierOutcome): (h': HandlerState)
    ensures h'.latestAlert == Some(alert)
  {
    match notifier
    case Shown => HandlerState(Some(alert))
    case NotifierThrew(_) => HandlerState(Some(alert))
  }

  /** `clear`: nothing is published any more. */
  function Clear(h: HandlerState): (h': HandlerState)
    ensures h'.latestAlert == None
  {
    HandlerState(None)
  }

  /** A failing notifier is indistinguishable from a working one. */
  lemma NotifierFailureSwallowed(h: HandlerState, alert: StressAlert, message: string)
    ensures Handle(h, alert, NotifierThrew(message)) == Handle(h, alert, Shown)
  {
  }

  /** Something the handler is asked to do. */
  datatype HandlerEvent = Handled(alert: StressAlert, notifier: NotifierOutcome) | Cleared

  function Apply(h: HandlerState, events: seq<HandlerEvent>): HandlerState
    decreases |events|
  {
    if events == [] then h
    else
      var h' := match events[0]
        case Handled(a, n) => Handle(h, a, n)
        case Cleared => Clear(h);
      Apply(h', events[1..])
  }

  /** The reference reading of the handler: the published alert is the last
      one handled after the last clear, if any; with neither, the start value. */
  function LastPublished(start: Option<StressAlert>, events: seq<HandlerEvent>): Option<StressAlert>
    decreases |events|
  {
    if events == [] then start
    else
      match events[|events| - 1]
      case Handled(a, _) => Some(a)
      case Cleared => None
  }

  /** Folding the events through the handler publishes exactly the reference value. */
  lemma {:induction false} ApplyPublishesLast(h: HandlerState, events: seq<HandlerEvent>)
    ensures Apply(h, events).latestAlert == LastPublished(h.latestAlert, events)
    decreases |events|
  {
    if events != [] {
      var h' := match events[0]
        case Handled(a, n) => Handle(h, a, n)
        case Cleared => Clear(h);
      ApplyPublishesLast(h', events[1..]);
      if |events| > 1 {
        assert events[1..][|events[1..]| - 1] == events[|events| - 1];
      }
    }
  }
}

/** The handler as the app holds it: one object whose `latestAlert` field is
    driven by the pure transitions above. */
module StressAlertHandlerObject {
  import opened Common
  import opened DomainModel
  import StressAlertHandling

  class StressAlertHandler {
    var latestAlert: Option<StressAlert>

    constructor()
      ensures latestAlert == None
    {
      latestAlert := None;
    }

    /** Publishes the alert whatever the notifier did. */
    method Handle(alert: StressAlert, notifier: StressAlertHandling.NotifierOutcome)
      modifies this
      ensures latestAlert == Some(alert)
      ensures StressAlertHandling.HandlerState(latestAlert)
              == StressAlertHandling.Handle(StressAlertHandling.HandlerState(old(latestAlert)), alert, notifier)
    {
      latestAlert := StressAlertHandling.Handle(StressAlertHandling.HandlerState(latestAlert), alert, notifier).latestAlert;
    }

    method Clear()
      modifies this
      ensures latestAlert == None
    {
      latestAlert := None;
    }
  }
}
