/** The watching loop's decision: given the event log and a new observation,
    whether an event is appended and with which `notification_sent` flag. */
module Watch {
  import opened Schema
  import Classifier
  import Navigator

  /** The most recent event (the log is kept in timestamp order). */
  function Latest(log: seq<Event>): Option<Event> {
    if log == [] then None else Some(log[|log| - 1])
  }

  /** Appends an event only on a change of availability, or for the very
      first observation.  The new event's `notification_sent` is "the new flag
      equals the previous one", with `false` standing in for the previous
      flag of an empty log: a first observation of "no appointments" is
      recorded as already notified, a first "available" is queued, and every
      later event is queued. */
  function Observe(log: seq<Event>, have: bool, now: int): (r: seq<Event>)
    ensures log == [] ==> r == [Event(now, have, !have)]
    ensures log != [] && have != log[|log| - 1].haveAppointments ==> r == log + [Event(now, have, false)]
    ensures log != [] && have == log[|log| - 1].haveAppointments ==> r == log
  {
    var latest := Latest(log);
    var previous := if latest.None? then false else latest.value.haveAppointments;
    if latest.None? || have != previous then log + [Event(now, have, have == previous)]
    else log
  }

  /** Consecutive events disagree on availability. */
  predicate Alternating(log: seq<Event>) {
    forall i :: 0 < i < |log| ==> log[i].haveAppointments != log[i - 1].haveAppointments
  }

  /** One observation preserves the log's invariants, provided the clock has
      moved past the latest event. */
  lemma ObserveKeepsInvariants(log: seq<Event>, have: bool, now: int)
    requires Alternating(log) && Chronological(log)
    requires log != [] ==> log[|log| - 1].timestamp < now
    ensures var r := Observe(log, have, now);
            && Alternating(r) && Chronological(r)
            && r != [] && r[|r| - 1].timestamp <= now
  {
  }

  /** An observation made by one watching tick: the flag and the clock reading. */
  datatype Observation = Observation(have: bool, at: int)

  /** The log after a run of successful watching ticks. */
  function WatchAll(log: seq<Event>, obs: seq<Observation>): seq<Event>
    decreases |obs|
  {
    if obs == [] then log
    else
      var last := obs[|obs| - 1];
      Observe(WatchAll(log, obs[..|obs| - 1]), last.have, last.at)
  }

  /** The number of changes of availability along a run of observations. */
  function Changes(obs: seq<Observation>): nat
    decreases |obs|
  {
    if |obs| <= 1 then 0
    else Changes(obs[..|obs| - 1]) + (if obs[|obs| - 1].have != obs[|obs| - 2].have then 1 else 0)
  }

  predicate Increasing(obs: seq<Observation>) {
    forall i, j :: 0 <= i < j < |obs| ==> obs[i].at < obs[j].at
  }

  /** Every event after the first is queued for notification. */
  predicate Queued(log: seq<Event>) {
    forall i :: 0 < i < |log| ==> !log[i].notificationSent
  }

  /** Starting from an empty log: one event for the first observation, with
      `notification_sent` set exactly when it saw no appointments, then one
      queued event per change of availability, the last one carrying the
      latest observation's flag. */
  lemma {:induction false} WatchShape(obs: seq<Observation>)
    requires obs != []
    ensures var log := WatchAll([], obs);
            && |log| == 1 + Changes(obs)
            && log[0] == Event(obs[0].at, obs[0].have, !obs[0].have)
            && Queued(log)
            && log[|log| - 1].haveAppointments == obs[|obs| - 1].have
    decreases |obs|
  {
    if |obs| == 1 {
      assert obs[..0] == [];
    } else {
      var init := obs[..|obs| - 1];
      WatchShape(init);
      var before := WatchAll([], init);
      var last := obs[|obs| - 1];
      assert init[|init| - 1] == obs[|obs| - 2];
      assert init[0] == obs[0];
      var after := WatchAll([], obs);
      assert after == Observe(before, last.have, last.at);
      if last.have != obs[|obs| - 2].have {
        assert after == before + [Event(last.at, last.have, false)];
        assert after[0] == before[0];
        forall i | 0 < i < |after| ensures !after[i].notificationSent {
          if i < |before| {
            assert after[i] == before[i];
          }
        }
      }
    }
  }

  /** Starting from an empty log, observations made at increasing times give
      an alternating, chronological log whose latest event is no later than
      the latest observation. */
  lemma {:induction false} WatchOrdered(obs: seq<Observation>)
    requires obs != [] && Increasing(obs)
    ensures var log := WatchAll([], obs);
            && log != [] && Alternating(log) && Chronological(log)
            && log[|log| - 1].timestamp <= obs[|obs| - 1].at
    decreases |obs|
  {
    var init := obs[..|obs| - 1];
    var last := obs[|obs| - 1];
    if |obs| == 1 {
      assert init == [];
      ObserveKeepsInvariants([], last.have, last.at);
    } else {
      assert Increasing(init) && init[|init| - 1].at < last.at by {
        assert init[|init| - 1] == obs[|obs| - 2];
      }
      WatchOrdered(init);
      ObserveKeepsInvariants(WatchAll([], init), last.have, last.at);
    }
  }

  /** Starting from an empty log: the first event records the first
      observation with `notification_sent` set exactly when it saw no
      appointments; every later event is one change of availability and is
      queued for notification; the log alternates and ends with the latest
      observation's flag. */
  lemma WatchFromEmpty(obs: seq<Observation>)
    requires obs != [] && Increasing(obs)
    ensures var log := WatchAll([], obs);
            && |log| == 1 + Changes(obs)
            && log[0] == Event(obs[0].at, obs[0].have, !obs[0].have)
            && (forall i :: 0 < i < |log| ==> !log[i].notificationSent)
            && Alternating(log) && Chronological(log)
            && log[|log| - 1].haveAppointments == obs[|obs| - 1].have
            && log[|log| - 1].timestamp <= obs[|obs| - 1].at
  {
    WatchShape(obs);
    WatchOrdered(obs);
  }

  /** The watching tick as a whole: walk the site, classify, observe.  An
      exception leaves the tables as they were. */
  function WatchTick(t: Tables, site: Navigator.Request -> Navigator.Fetched, now: int): TickOutcome {
    match Navigator.Navigate(site).result
    case Raise(e) => Raised(e, t)
    case Ok(response) =>
      Completed(t.(events := Observe(t.events, Classifier.HaveAppointments(response), now)))
  }
}
