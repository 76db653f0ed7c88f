/** The notification tick: take one event not yet notified, send its text to
    every subscribed user, drop the users the channel reports as
    Unauthorized, and mark the event notified. */
module Notify {
  import opened Schema
  import opened Delivery
  import Watch

  /** The first event (in table order) whose notification is not sent yet. */
  function FirstUnsent(events: seq<Event>): (r: Option<nat>)
    ensures r.None? <==> forall i :: 0 <= i < |events| ==> events[i].notificationSent
    ensures r.Some? ==> r.value < |events| && !events[r.value].notificationSent
    ensures r.Some? ==> forall i :: 0 <= i < r.value ==> events[i].notificationSent
    decreases |events|
  {
    if events == [] then None
    else if !events[0].notificationSent then Some(0)
    else match FirstUnsent(events[1..])
      case None => None
      case Some(i) => Some(i + 1)
  }

  /** The number of events whose notification is not sent yet. */
  function Unsent(events: seq<Event>): nat
    decreases |events|
  {
    if events == [] then 0
    else (if events[0].notificationSent then 0 else 1) + Unsent(events[1..])
  }

  function MarkSent(events: seq<Event>, i: nat): seq<Event>
    requires i < |events|
  {
    events[i := events[i].(notificationSent := true)]
  }

  /** Marking an unsent event removes exactly one event from the backlog. */
  lemma {:induction false} MarkSentCount(events: seq<Event>, i: nat)
    requires i < |events| && !events[i].notificationSent
    ensures Unsent(MarkSent(events, i)) == Unsent(events) - 1
    decreases |events|
  {
    if i > 0 {
      MarkSentCount(events[1..], i - 1);
      assert MarkSent(events, i)[1..] == MarkSent(events[1..], i - 1);
    } else {
      assert MarkSent(events, i)[1..] == events[1..];
    }
  }

  /** Marking an event touches neither flag nor time of any event, so the
      watching loop's invariants and decisions are unaffected. */
  lemma MarkSentKeepsLog(events: seq<Event>, i: nat)
    requires i < |events|
    ensures Watch.Alternating(MarkSent(events, i)) <==> Watch.Alternating(events)
    ensures Chronological(MarkSent(events, i)) <==> Chronological(events)
    ensures forall h, now :: |Watch.Observe(MarkSent(events, i), h, now)| == |Watch.Observe(events, h, now)|
  {
    var marked := MarkSent(events, i);
    assert forall j :: 0 <= j < |events| ==>
      marked[j].haveAppointments == events[j].haveAppointments && marked[j].timestamp == events[j].timestamp;
  }

  /** The notification text chosen by the event's availability flag. */
  function NoticeText(e: Event): (text: Text)
    ensures text == AppointmentsAvailable <==> e.haveAppointments
    ensures text == NoMoreAppointments <==> !e.haveAppointments
  {
    if e.haveAppointments then AppointmentsAvailable else NoMoreAppointments
  }

  /** Chat ids of the recipients whose send is answered Unauthorized. */
  function Rejected(recipients: seq<User>, answer: nat -> SendOutcome, k: nat): set<int>
    decreases |recipients|
  {
    if recipients == [] then {}
    else (if answer(k) == Unauthorized then {recipients[0].chatId} else {})
         + Rejected(recipients[1..], answer, k + 1)
  }

  /** Some recipient's send fails with an exception other than Unauthorized. */
  predicate SomeSendFails(recipients: seq<User>, answer: nat -> SendOutcome, k: nat)
    decreases |recipients|
  {
    recipients != [] && (answer(k) == SendFailed || SomeSendFails(recipients[1..], answer, k + 1))
  }

  /** `reply` to each recipient in turn; the first failure other than
      Unauthorized stops the loop. */
  function Fanout(t: Tables, recipients: seq<User>, text: Text, answer: nat -> SendOutcome, k: nat): (e: Effect)
    ensures e.tables.events == t.events && e.tables.lastUpdate == t.lastUpdate
    decreases |recipients|
  {
    if recipients == [] then Effect(t, [], false)
    else
      var first := Reply(t, recipients[0].chatId, text, answer, k, false);
      if first.failed then first
      else
        var rest := Fanout(first.tables, recipients[1..], text, answer, k + 1);
        Effect(rest.tables, first.sends + rest.sends, rest.failed)
  }

  /** The fan-out from recipient `j` on, one recipient at a time: the
      first failure ends it, otherwise the rest follows. */
  lemma FanoutStep(t: Tables, recipients: seq<User>, j: nat, text: Text, answer: nat -> SendOutcome, k: nat)
    requires j < |recipients|
    ensures var first := Reply(t, recipients[j].chatId, text, answer, k, false);
            var here := Fanout(t, recipients[j..], text, answer, k);
            if first.failed then here == first
            else
              var rest := Fanout(first.tables, recipients[j + 1..], text, answer, k + 1);
              here == Effect(rest.tables, first.sends + rest.sends, rest.failed)
  {
    assert recipients[j..][1..] == recipients[j + 1..];
  }

  /** The fan-out fails exactly when some recipient's send fails with an
      exception other than Unauthorized; then the attempts are those to the
      recipients up to and including the first failing one. */
  lemma {:induction false} FanoutFails(t: Tables, recipients: seq<User>, text: Text, answer: nat -> SendOutcome, k: nat)
    ensures var e := Fanout(t, recipients, text, answer, k);
            && (e.failed <==> SomeSendFails(recipients, answer, k))
            && (e.failed ==> 0 < |e.sends| <= |recipients|
                             && e.sends == Messages(recipients[..|e.sends|], text)
                             && answer(k + |e.sends| - 1) == SendFailed)
    decreases |recipients|
  {
    if recipients != [] {
      var first := Reply(t, recipients[0].chatId, text, answer, k, false);
      if !first.failed {
        FanoutFails(first.tables, recipients[1..], text, answer, k + 1);
        var rest := Fanout(first.tables, recipients[1..], text, answer, k + 1);
        if rest.failed {
          var n := |rest.sends|;
          assert recipients[..n + 1][1..] == recipients[1..][..n];
        }
      } else {
        assert recipients[..1][1..] == [];
      }
    }
  }

  /** Without a failure every recipient gets exactly one attempt and exactly
      the Unauthorized ones are deleted. */
  lemma {:induction false} FanoutDelivers(t: Tables, recipients: seq<User>, text: Text, answer: nat -> SendOutcome, k: nat)
    ensures var e := Fanout(t, recipients, text, answer, k);
            !e.failed ==> e.sends == Messages(recipients, text)
                          && e.tables.users == Without(t.users, Rejected(recipients, answer, k))
    decreases |recipients|
  {
    if recipients != [] {
      var first := Reply(t, recipients[0].chatId, text, answer, k, false);
      if !first.failed {
        FanoutDelivers(first.tables, recipients[1..], text, answer, k + 1);
        var rest := Fanout(first.tables, recipients[1..], text, answer, k + 1);
        if !rest.failed {
          var ids := if answer(k) == Unauthorized then {recipients[0].chatId} else {};
          if answer(k) != Unauthorized {
            WithoutNothing(t.users);
          }
          assert first.tables.users == Without(t.users, ids);
          WithoutWithout(t.users, ids, Rejected(recipients[1..], answer, k + 1));
          assert Rejected(recipients, answer, k) == ids + Rejected(recipients[1..], answer, k + 1);
        }
      }
    } else {
      WithoutNothing(t.users);
    }
  }

  /** One notification tick over the session's tables. */
  function Notify(t: Tables, answer: nat -> SendOutcome, k: nat): Tick {
    match FirstUnsent(t.events)
    case None => Tick(Completed(t), [])
    case Some(i) =>
      var e := Fanout(t, Subscribers(t.users), NoticeText(t.events[i]), answer, k);
      if e.failed then Tick(Raised(Failure, t), e.sends)
      else Tick(Completed(e.tables.(events := MarkSent(e.tables.events, i))), e.sends)
  }

  /** With no pending event the tick sends nothing and changes nothing. */
  lemma NotifyIdle(t: Tables, answer: nat -> SendOutcome, k: nat)
    requires forall i :: 0 <= i < |t.events| ==> t.events[i].notificationSent
    ensures Notify(t, answer, k) == Tick(Completed(t), [])
  {
  }

  /** With a pending event: each subscribed user gets one attempt with the
      text chosen by the event's flag; then exactly that event is marked
      sent (the backlog shrinks by one), exactly the Unauthorized users are
      deleted, and nothing else changes.  If a send fails otherwise, the tick
      raises and commits nothing. */
  lemma NotifyDelivers(t: Tables, answer: nat -> SendOutcome, k: nat)
    requires FirstUnsent(t.events).Some?
    ensures var i := FirstUnsent(t.events).value;
            var subscribers := Subscribers(t.users);
            var r := Notify(t, answer, k);
            && |r.sends| <= |subscribers|
            && r.sends == Messages(subscribers[..|r.sends|], NoticeText(t.events[i]))
            && (!SomeSendFails(subscribers, answer, k) ==>
                  && |r.sends| == |subscribers|
                  && r.outcome == Completed(Tables(MarkSent(t.events, i),
                                                   Without(t.users, Rejected(subscribers, answer, k)),
                                                   t.lastUpdate))
                  && Unsent(r.outcome.next.events) == Unsent(t.events) - 1)
            && (SomeSendFails(subscribers, answer, k) ==> r.outcome == Raised(Failure, t))
  {
    var i := FirstUnsent(t.events).value;
    var subscribers := Subscribers(t.users);
    FanoutFails(t, subscribers, NoticeText(t.events[i]), answer, k);
    FanoutDelivers(t, subscribers, NoticeText(t.events[i]), answer, k);
    MarkSentCount(t.events, i);
    assert subscribers[..|subscribers|] == subscribers;
  }

  /** A completed notification tick keeps the chat ids unique. */
  lemma NotifyKeepsUnique(t: Tables, answer: nat -> SendOutcome, k: nat)
    requires UniqueChatIds(t.users)
    ensures Notify(t, answer, k).outcome.Completed? ==> UniqueChatIds(Notify(t, answer, k).outcome.next.users)
  {
    if FirstUnsent(t.events).Some? {
      var subscribers := Subscribers(t.users);
      NotifyDelivers(t, answer, k);
      WithoutKeepsUnique(t.users, Rejected(subscribers, answer, k));
    }
  }
}
