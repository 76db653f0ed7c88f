/** The bot as the source writes it: a `Bot` object whose loop methods and
    handlers update a database session in place and talk to the chat
    channel.  Each method is proved against the functions that specify it
    in Delivery, Chat, Notify, Watch and Loop. */
module Bot {
  import opened Schema
  import opened Delivery
  import Navigator
  import Classifier
  import Watch
  import Notify
  import Chat
  import Loop

  /** The chat channel.  The k-th send attempt of the run is answered by
      `answer(k)`, the p-th poll made with offset `o` by `poll(p, o)`;
      every attempt and every offset polled with is recorded. */
  class Messenger {
    const answer: nat -> SendOutcome
    const poll: (nat, Option<int>) -> Chat.PollResult
    var sent: seq<Message>
    var offsets: seq<Option<int>>

    constructor(answer: nat -> SendOutcome, poll: (nat, Option<int>) -> Chat.PollResult)
      ensures this.answer == answer && this.poll == poll
      ensures sent == [] && offsets == []
    {
      this.answer := answer;
      this.poll := poll;
      sent := [];
      offsets := [];
    }

    /** `send_message`. */
    method SendMessage(m: Message) returns (outcome: SendOutcome)
      modifies this
      ensures sent == old(sent) + [m] && offsets == old(offsets)
      ensures outcome == answer(|old(sent)|)
    {
      outcome := answer(|sent|);
      sent := sent + [m];
    }

    /** `get_updates(offset, timeout=4)`. */
    method GetUpdates(offset: Option<int>) returns (polled: Chat.PollResult)
      modifies this
      ensures offsets == old(offsets) + [offset] && sent == old(sent)
      ensures polled == poll(|old(offsets)|, offset)
    {
      polled := poll(|offsets|, offset);
      offsets := offsets + [offset];
    }
  }

  /** A database session: the three tables as this session sees them,
      uncommitted changes included, and the chat ids of the user rows added
      since the last flush.  Every query flushes first. */
  class Session {
    var events: seq<Event>
    var users: seq<User>
    var lastUpdate: Option<int>
    var added: set<int>

    /** A new session over the committed tables. */
    constructor(t: Tables)
      ensures State() == t && added == {}
    {
      events := t.events;
      users := t.users;
      lastUpdate := t.lastUpdate;
      added := {};
    }

    function State(): Tables
      reads this
    {
      Tables(events, users, lastUpdate)
    }
  }

  /** The three loops the bot runs. */
  datatype Kind = Interactive | Notification | Watching

  /** The sleep after a successful tick of each loop, in seconds. */
  function Interval(kind: Kind): (seconds: nat)
    ensures kind == Watching ==> seconds == Loop.WatchInterval
    ensures kind != Watching ==> seconds == (if kind == Interactive then 0 else 1)
  {
    match kind
    case Interactive => 0
    case Notification => 1
    case Watching => Loop.WatchInterval
  }

  class Bot {
    const copy: Loop.Copy
    const messenger: Messenger
    /** The booking site as seen by tick `i` of the watching loop. */
    const site: nat -> Navigator.Request -> Navigator.Fetched
    /** `utcnow()` as read during tick `i`, in microseconds. */
    const clock: nat -> int
    var shutdown: bool
    /** The committed tables. */
    var db: Tables
    /** Commits, sleeps and immediate retries, in order. */
    var trace: seq<Loop.Action>

    constructor(copy: Loop.Copy, messenger: Messenger, site: nat -> Navigator.Request -> Navigator.Fetched,
                clock: nat -> int, db: Tables)
      ensures this.copy == copy && this.messenger == messenger && this.site == site && this.clock == clock
      ensures this.db == db && !shutdown && trace == []
    {
      this.copy := copy;
      this.messenger := messenger;
      this.site := site;
      this.clock := clock;
      this.db := db;
      shutdown := false;
      trace := [];
    }

    /** `reply`: one send attempt; Unauthorized deletes the user, unless
        its row is not flushed yet, which the session refuses; that refusal
        and any other failure are reported to the caller as raised. */
    method Reply(s: Session, chatId: int, text: Text) returns (failed: bool)
      modifies s, messenger
      ensures var e := Delivery.Reply(old(s.State()), chatId, text, messenger.answer, |old(messenger.sent)|,
                                      chatId in old(s.added));
              && s.State() == e.tables && messenger.sent == old(messenger.sent) + e.sends && failed == e.failed
      ensures s.added == old(s.added) && messenger.offsets == old(messenger.offsets)
    {
      var outcome := messenger.SendMessage(Message(chatId, text));
      failed := false;
      match outcome
      case Delivered =>
      case Unauthorized =>
        if chatId in s.added {
          failed := true;
        } else {
          s.users := Without(s.users, {chatId});
        }
      case SendFailed =>
        failed := true;
    }

    /** `on_subscribe` (`subscribed` true) and `on_unsubscribe` (false). */
    method OnSubscription(s: Session, chatId: int, subscribed: bool) returns (failed: bool)
      modifies s, messenger
      ensures var e := Delivery.Reply(old(s.State()).(users := Chat.SetSubscribed(old(s.users), chatId, subscribed)),
                                      chatId, if subscribed then SubscribedText else UnsubscribedText,
                                      messenger.answer, |old(messenger.sent)|, chatId in old(s.added));
              && s.State() == e.tables && messenger.sent == old(messenger.sent) + e.sends && failed == e.failed
      ensures messenger.offsets == old(messenger.offsets)
    {
      s.users := Chat.SetSubscribed(s.users, chatId, subscribed);
      failed := Reply(s, chatId, if subscribed then SubscribedText else UnsubscribedText);
    }

    /** `on_stats`: count the subscribers, walk the events in time order
        accumulating the time with appointments, and reply.  An empty log
        fails on the missing first event. */
    method OnStats(s: Session, chatId: int, now: int) returns (failed: bool)
      modifies s, messenger
      ensures var t := old(s.State());
              match Chat.StatsText(t, now)
              case None => failed && s.State() == t && messenger.sent == old(messenger.sent)
              case Some(statistics) =>
                var e := Delivery.Reply(t, chatId, statistics, messenger.answer, |old(messenger.sent)|, false);
                s.State() == e.tables && messenger.sent == old(messenger.sent) + e.sends && failed == e.failed
      ensures s.added == {} && messenger.offsets == old(messenger.offsets)
    {
      // the count query flushes the session
      s.added := {};
      var subscribedUsers := |Subscribers(s.users)|;
      var events := s.events;
      var first: Option<Event> := None;
      var last: Option<Event> := None;
      var seen := 0;
      for j := 0 to |events|
        invariant s.State() == old(s.State()) && s.added == {}
        invariant messenger.sent == old(messenger.sent) && messenger.offsets == old(messenger.offsets)
        invariant first == (if j == 0 then None else Some(events[0]))
        invariant last == (if j == 0 then None else Some(events[j - 1]))
        invariant seen == Chat.Seen(events[..j])
      {
        var event := events[j];
        if first.None? {
          first := Some(event);
        }
        if last.Some? {
          if last.value.haveAppointments {
            seen := seen + (event.timestamp - last.value.timestamp);
          }
          Chat.SeenSnoc(events[..j], event);
        }
        assert events[..j + 1] == events[..j] + [event];
        last := Some(event);
      }
      assert events[..|events|] == events;
      if first.None? {
        return true;
      }
      var statistics := Statistics(subscribedUsers, Chat.Seconds(now - first.value.timestamp), Chat.Seconds(seen));
      failed := Reply(s, chatId, statistics);
    }

    /** `on_command`: dispatch on the first space-separated word. */
    method OnCommand(s: Session, chatId: int, text: string, now: int) returns (failed: bool)
      modifies s, messenger
      ensures var e := Chat.OnCommand(old(s.State()), chatId, text, now, messenger.answer, |old(messenger.sent)|,
                                      chatId in old(s.added));
              && s.State() == e.tables && messenger.sent == old(messenger.sent) + e.sends && failed == e.failed
      ensures messenger.offsets == old(messenger.offsets)
    {
      var command := Chat.Command(text);
      match Chat.Dispatch(command)
      case Start => failed := Reply(s, chatId, Greetings);
      case HelpCommand => failed := Reply(s, chatId, Help);
      case TermsCommand => failed := Reply(s, chatId, Terms);
      case Subscribe => failed := OnSubscription(s, chatId, true);
      case Unsubscribe => failed := OnSubscription(s, chatId, false);
      case Stats => failed := OnStats(s, chatId, now);
      case Unknown => failed := Reply(s, chatId, UnknownCommand);
    }

    /** `on_message`: create the sender's row on first contact, then
        dispatch commands and answer anything else with the "don't
        understand" reply.  A message without text fails. */
    method OnMessage(s: Session, m: Chat.ChatMessage, now: int) returns (failed: bool)
      modifies s, messenger
      ensures var e := Chat.OnMessage(old(s.State()), m, now, messenger.answer, |old(messenger.sent)|);
              && s.State() == e.tables && messenger.sent == old(messenger.sent) + e.sends && failed == e.failed
      ensures messenger.offsets == old(messenger.offsets)
    {
      // the query for the sender's row flushes the session
      s.added := {};
      if !Known(s.users, m.chatId) {
        s.users := s.users + [User(m.chatId, false)];
        s.added := {m.chatId};
      }
      match m.text
      case None =>
        failed := true;
      case Some(text) =>
        if Chat.IsCommand(text) {
          failed := OnCommand(s, m.chatId, text, now);
        } else {
          failed := Reply(s, m.chatId, DontUnderstand);
        }
    }

    /** `on_message` as the update loop sees it: through the handler that
        stands for it. */
    method HandleMessage(s: Session, m: Chat.ChatMessage, now: int, ghost handle: Chat.MessageHandler)
        returns (failed: bool)
      requires forall t, m, k {:trigger Chat.OnMessage(t, m, now, messenger.answer, k)} ::
                 handle(t, m, k) == Chat.OnMessage(t, m, now, messenger.answer, k)
      modifies s, messenger
      ensures var e := handle(old(s.State()), m, |old(messenger.sent)|);
              && s.State() == e.tables && messenger.sent == old(messenger.sent) + e.sends && failed == e.failed
      ensures messenger.offsets == old(messenger.offsets)
    {
      failed := OnMessage(s, m, now);
    }

    /** The `for user in ...: self.reply(...)` loop of `notification_loop`
        over the subscribers it listed; the first failure other than
        Unauthorized ends it. */
    method ReplyAll(s: Session, recipients: seq<User>, text: Text) returns (failed: bool)
      requires s.added == {}
      modifies s, messenger
      ensures var e := Notify.Fanout(old(s.State()), recipients, text, messenger.answer, |old(messenger.sent)|);
              && s.State() == e.tables && messenger.sent == old(messenger.sent) + e.sends && failed == e.failed
      ensures messenger.offsets == old(messenger.offsets)
    {
      ghost var whole := Notify.Fanout(s.State(), recipients, text, messenger.answer, |messenger.sent|);
      // the tables and the attempts so far, and what the fan-out still does
      ghost var current, done, k := s.State(), [], |messenger.sent|;
      var j := 0;
      while j < |recipients|
        invariant 0 <= j <= |recipients|
        invariant s.State() == current && s.added == {}
        invariant messenger.sent == old(messenger.sent) + done && |messenger.sent| == k
        invariant messenger.offsets == old(messenger.offsets)
        invariant whole.tables == Notify.Fanout(current, recipients[j..], text, messenger.answer, k).tables
        invariant whole.failed == Notify.Fanout(current, recipients[j..], text, messenger.answer, k).failed
        invariant whole.sends == done + Notify.Fanout(current, recipients[j..], text, messenger.answer, k).sends
      {
        Notify.FanoutStep(current, recipients, j, text, messenger.answer, k);
        ghost var first := Delivery.Reply(current, recipients[j].chatId, text, messenger.answer, k, false);
        failed := Reply(s, recipients[j].chatId, text);
        AppendAssociates(old(messenger.sent), done, first.sends);
        if failed {
          return;
        }
        ghost var rest := Notify.Fanout(first.tables, recipients[j + 1..], text, messenger.answer, k + 1);
        AppendAssociates(done, first.sends, rest.sends);
        current, done, k := first.tables, done + first.sends, k + 1;
        j := j + 1;
      }
      failed := false;
    }

    /** The body of `notification_loop`: notify every subscriber of the
        first pending event and mark it sent. */
    method NotificationTick(s: Session) returns (raised: Option<Exception>)
      modifies s, messenger
      ensures var tick := Notify.Notify(old(s.State()), messenger.answer, |old(messenger.sent)|);
              && messenger.sent == old(messenger.sent) + tick.sends
              && (tick.outcome.Completed? ==> raised.None? && s.State() == tick.outcome.next)
              && (tick.outcome.Raised? ==> raised == Some(tick.outcome.e))
      ensures messenger.offsets == old(messenger.offsets)
    {
      // the query for the first pending event flushes the session
      s.added := {};
      var pending := Notify.FirstUnsent(s.events);
      if pending.None? {
        return None;
      }
      var i := pending.value;
      var text := Notify.NoticeText(s.events[i]);
      var failed := ReplyAll(s, Subscribers(s.users), text);
      if failed {
        return Some(Failure);
      }
      s.events := Notify.MarkSent(s.events, i);
      raised := None;
    }

    /** The body of `watching_loop` at tick `i`: walk the site, classify
        the result and append an event when the log calls for one. */
    method WatchingTick(s: Session, i: nat) returns (raised: Option<Exception>)
      modifies s
      ensures var outcome := Watch.WatchTick(old(s.State()), site(i), clock(i));
              && (outcome.Completed? ==> raised.None? && s.State() == outcome.next)
              && (outcome.Raised? ==> raised == Some(outcome.e) && s.State() == old(s.State()))
    {
      var navigation := Navigator.Navigate(site(i));
      match navigation.result
      case Raise(e) =>
        raised := Some(e);
      case Ok(response) =>
        var have := Classifier.HaveAppointments(response);
        var previous := if s.events == [] then false else s.events[|s.events| - 1].haveAppointments;
        if s.events == [] || have != previous {
          s.events := s.events + [Event(clock(i), have, have == previous)];
        }
        raised := None;
    }

    /** The `for update in updates` loop of `interactive_loop`: move the
        cursor to each update, committing at once when this creates the
        cursor row, and dispatch the update's message; the first failure
        ends the loop. */
    method HandleAll(s: Session, updates: seq<Chat.Update>, now: int, ghost handle: Chat.MessageHandler)
        returns (failed: bool)
      requires forall t, m, k {:trigger Chat.OnMessage(t, m, now, messenger.answer, k)} ::
                 handle(t, m, k) == Chat.OnMessage(t, m, now, messenger.answer, k)
      requires Chat.KeepsCursor(handle)
      modifies s, messenger, this`db
      ensures var tick := Chat.HandleUpdates(old(s.State()), old(db), updates, handle, |old(messenger.sent)|);
              && messenger.sent == old(messenger.sent) + tick.sends
              && (tick.outcome.Completed? ==> !failed && s.State() == tick.outcome.next)
              && (tick.outcome.Raised? ==> failed && db == tick.outcome.durable)
      ensures messenger.offsets == old(messenger.offsets)
      ensures db == if updates == [] || old(s.lastUpdate).Some? then old(db)
                    else old(s.State()).(lastUpdate := Some(updates[0].updateId))
    {
      ghost var whole := Chat.HandleUpdates(s.State(), db, updates, handle, |messenger.sent|);
      // the session's tables and the attempts so far, and what the loop still does
      ghost var current, done, k := s.State(), [], |messenger.sent|;
      var j := 0;
      while j < |updates|
        invariant 0 <= j <= |updates|
        invariant s.State() == current && messenger.sent == old(messenger.sent) + done && |messenger.sent| == k
        invariant messenger.offsets == old(messenger.offsets)
        invariant j == 0 ==> current == old(s.State())
        invariant j > 0 ==> current.lastUpdate.Some?
        invariant db == if j == 0 || old(s.lastUpdate).Some? then old(db)
                        else old(s.State()).(lastUpdate := Some(updates[0].updateId))
        invariant Chat.Resumes(whole, done, Chat.HandleUpdates(current, db, updates[j..], handle, k))
      {
        Chat.HandleAdvance(current, db, updates, j, handle, k, whole, done);
        var u := updates[j];
        ghost var t1 := current.(lastUpdate := Some(u.updateId));
        if s.lastUpdate.None? {
          s.lastUpdate := Some(u.updateId);
          db := s.State();
        } else {
          s.lastUpdate := Some(u.updateId);
        }
        j := j + 1;
        if u.message.Some? {
          ghost var e := handle(t1, u.message.value, k);
          failed := HandleMessage(s, u.message.value, now, handle);
          AppendAssociates(old(messenger.sent), done, e.sends);
          if failed {
            return;
          }
          current, done, k := e.tables, done + e.sends, k + |e.sends|;
        } else {
          current := t1;
        }
      }
      failed := false;
    }

    /** The body of `interactive_loop` at tick `i`: poll with the offset the
        cursor gives, then handle the updates. */
    method InteractiveTick(s: Session, i: nat) returns (raised: Option<Exception>)
      requires s.State() == db
      modifies s, messenger, this`db
      ensures var offset := Chat.PollOffset(old(db).lastUpdate);
              var polled := messenger.poll(|old(messenger.offsets)|, offset);
              var tick := Chat.Interact(old(db), polled, clock(i), messenger.answer, |old(messenger.sent)|);
              && messenger.offsets == old(messenger.offsets) + [offset]
              && messenger.sent == old(messenger.sent) + tick.sends
              && db == Chat.Committed(old(db), polled)
              && (tick.outcome.Completed? ==> raised.None? && s.State() == tick.outcome.next)
              && (tick.outcome.Raised? ==> raised == Some(tick.outcome.e) && db == tick.outcome.durable)
    {
      var offset := Chat.PollOffset(s.lastUpdate);
      var polled := messenger.GetUpdates(offset);
      match polled
      case TimedOut =>
        raised := None;
      case PollFailed =>
        raised := Some(Failure);
      case Updates(updates) =>
        ghost var handle := Chat.OnMessageHandler(clock(i), messenger.answer);
        Chat.RaisedKeepsCommitted(old(db), old(db), updates, handle, |old(messenger.sent)|);
        var failed := HandleAll(s, updates, clock(i), handle);
        raised := if failed then Some(Failure) else None;
    }

    /** The tick of the given loop. */
    function StepOf(kind: Kind, p0: nat): Loop.Step {
      match kind
      case Interactive => Loop.InteractiveStep(messenger.answer, messenger.poll, p0, clock)
      case Notification => Loop.NotificationStep(messenger.answer)
      case Watching => Loop.WatchingStep(site, clock)
    }

    /** One tick of the given loop over a fresh session; `p0 + i` polls were
        made before it. */
    method RunTick(kind: Kind, s: Session, i: nat, ghost p0: nat, ghost step: Loop.Step)
        returns (raised: Option<Exception>)
      requires s.State() == db
      requires kind == Interactive ==> |messenger.offsets| == p0 + i
      requires forall j, t, k {:trigger StepOf(kind, p0)(j, t, k)} :: step(j, t, k) == StepOf(kind, p0)(j, t, k)
      modifies s, messenger, this`db
      ensures var tick := step(i, old(db), |old(messenger.sent)|);
              && messenger.sent == old(messenger.sent) + tick.sends
              && (tick.outcome.Completed? ==> raised.None? && s.State() == tick.outcome.next)
              && (tick.outcome.Raised? ==> raised == Some(tick.outcome.e) && db == tick.outcome.durable)
      ensures kind == Interactive ==> |messenger.offsets| == p0 + i + 1
    {
      assert step(i, db, |messenger.sent|) == StepOf(kind, p0)(i, db, |messenger.sent|);
      match kind
      case Interactive =>
        raised := InteractiveTick(s, i);
        Chat.RaisedKeepsCommitted(old(db), old(db), [], Chat.OnMessageHandler(clock(i), messenger.answer),
                                  |old(messenger.sent)|);
      case Notification =>
        raised := NotificationTick(s);
      case Watching =>
        raised := WatchingTick(s, i);
    }

    /** The `loop` wrapper around one of the loops: tick over a fresh
        session while the flag is not set (the flag is seen set after `n`
        ticks), commit and sleep after a successful tick, retry at once
        after an ignored exception, end on any other, and always leave the
        flag set.  `interrupt(i)` says a KeyboardInterrupt arrives in the
        sleep after tick `i`. */
    method RunLoop(kind: Kind, interrupt: nat -> bool, n: nat) returns (exit: Loop.Exit)
      modifies this, messenger
      ensures shutdown
      ensures old(shutdown) ==> db == old(db) && messenger.sent == old(messenger.sent)
                                && trace == old(trace) && exit == Loop.Stopped
      ensures !old(shutdown) ==>
                var r := Loop.Drive(copy, Interval(kind), kind == Watching, interrupt,
                                    StepOf(kind, |old(messenger.offsets)|), old(db), 0, |old(messenger.sent)|, n);
                && db == r.db && messenger.sent == old(messenger.sent) + r.sends
                && trace == old(trace) + r.actions && exit == r.exit
    {
      if !shutdown {
        exit := Cycle(kind, interrupt, n, |messenger.offsets|, StepOf(kind, |messenger.offsets|));
      } else {
        exit := Loop.Stopped;
      }
      shutdown := true;
    }

    /** One pass of the wrapper's loop: the tick over a fresh session, then
        commit and sleep, retry, or end. */
    method Iteration(kind: Kind, interrupt: nat -> bool, i: nat, ghost p0: nat, ghost step: Loop.Step)
        returns (stop: Option<Loop.Exit>)
      requires kind == Interactive ==> |messenger.offsets| == p0 + i
      requires forall j, t, k {:trigger StepOf(kind, p0)(j, t, k)} :: step(j, t, k) == StepOf(kind, p0)(j, t, k)
      modifies this`db, this`trace, messenger
      ensures var tick := step(i, old(db), |old(messenger.sent)|);
              var turn := Loop.After(copy, Interval(kind), kind == Watching, interrupt(i), tick.outcome);
              && db == turn.db && trace == old(trace) + turn.actions && stop == turn.stop
              && messenger.sent == old(messenger.sent) + tick.sends
      ensures kind == Interactive ==> |messenger.offsets| == p0 + i + 1
    {
      var s := new Session(db);
      var raised := RunTick(kind, s, i, p0, step);
      match raised {
        case None =>
          db := s.State();
          trace := trace + [Loop.Commit, Loop.Sleep(Interval(kind))];
          stop := if interrupt(i) then Some(Loop.ExitOn(copy, KeyboardInterrupt)) else None;
        case Some(e) =>
          if Loop.Ignored(kind == Watching, e) {
            trace := trace + [Loop.Retry];
            stop := None;
          } else {
            stop := Some(Loop.ExitOn(copy, e));
          }
      }
    }

    /** The loop of the wrapper, with the tick as a parameter. */
    method Cycle(kind: Kind, interrupt: nat -> bool, n: nat, ghost p0: nat, ghost step: Loop.Step)
        returns (exit: Loop.Exit)
      requires kind == Interactive ==> |messenger.offsets| == p0
      requires forall j, t, k {:trigger StepOf(kind, p0)(j, t, k)} :: step(j, t, k) == StepOf(kind, p0)(j, t, k)
      requires !shutdown
      modifies this, messenger
      ensures var r := Loop.Drive(copy, Interval(kind), kind == Watching, interrupt,
                                    step, old(db), 0, |old(messenger.sent)|, n);
                && db == r.db && messenger.sent == old(messenger.sent) + r.sends
                && trace == old(trace) + r.actions && exit == r.exit
    {
      var interval := Interval(kind);
      var ignore := kind == Watching;
      // the attempts and actions so far, and what the loop still does
      ghost var done, acts, k := [], [], |messenger.sent|;
      exit := Loop.Stopped;
      var i := 0;
      while !shutdown && i < n
        invariant !shutdown
        invariant i <= n
        invariant kind == Interactive ==> |messenger.offsets| == p0 + i
        invariant messenger.sent == old(messenger.sent) + done && |messenger.sent| == k
        invariant trace == old(trace) + acts
        invariant Loop.Resumes(Loop.Drive(copy, interval, ignore, interrupt, step, old(db), 0, |old(messenger.sent)|, n), done, acts, Loop.Drive(copy, interval, ignore, interrupt, step, db, i, k, n))
        decreases n - i
      {
        ghost var tick := step(i, db, k);
        ghost var turn := Loop.After(copy, interval, ignore, interrupt(i), tick.outcome);
        Loop.Advance(copy, interval, ignore, interrupt, step, db, i, k, n,
                     Loop.Drive(copy, interval, ignore, interrupt, step, old(db), 0, |old(messenger.sent)|, n), done, acts);
        var stop := Iteration(kind, interrupt, i, p0, step);
        AppendAssociates(old(messenger.sent), done, tick.sends);
        AppendAssociates(old(trace), acts, turn.actions);
        if stop.Some? {
          exit := stop.value;
          break;
        }
        done, acts, k := done + tick.sends, acts + turn.actions, k + |tick.sends|;
        i := i + 1;
      }
    }
  }
}
