/** The chat side: dispatching an incoming message, the command handlers,
    the statistics reply, and one tick of the interactive loop with its
    update cursor. */
module Chat {
  import opened Schema
  import opened Delivery

  /** An incoming chat message: the chat it came from and its text, which
      is `None` for messages without text. */
  datatype ChatMessage = ChatMessage(chatId: int, text: Option<string>)

  /** An update returned by the poll; not every update carries a message. */
  datatype Update = Update(updateId: int, message: Option<ChatMessage>)

  /** What one long poll yields: it timed out, it failed otherwise, or it
      returned updates in order. */
  datatype PollResult = TimedOut | PollFailed | Updates(updates: seq<Update>)

  /** The handlers `on_command` dispatches to. */
  datatype Handler = Start | HelpCommand | TermsCommand | Subscribe | Unsubscribe | Stats | Unknown

  /** `text.split(' ', 1)[0]`: the text up to its first space. */
  function Command(text: string): (c: string)
    ensures c <= text && ' ' !in c
    ensures |c| < |text| ==> text[|c|] == ' '
    decreases |text|
  {
    if text == [] || text[0] == ' ' then []
    else [text[0]] + Command(text[1..])
  }

  function Dispatch(command: string): Handler {
    if command == "/start" then Start
    else if command == "/help" then HelpCommand
    else if command == "/terms" then TermsCommand
    else if command == "/subscribe" then Subscribe
    else if command == "/unsubscribe" then Unsubscribe
    else if command == "/stats" then Stats
    else Unknown
  }

  /** The user row for `chatId`, created unsubscribed on first contact. */
  function EnsureUser(users: seq<User>, chatId: int): (r: seq<User>)
    ensures Known(r, chatId)
    ensures Known(users, chatId) ==> r == users
    ensures !Known(users, chatId) ==> r == users + [User(chatId, false)]
  {
    if Known(users, chatId) then users
    else
      assert (users + [User(chatId, false)])[|users|].chatId == chatId;
      users + [User(chatId, false)]
  }

  /** The subscription flag of the row for `chatId` set to `flag`; every
      other row, and every chat id, kept. */
  function SetSubscribed(users: seq<User>, chatId: int, flag: bool): (r: seq<User>)
    ensures |r| == |users|
    ensures forall i :: 0 <= i < |r| ==> r[i].chatId == users[i].chatId
    ensures forall i :: 0 <= i < |r| && users[i].chatId == chatId ==> r[i].subscribed == flag
    ensures forall i :: 0 <= i < |r| && users[i].chatId != chatId ==> r[i] == users[i]
    decreases |users|
  {
    if users == [] then []
    else
      [if users[0].chatId == chatId then users[0].(subscribed := flag) else users[0]]
      + SetSubscribed(users[1..], chatId, flag)
  }

  /** Time with appointments: the sum of the intervals between consecutive
      events whose earlier event saw appointments.  The interval after the
      last event is still open and is not counted. */
  function Seen(events: seq<Event>): int
    decreases |events|
  {
    if |events| < 2 then 0
    else (if events[0].haveAppointments then events[1].timestamp - events[0].timestamp else 0)
         + Seen(events[1..])
  }

  /** Adding an event closes the previous interval, and only that one. */
  lemma {:induction false} SeenSnoc(events: seq<Event>, e: Event)
    requires events != []
    ensures var last := events[|events| - 1];
            Seen(events + [e]) == Seen(events)
              + (if last.haveAppointments then e.timestamp - last.timestamp else 0)
    decreases |events|
  {
    if |events| >= 2 {
      SeenSnoc(events[1..], e);
      assert (events + [e])[1..] == events[1..] + [e];
    }
  }

  predicate NonDecreasing(events: seq<Event>) {
    forall i :: 0 < i < |events| ==> events[i - 1].timestamp <= events[i].timestamp
  }

  /** With non-decreasing timestamps the time with appointments is
      non-negative and at most the span of the log. */
  lemma {:induction false} SeenBounds(events: seq<Event>)
    requires events != [] && NonDecreasing(events)
    ensures 0 <= Seen(events) <= events[|events| - 1].timestamp - events[0].timestamp
    decreases |events|
  {
    if |events| >= 2 {
      assert NonDecreasing(events[1..]) by {
        forall i | 0 < i < |events[1..]|
          ensures events[1..][i - 1].timestamp <= events[1..][i].timestamp
        {
          assert events[i].timestamp <= events[i + 1].timestamp;
        }
      }
      SeenBounds(events[1..]);
      assert events[0].timestamp <= events[1].timestamp;
    }
  }

  const MicrosecondsPerSecond: int := 1000000

  /** `delta // timedelta(seconds=1)`: whole seconds, rounded down. */
  function Seconds(microseconds: int): (s: int)
    ensures s * MicrosecondsPerSecond <= microseconds < (s + 1) * MicrosecondsPerSecond
  {
    microseconds / MicrosecondsPerSecond
  }

  /** The statistics reply; `None` when the log is empty, where the source
      fails on the missing first event. */
  function StatsText(t: Tables, now: int): (r: Option<Text>)
    ensures r.None? <==> t.events == []
    ensures r.Some? ==> r.value.Statistics? && r.value.subscribedUsers == |Subscribers(t.users)|
    ensures r.Some? ==> r.value.watchingFor == Seconds(now - t.events[0].timestamp)
                        && r.value.seenAppointments == Seconds(Seen(t.events))
  {
    if t.events == [] then None
    else Some(Statistics(|Subscribers(t.users)|,
                         Seconds(now - t.events[0].timestamp),
                         Seconds(Seen(t.events))))
  }

  /** With the log in time order and the clock past its last event, the
      reported time with appointments is non-negative and never exceeds the
      reported watching time. */
  lemma StatsWithinWatch(t: Tables, now: int)
    requires t.events != [] && NonDecreasing(t.events) && t.events[|t.events| - 1].timestamp <= now
    ensures var r := StatsText(t, now).value;
            0 <= r.seenAppointments <= r.watchingFor
  {
    SeenBounds(t.events);
    SecondsMonotone(0, Seen(t.events));
    SecondsMonotone(Seen(t.events), now - t.events[0].timestamp);
  }

  /** Rounding down to whole seconds keeps the order of durations. */
  lemma SecondsMonotone(a: int, b: int)
    requires a <= b
    ensures Seconds(a) <= Seconds(b)
  {
  }

  /** `on_command` and the handlers it dispatches to.  `pending` says the
      sender's row was added in this session and not flushed yet; the
      queries of `/stats` flush it. */
  function OnCommand(t: Tables, chatId: int, text: string, now: int,
                     answer: nat -> SendOutcome, k: nat, pending: bool): (e: Effect)
    ensures e.tables.events == t.events && e.tables.lastUpdate == t.lastUpdate
    ensures |e.sends| <= 1 && forall m :: m in e.sends ==> m.chatId == chatId
    ensures e.sends == [] ==> e.failed
  {
    match Dispatch(Command(text))
    case Start => Reply(t, chatId, Greetings, answer, k, pending)
    case HelpCommand => Reply(t, chatId, Help, answer, k, pending)
    case TermsCommand => Reply(t, chatId, Terms, answer, k, pending)
    case Subscribe =>
      Reply(t.(users := SetSubscribed(t.users, chatId, true)), chatId, SubscribedText, answer, k, pending)
    case Unsubscribe =>
      Reply(t.(users := SetSubscribed(t.users, chatId, false)), chatId, UnsubscribedText, answer, k, pending)
    case Stats =>
      (match StatsText(t, now)
       case None => Effect(t, [], true)
       case Some(statistics) => Reply(t, chatId, statistics, answer, k, false))
    case Unknown => Reply(t, chatId, UnknownCommand, answer, k, pending)
  }

  predicate IsCommand(text: string) {
    |text| > 0 && text[0] == '/'
  }

  /** `on_message`: the sender's row is created on first contact, then text
      starting with '/' goes to `on_command` and any other text gets the
      "don't understand" reply.  A message without text raises.  A row
      created here stays pending until the next query. */
  function OnMessage(t: Tables, m: ChatMessage, now: int,
                     answer: nat -> SendOutcome, k: nat): (e: Effect)
    ensures e.tables.events == t.events && e.tables.lastUpdate == t.lastUpdate
    ensures |e.sends| <= 1 && forall msg :: msg in e.sends ==> msg.chatId == m.chatId
  {
    var pending := !Known(t.users, m.chatId);
    var t1 := t.(users := EnsureUser(t.users, m.chatId));
    match m.text
    case None => Effect(t1, [], true)
    case Some(text) =>
      if IsCommand(text) then OnCommand(t1, m.chatId, text, now, answer, k, pending)
      else Reply(t1, m.chatId, DontUnderstand, answer, k, pending)
  }

  /** Creating the sender's row keeps the chat ids unique. */
  lemma EnsureUserKeepsUnique(users: seq<User>, chatId: int)
    requires UniqueChatIds(users)
    ensures UniqueChatIds(EnsureUser(users, chatId))
  {
    var r := EnsureUser(users, chatId);
    if !Known(users, chatId) {
      forall a, b | 0 <= a < b < |r| ensures r[a].chatId != r[b].chatId {
        if b == |users| {
          assert r[a] == users[a];
        }
      }
    }
  }

  /** Every command keeps the chat ids unique. */
  lemma OnCommandKeepsUnique(t: Tables, chatId: int, text: string, now: int, answer: nat -> SendOutcome, k: nat,
                             pending: bool)
    requires UniqueChatIds(t.users)
    ensures UniqueChatIds(OnCommand(t, chatId, text, now, answer, k, pending).tables.users)
  {
    match Dispatch(Command(text))
    case Subscribe =>
      assert UniqueChatIds(SetSubscribed(t.users, chatId, true));
      WithoutKeepsUnique(SetSubscribed(t.users, chatId, true), {chatId});
    case Unsubscribe =>
      assert UniqueChatIds(SetSubscribed(t.users, chatId, false));
      WithoutKeepsUnique(SetSubscribed(t.users, chatId, false), {chatId});
    case _ =>
      WithoutKeepsUnique(t.users, {chatId});
  }

  /** Handling a message keeps the chat ids of the users table unique: a
      row is only added for an unknown chat, and subscription changes and
      deletions keep the ids. */
  lemma OnMessageKeepsUnique(t: Tables, m: ChatMessage, now: int, answer: nat -> SendOutcome, k: nat)
    requires UniqueChatIds(t.users)
    ensures UniqueChatIds(OnMessage(t, m, now, answer, k).tables.users)
  {
    var t1 := t.(users := EnsureUser(t.users, m.chatId));
    EnsureUserKeepsUnique(t.users, m.chatId);
    if m.text.Some? {
      if IsCommand(m.text.value) {
        OnCommandKeepsUnique(t1, m.chatId, m.text.value, now, answer, k, !Known(t.users, m.chatId));
      } else {
        WithoutKeepsUnique(t1.users, {m.chatId});
      }
    }
  }

  /** A message from an unknown chat adds exactly one row, unsubscribed,
      before anything is dispatched; other rows are kept. */
  lemma FirstContact(t: Tables, m: ChatMessage, now: int, answer: nat -> SendOutcome, k: nat)
    requires !Known(t.users, m.chatId)
    requires m.text.Some? && !IsCommand(m.text.value) && answer(k) == Delivered
    ensures OnMessage(t, m, now, answer, k)
         == Effect(t.(users := t.users + [User(m.chatId, false)]), [Message(m.chatId, DontUnderstand)], false)
  {
  }

  /** A delivered `/subscribe` (or `/unsubscribe`) leaves the sender's row
      subscribed (unsubscribed), keeps every chat id and every other row, and
      replies once; the sender's row exists afterwards even on first
      contact. */
  lemma SubscriptionCommand(t: Tables, m: ChatMessage, now: int, answer: nat -> SendOutcome, k: nat)
    requires m.text.Some? && Dispatch(Command(m.text.value)) in {Subscribe, Unsubscribe}
    requires answer(k) == Delivered
    ensures var e := OnMessage(t, m, now, answer, k);
            var flag := Dispatch(Command(m.text.value)) == Subscribe;
            var before := EnsureUser(t.users, m.chatId);
            && !e.failed
            && e.sends == [Message(m.chatId, if flag then SubscribedText else UnsubscribedText)]
            && |e.tables.users| == |before|
            && (forall i :: 0 <= i < |before| ==> e.tables.users[i].chatId == before[i].chatId)
            && (forall i :: 0 <= i < |before| && before[i].chatId != m.chatId ==> e.tables.users[i] == before[i])
            && (exists i :: 0 <= i < |before| && e.tables.users[i] == User(m.chatId, flag))
  {
    var text := m.text.value;
    assert text != [] by {
      assert Command([]) == [];
    }
    assert IsCommand(text) by {
      assert Command(text) <= text;
    }
    var before := EnsureUser(t.users, m.chatId);
    var flag := Dispatch(Command(text)) == Subscribe;
    var t1 := t.(users := before);
    var users := SetSubscribed(before, m.chatId, flag);
    var reply := if flag then SubscribedText else UnsubscribedText;
    var pending := !Known(t.users, m.chatId);
    assert OnMessage(t, m, now, answer, k) == OnCommand(t1, m.chatId, text, now, answer, k, pending);
    assert OnCommand(t1, m.chatId, text, now, answer, k, pending)
        == Reply(t1.(users := users), m.chatId, reply, answer, k, pending);
    var i :| 0 <= i < |before| && before[i].chatId == m.chatId;
    assert users[i] == User(m.chatId, flag);
  }

  /** A chat that blocked the bot is deleted when a reply to it is
      rejected, once its row has been stored. */
  lemma KnownRejectedIsDeleted(t: Tables, m: ChatMessage, now: int, answer: nat -> SendOutcome, k: nat)
    requires Known(t.users, m.chatId) && m.text.Some? && answer(k) == Unauthorized
    requires !(IsCommand(m.text.value) && Dispatch(Command(m.text.value)) == Stats && t.events == [])
    ensures var e := OnMessage(t, m, now, answer, k);
            !e.failed && !Known(e.tables.users, m.chatId) && e.sends != []
  {
    var e := OnMessage(t, m, now, answer, k);
    assert forall u :: u in e.tables.users ==> u.chatId != m.chatId;
  }

  /** A first message from a chat whose reply is rejected fails: the new
      row is still pending, and deleting it is refused.  Only `/stats`,
      whose queries store the row first, deletes it. */
  lemma RejectedOnFirstContact(t: Tables, m: ChatMessage, now: int, answer: nat -> SendOutcome, k: nat)
    requires !Known(t.users, m.chatId) && m.text.Some? && answer(k) == Unauthorized
    requires !(IsCommand(m.text.value) && Dispatch(Command(m.text.value)) == Stats)
    ensures var e := OnMessage(t, m, now, answer, k);
            e.failed && |e.sends| == 1 && Known(e.tables.users, m.chatId)
  {
    var users := EnsureUser(t.users, m.chatId);
    assert users[|t.users|].chatId == m.chatId;
  }

  /** A command word without spaces is dispatched on as a whole. */
  lemma {:induction false} WholeWord(text: string)
    requires ' ' !in text
    ensures Command(text) == text
    decreases |text|
  {
    if text != [] {
      WholeWord(text[1..]);
    }
  }

  /** The fixed reply of every handler but `/stats`. */
  function FixedReply(h: Handler): Text
    requires h != Stats
  {
    match h
    case Start => Greetings
    case HelpCommand => Help
    case TermsCommand => Terms
    case Subscribe => SubscribedText
    case Unsubscribe => UnsubscribedText
    case Unknown => UnknownCommand
  }

  /** A delivered command other than `/stats` gets its handler's reply. */
  lemma CommandReply(t: Tables, chatId: int, text: string, now: int, answer: nat -> SendOutcome, k: nat)
    requires IsCommand(text) && Dispatch(Command(text)) != Stats && answer(k) == Delivered
    ensures OnMessage(t, ChatMessage(chatId, Some(text)), now, answer, k).sends
         == [Message(chatId, FixedReply(Dispatch(Command(text))))]
  {
  }

  /** The command words the bot knows, dispatched as the command tests
      expect. */
  lemma CommandWords(text: string)
    ensures text == "/start" ==> Dispatch(Command(text)) == Start
    ensures text == "/help" ==> Dispatch(Command(text)) == HelpCommand
    ensures text == "/terms" ==> Dispatch(Command(text)) == TermsCommand
    ensures text == "/subscribe" ==> Dispatch(Command(text)) == Subscribe
    ensures text == "/unsubscribe" ==> Dispatch(Command(text)) == Unsubscribe
    ensures text == "/stats" ==> Dispatch(Command(text)) == Stats
  {
    if ' ' !in text {
      WholeWord(text);
    }
  }

  /** A command word the bot does not know goes to the unknown-command reply. */
  lemma UnknownWord(text: string)
    ensures text == "/someunexistentcommand" ==> Dispatch(Command(text)) == Unknown
  {
    if ' ' !in text {
      WholeWord(text);
    }
  }

  /** Text that does not start with '/' gets the "don't understand" reply. */
  lemma PlainTextReply(t: Tables, chatId: int, text: string, now: int, answer: nat -> SendOutcome, k: nat)
    requires !IsCommand(text) && answer(k) == Delivered
    ensures OnMessage(t, ChatMessage(chatId, Some(text)), now, answer, k).sends == [Message(chatId, DontUnderstand)]
    ensures !OnMessage(t, ChatMessage(chatId, Some(text)), now, answer, k).failed
  {
  }

  /** `/stats` on an empty event log raises and sends nothing (the command
      test expects a reply with zero durations instead). */
  lemma StatsOnEmptyLog(t: Tables, chatId: int, text: string, now: int, answer: nat -> SendOutcome, k: nat)
    requires t.events == [] && IsCommand(text) && Dispatch(Command(text)) == Stats
    ensures OnMessage(t, ChatMessage(chatId, Some(text)), now, answer, k).failed
    ensures OnMessage(t, ChatMessage(chatId, Some(text)), now, answer, k).sends == []
  {
  }

  /** The poll offset: one past the stored update id, or none without a cursor. */
  function PollOffset(lastUpdate: Option<int>): (offset: Option<int>)
    ensures offset.None? <==> lastUpdate.None?
    ensures offset.Some? ==> offset.value == lastUpdate.value + 1
  {
    match lastUpdate
    case None => None
    case Some(id) => Some(id + 1)
  }

  /** What the update loop does with a message, given the session's
      tables and the number of send attempts so far. */
  type MessageHandler = (Tables, ChatMessage, nat) -> Effect

  /** `on_message` at clock reading `now`, as the update loop's handler. */
  function OnMessageHandler(now: int, answer: nat -> SendOutcome): MessageHandler
  {
    (t: Tables, m: ChatMessage, k: nat) => OnMessage(t, m, now, answer, k)
  }

  /** A handler that leaves the update cursor where it is. */
  ghost predicate KeepsCursor(handle: MessageHandler) {
    forall t, m, k :: handle(t, m, k).tables.lastUpdate == t.lastUpdate
  }

  /** The loop over the polled updates.  `durable` is what has been
      committed so far: creating the cursor row commits the session at once. */
  function HandleUpdates(t: Tables, durable: Tables, updates: seq<Update>, handle: MessageHandler, k: nat): Tick
    decreases |updates|
  {
    if updates == [] then Tick(Completed(t), [])
    else
      var u := updates[0];
      var t1 := t.(lastUpdate := Some(u.updateId));
      var durable1 := if t.lastUpdate.None? then t1 else durable;
      match u.message
      case None => HandleUpdates(t1, durable1, updates[1..], handle, k)
      case Some(m) =>
        var e := handle(t1, m, k);
        if e.failed then Tick(Raised(Failure, durable1), e.sends)
        else
          var rest := HandleUpdates(e.tables, durable1, updates[1..], handle, k + |e.sends|);
          Tick(rest.outcome, e.sends + rest.sends)
  }

  /** The loop over the updates from update `j` on, one update at a time. */
  lemma HandleUpdatesStep(t: Tables, durable: Tables, updates: seq<Update>, j: nat, handle: MessageHandler, k: nat)
    requires j < |updates|
    ensures var u := updates[j];
            var t1 := t.(lastUpdate := Some(u.updateId));
            var durable1 := if t.lastUpdate.None? then t1 else durable;
            var here := HandleUpdates(t, durable, updates[j..], handle, k);
            && (u.message.None? ==> here == HandleUpdates(t1, durable1, updates[j + 1..], handle, k))
            && (u.message.Some? ==>
                  var e := handle(t1, u.message.value, k);
                  && (e.failed ==> here == Tick(Raised(Failure, durable1), e.sends))
                  && (!e.failed ==>
                        var rest := HandleUpdates(e.tables, durable1, updates[j + 1..], handle, k + |e.sends|);
                        here == Tick(rest.outcome, e.sends + rest.sends)))
  {
    assert updates[j..][1..] == updates[j + 1..];
  }

  /** A tick seen part way through the updates: what was sent so far,
      followed by the rest of the loop, is the whole tick. */
  predicate Resumes(whole: Tick, sends: seq<Message>, rest: Tick) {
    whole.outcome == rest.outcome && whole.sends == sends + rest.sends
  }

  /** Taking update `j` of a tick seen part way: a failing handler ends the
      tick there, otherwise the tick resumes at update `j + 1` with the
      handler's sends added to what was sent. */
  lemma HandleAdvance(t: Tables, durable: Tables, updates: seq<Update>, j: nat, handle: MessageHandler, k: nat,
                      whole: Tick, sends: seq<Message>)
    requires j < |updates|
    requires Resumes(whole, sends, HandleUpdates(t, durable, updates[j..], handle, k))
    ensures var u := updates[j];
            var t1 := t.(lastUpdate := Some(u.updateId));
            var durable1 := if t.lastUpdate.None? then t1 else durable;
            && (u.message.None? ==> Resumes(whole, sends, HandleUpdates(t1, durable1, updates[j + 1..], handle, k)))
            && (u.message.Some? ==>
                  var e := handle(t1, u.message.value, k);
                  && (e.failed ==> whole.outcome == Raised(Failure, durable1) && whole.sends == sends + e.sends)
                  && (!e.failed ==>
                        Resumes(whole, sends + e.sends,
                                HandleUpdates(e.tables, durable1, updates[j + 1..], handle, k + |e.sends|))))
  {
    HandleUpdatesStep(t, durable, updates, j, handle, k);
    var u := updates[j];
    if u.message.Some? {
      var t1 := t.(lastUpdate := Some(u.updateId));
      var durable1 := if t.lastUpdate.None? then t1 else durable;
      var e := handle(t1, u.message.value, k);
      if !e.failed {
        var rest := HandleUpdates(e.tables, durable1, updates[j + 1..], handle, k + |e.sends|);
        AppendAssociates(sends, e.sends, rest.sends);
      }
    }
  }

  /** One tick of the interactive loop, given what the poll returned. */
  function Interact(t: Tables, polled: PollResult, now: int, answer: nat -> SendOutcome, k: nat): Tick {
    match polled
    case TimedOut => Tick(Completed(t), [])
    case PollFailed => Tick(Raised(Failure, t), [])
    case Updates(updates) => HandleUpdates(t, t, updates, OnMessageHandler(now, answer), k)
  }

  /** After a tick that completes, the cursor holds the last update's id,
      or is unchanged when there was none. */
  lemma {:induction false} CursorFollowsUpdates(t: Tables, durable: Tables, updates: seq<Update>, now: int,
                                                answer: nat -> SendOutcome, k: nat)
    ensures var r := HandleUpdates(t, durable, updates, OnMessageHandler(now, answer), k);
            r.outcome.Completed? ==>
              r.outcome.next.lastUpdate
                == (if updates == [] then t.lastUpdate else Some(updates[|updates| - 1].updateId))
    decreases |updates|, 1
  {
    if updates != [] {
      var u := updates[0];
      var t1 := t.(lastUpdate := Some(u.updateId));
      var durable1 := if t.lastUpdate.None? then t1 else durable;
      if u.message.None? {
        CursorFollowsUpdates(t1, durable1, updates[1..], now, answer, k);
        if |updates| > 1 {
          assert updates[1..][|updates| - 2] == updates[|updates| - 1];
        }
      } else {
        CursorAfterMessage(t, durable, updates, now, answer, k);
      }
    }
  }

  /** The step of `CursorFollowsUpdates` for an update that carries a message. */
  lemma {:induction false} CursorAfterMessage(t: Tables, durable: Tables, updates: seq<Update>, now: int,
                                              answer: nat -> SendOutcome, k: nat)
    requires updates != [] && updates[0].message.Some?
    ensures var r := HandleUpdates(t, durable, updates, OnMessageHandler(now, answer), k);
            r.outcome.Completed? ==> r.outcome.next.lastUpdate == Some(updates[|updates| - 1].updateId)
    decreases |updates|, 0
  {
    if |updates| > 1 {
      var t1 := t.(lastUpdate := Some(updates[0].updateId));
      var durable1 := if t.lastUpdate.None? then t1 else durable;
      var e := OnMessage(t1, updates[0].message.value, now, answer, k);
      assert OnMessageHandler(now, answer)(t1, updates[0].message.value, k) == e;
      if !e.failed {
        CursorFollowsUpdates(e.tables, durable1, updates[1..], now, answer, k + |e.sends|);
        assert updates[1..][|updates| - 2] == updates[|updates| - 1];
      }
    }
  }

  /** The interactive tick never touches the events table. */
  lemma {:induction false} EventsUntouched(t: Tables, durable: Tables, updates: seq<Update>, now: int,
                                           answer: nat -> SendOutcome, k: nat)
    ensures var r := HandleUpdates(t, durable, updates, OnMessageHandler(now, answer), k);
            r.outcome.Completed? ==> r.outcome.next.events == t.events
    decreases |updates|
  {
    if updates != [] {
      var u := updates[0];
      var t1 := t.(lastUpdate := Some(u.updateId));
      var durable1 := if t.lastUpdate.None? then t1 else durable;
      if u.message.None? {
        EventsUntouched(t1, durable1, updates[1..], now, answer, k);
      } else {
        var e := OnMessage(t1, u.message.value, now, answer, k);
        assert OnMessageHandler(now, answer)(t1, u.message.value, k) == e;
        if !e.failed {
          EventsUntouched(e.tables, durable1, updates[1..], now, answer, k + |e.sends|);
        }
      }
    }
  }

  /** Updates without a message only move the cursor: nothing is sent and
      nothing else changes. */
  lemma {:induction false} SilentUpdates(t: Tables, durable: Tables, updates: seq<Update>, handle: MessageHandler, k: nat)
    requires forall i :: 0 <= i < |updates| ==> updates[i].message.None?
    ensures HandleUpdates(t, durable, updates, handle, k)
         == Tick(Completed(if updates == [] then t
                           else t.(lastUpdate := Some(updates[|updates| - 1].updateId))), [])
    decreases |updates|
  {
    if updates != [] {
      var t1 := t.(lastUpdate := Some(updates[0].updateId));
      var durable1 := if t.lastUpdate.None? then t1 else durable;
      SilentUpdates(t1, durable1, updates[1..], handle, k);
    }
  }

  /** What survives a tick that raises: the committed tables as they were,
      except that a tick which created the cursor row has committed the
      session with the cursor at the first update. */
  lemma {:induction false} RaisedKeepsCommitted(t: Tables, durable: Tables, updates: seq<Update>,
                                                handle: MessageHandler, k: nat)
    requires KeepsCursor(handle)
    ensures var r := HandleUpdates(t, durable, updates, handle, k);
            r.outcome.Raised? ==>
              && r.outcome.e == Failure
              && r.outcome.durable == (if t.lastUpdate.None? then t.(lastUpdate := Some(updates[0].updateId))
                                       else durable)
    decreases |updates|
  {
    if updates != [] {
      var u := updates[0];
      var t1 := t.(lastUpdate := Some(u.updateId));
      var durable1 := if t.lastUpdate.None? then t1 else durable;
      if u.message.None? {
        RaisedKeepsCommitted(t1, durable1, updates[1..], handle, k);
      } else {
        var e := handle(t1, u.message.value, k);
        if !e.failed {
          RaisedKeepsCommitted(e.tables, durable1, updates[1..], handle, k + |e.sends|);
        }
      }
    }
  }

  /** What the interactive tick commits on its own: the session with the
      cursor row created at the first update, when there was no row. */
  function Committed(t: Tables, polled: PollResult): Tables {
    if t.lastUpdate.None? && polled.Updates? && polled.updates != [] then
      t.(lastUpdate := Some(polled.updates[0].updateId))
    else t
  }

  /** A timed-out poll ends the tick with no change and nothing sent. */
  lemma TimedOutChangesNothing(t: Tables, now: int, answer: nat -> SendOutcome, k: nat)
    ensures Interact(t, TimedOut, now, answer, k) == Tick(Completed(t), [])
  {
  }
}
