# netherappbot in Dafny

netherappbot is a Telegram bot. It watches the appointment page of the
Dutch visa application centre and tells its subscribers when appointments
appear or disappear. Three loops run side by side over one SQL database
with three tables:

- the **watching loop** walks the booking site's three-page form every five
  seconds. It classifies the result label as "appointments" or "no dates".
  It appends an `AppointmentEvent` only when availability changes. The very
  first observation is always appended, and it is queued for notification
  only when it says "appointments".
- the **notification loop** takes the first event not yet notified. It
  sends its text to every subscribed user and then marks it sent.
- the **interactive loop** long-polls Telegram for updates. It keeps a
  cursor row (`LastUpdate`) and dispatches each message to `on_message`.
  From there it goes to the command handlers `/start`, `/help`, `/terms`,
  `/subscribe`, `/unsubscribe` and `/stats`, or to the unknown-command and
  plain-text replies.

Every loop body runs inside the `loop` decorator. Each tick gets a fresh
session. A tick that returns is committed and followed by a sleep of the
loop's interval. The watching loop retries at once after a
`ConnectionError`. Any other exception ends the loop and sets the shared
`shutdown` flag. The repository ships two copies of the bot:

- the packaged `netherappbot/bot.py`, whose decorator swallows a
  `KeyboardInterrupt`;
- the standalone `netherappbot.py`, whose decorator lets it propagate.

The model has one Dafny module per part of the program:

- `Schema` holds the rows, the tables, the exceptions and the texts.
- `Classifier` is the result label and the availability decision.
- `Form` is `extract_form_data` and the keys each POST adds.
- `Navigator` is the three-request walk.
- `Watch` is the deduplicating event log.
- `Delivery` is `reply` and its user-table operations.
- `Notify` is the notification tick.
- `Chat` covers `on_message`, `on_command`, the handlers, `on_stats` and
  the update loop.
- `Loop` is the decorator as a function over a run of ticks.
- `Bot` holds three classes. `Messenger` is the Telegram client, `Session`
  is a database session and `Bot` is the bot object. Bot's methods update
  the session and the committed tables in place. Each is proved against the
  functions of the other modules.

Everything outside the program is a parameter:

- the Telegram answer to the k-th `send_message` of a run;
- the n-th poll;
- the site's answer to each request;
- the clock reading of each tick.

Timestamps are integer microseconds.

## Model

| member | source | states |
|---|---|---|
| Classifier.Response | netherappbot/bot.py:285-287 | The message label's text wins when it is non-empty; otherwise the details label's text is used. A missing element that the expression dereferences raises. |
| Classifier.HaveAppointments | netherappbot/bot.py:297-298 | "No appointments" holds exactly when the response equals the site's "No date(s) available for appointment." message. A missing or empty text counts as available. |
| Classifier.ClassifyLabels | netherappbot/bot.py:285-298 | A successful read of the two labels means "no appointments" exactly when the non-empty message label, or else the details label, carries the no-dates text. |
| Classifier.BlankLabelsMeanAvailable | netherappbot/bot.py:285-298 | Two present labels with no text are read without error and classified as available. |
| Form.ExtractFields | netherappbot/bot.py:258-266 | The extracted dictionary never holds the cancel or back button names. |
| Form.ExtractFieldsKeys | netherappbot/bot.py:260-265 | A name is a key exactly when some input carries it and it is not an excluded button. |
| Form.ExtractFieldsLastWins | netherappbot/bot.py:260-265 | When several inputs share a name, the value of the last one is kept. |
| Form.WithPostback | netherappbot/bot.py:272-273 | The first POST carries the extracted fields plus the postback target (the schedule link) and an empty argument. Every other field is unchanged. |
| Form.WithApplication | netherappbot/bot.py:278-281 | The second POST carries the extracted fields plus one applicant and visa category 898. Every other field is unchanged. |
| Navigator.Navigate | netherappbot/bot.py:270-287 | The walk always starts with a GET of the welcome page and makes at most three requests. A result needs all three. Every request before the last was answered with a page. The first POST goes to the welcome form's action and carries exactly that form's extracted fields plus the postback keys. The second goes to the next form's action with its fields plus the application keys. Neither ever carries an excluded button. A third page that loads yields the result read from its two labels. A connection error comes only from the transport. |
| Watch.Observe | netherappbot/bot.py:290-306 | On an empty log the observation is appended with `notification_sent` equal to "no appointments", so only a first "appointments" is notified. A change of availability appends an unsent event. No change leaves the log alone. |
| Watch.ObserveKeepsInvariants | netherappbot/bot.py:290-306 | One observation at a later clock reading keeps the log alternating and chronological, and leaves it non-empty and no later than the reading. |
| Watch.WatchShape | netherappbot/bot.py:290-306 | From an empty log, a run of observations yields one event per change of availability plus the first. The first event records the first observation with the first-run flag. Every later event is queued. The last event agrees with the last observation. |
| Watch.WatchOrdered | netherappbot/bot.py:290-306 | From an empty log, observations at increasing times give an alternating, chronological log that ends no later than the last observation. |
| Watch.WatchFromEmpty | netherappbot/bot.py:290-306 | WatchShape and WatchOrdered combined, for a run of watching ticks. |
| Watch.WatchTick | netherappbot/bot.py:268-306 | Defines one watching tick: walk the site, classify the result and observe it at the tick's clock reading. A raise leaves the tables alone. It has no contract of its own; `Bot.Bot.WatchingTick` is proved against it, and `Watch.WatchFromEmpty` states what a run of successful ticks builds. |
| Delivery.Subscribers | netherappbot/bot.py:246-247 | The subscribed users are exactly the users whose flag is set, and there are no more of them than users. |
| Delivery.Without | netherappbot/bot.py:404-405 | After the deletion, a user is present exactly when it was present and its chat id was not deleted. |
| Delivery.WithoutKeepsUnique | netherappbot/bot.py:404-405 | Deleting users keeps chat ids unique. |
| Delivery.WithoutNothing | netherappbot/bot.py:404-405 | Deleting no chat id leaves the table unchanged. |
| Delivery.WithoutWithout | netherappbot/bot.py:404-405 | Two deletions in a row equal one deletion of the union. |
| Delivery.Messages | netherappbot/bot.py:246-248 | The fan-out makes one send per recipient, in order, to that recipient's chat. |
| Delivery.Reply | netherappbot/bot.py:399-405 | Each reply makes exactly one send. Unauthorized deletes exactly that user, unless the row is still pending in the session. Deleting a pending row is refused and raises, as does any other failure, with the tables unchanged. Delivery changes nothing. Events and cursor are never touched. |
| Notify.FirstUnsent | netherappbot/bot.py:238-241 | The result is absent exactly when every event is notified; otherwise it is the first pending event. |
| Notify.MarkSentCount | netherappbot/bot.py:250 | Marking a pending event sent shrinks the backlog by exactly one. |
| Notify.MarkSentKeepsLog | netherappbot/bot.py:250 | Marking an event sent changes neither the alternation nor the time order of the log, nor whether the next observation appends an event. |
| Notify.NoticeText | netherappbot/bot.py:243-244 | The text is "appointments available" exactly when the event says so, and "no more appointments" exactly otherwise. |
| Notify.Fanout | netherappbot/bot.py:246-248 | The fan-out leaves events and cursor as they were. |
| Notify.FanoutFails | netherappbot/bot.py:246-248 | The fan-out fails exactly when some recipient's send fails with an exception other than Unauthorized. It then stops at that recipient: its sends are a prefix of the full send list, ending with the failed one. |
| Notify.FanoutDelivers | netherappbot/bot.py:246-248 | Without a failure, every recipient gets exactly one attempt, in order. Exactly the recipients that answered Unauthorized are deleted. |
| Notify.NotifyIdle | netherappbot/bot.py:238-241 | With nothing pending, the tick sends nothing and changes nothing. |
| Notify.NotifyDelivers | netherappbot/bot.py:236-250 | With a pending event, every subscriber is sent the event's text. A completed tick marks exactly that event sent and deletes exactly the users that rejected the bot. A failing send raises and sends to no later subscriber. |
| Notify.NotifyKeepsUnique | netherappbot/bot.py:236-250 | A completed notification tick keeps chat ids unique. |
| Notify.Notify | netherappbot/bot.py:236-250 | Defines one notification tick as a value: the first pending event, the fan-out of its text to the subscribers, and the event marked sent. It has no contract of its own; `Notify.NotifyIdle`, `Notify.NotifyDelivers` and `Notify.NotifyKeepsUnique` state its behaviour. |
| Chat.Command | netherappbot/bot.py:329 | The command is the longest prefix of the text without a space, ending at the first space if there is one. |
| Chat.WholeWord | netherappbot/bot.py:329 | A text with no space is its own command word. |
| Chat.CommandWords | netherappbot/tests/test_commands.py:100-160 | `/start`, `/help`, `/terms`, `/subscribe`, `/unsubscribe` and `/stats` reach their handlers, as the command tests send them. |
| Chat.UnknownWord | netherappbot/tests/test_commands.py:163-170 | An unknown command word reaches the unknown-command handler. |
| Chat.EnsureUser | netherappbot/bot.py:318-321 | Afterwards the sender is known. A known sender leaves the table unchanged. An unknown sender gets one unsubscribed row appended. |
| Chat.SetSubscribed | netherappbot/bot.py:354-362 | Only the sender's flag changes, to the requested value. Chat ids, order and every other row are kept. |
| Chat.SeenSnoc | netherappbot/bot.py:370-378 | Each later event closes the interval since the previous event, counted only when that event saw appointments. This is the accumulation step of `on_stats`. |
| Chat.SeenBounds | netherappbot/bot.py:370-378 | With non-decreasing timestamps, the time with appointments is non-negative and at most the span of the log. |
| Chat.Seconds | netherappbot/bot.py:380-384 | The result is the whole number of seconds in a duration, rounded down. |
| Chat.StatsText | netherappbot/bot.py:364-391 | The statistics are absent exactly when the log is empty. Otherwise the reply counts exactly the subscribed users. It reports the whole seconds since the first event as the watching time and the whole seconds of `Seen` as the time with appointments. |
| Chat.StatsWithinWatch | netherappbot/bot.py:364-391 | With the log in time order and the clock past its last event, the reported time with appointments is non-negative and at most the reported watching time. |
| Chat.SecondsMonotone | netherappbot/bot.py:380-384 | Rounding down to whole seconds keeps the order of two durations. |
| Chat.Seen | netherappbot/bot.py:370-378 | Defines the accumulated time with appointments: each interval between consecutive events counts when its earlier event saw appointments. It has no contract of its own; `Chat.SeenSnoc` ties it to the loop of `on_stats` and `Chat.SeenBounds` bounds it. |
| Chat.Dispatch | netherappbot/bot.py:329-343 | Defines the if-chain from the command word to its handler. It has no contract of its own; `Chat.CommandWords` and `Chat.UnknownWord` state the dispatch of the words the tests use. |
| Chat.OnCommand | netherappbot/bot.py:328-397 | A command leaves events and cursor alone and sends at most one reply, to the sender. It sends nothing only when it fails. The sender's row counts as pending for every handler except `/stats`, whose queries flush it. |
| Chat.OnMessage | netherappbot/bot.py:308-326 | Handling a message leaves events and cursor alone and sends at most one reply, to the sender's chat. A row it creates is pending for the reply. |
| Chat.EnsureUserKeepsUnique | netherappbot/bot.py:318-321 | Creating the sender's row keeps chat ids unique. |
| Chat.OnCommandKeepsUnique | netherappbot/bot.py:328-405 | Every command handler keeps chat ids unique. |
| Chat.OnMessageKeepsUnique | netherappbot/bot.py:308-326 | Handling any message keeps chat ids unique. |
| Chat.FirstContact | netherappbot/bot.py:318-326 | A plain message from an unknown chat adds exactly one unsubscribed row and is answered with "don't understand". |
| Chat.RejectedOnFirstContact | netherappbot/bot.py:318-326 | A first message whose reply is answered Unauthorized, other than `/stats`, fails after one send. The new row is still pending and the session refuses to delete it. The row stays in the session. |
| Chat.KnownRejectedIsDeleted | netherappbot/bot.py:399-405 | For a sender whose row is stored, an Unauthorized answer deletes the row and the tick carries on. The exception is `/stats` on an empty log, which fails first. |
| Chat.SubscriptionCommand | netherappbot/bot.py:354-362 | A delivered `/subscribe` or `/unsubscribe` leaves the sender's row with the requested flag, even on first contact. It keeps every chat id and every other row, and replies once with the matching text. |
| Chat.CommandReply | netherappbot/bot.py:328-352 | A delivered command other than `/stats` is answered with its handler's fixed text. |
| Chat.PlainTextReply | netherappbot/bot.py:323-326 | Text that does not start with '/' is answered "don't understand" without failure. |
| Chat.StatsOnEmptyLog | netherappbot/bot.py:367-380 | `/stats` on an empty event log fails and sends nothing. |
| Chat.PollOffset | netherappbot/bot.py:211-215 | Without a cursor there is no offset. With one, the offset is one past the stored update id. |
| Chat.HandleAdvance | netherappbot/bot.py:222-234 | The update loop, seen part way, moves forward one update at a time. The cursor takes the update's id and the row is created and committed on first use. An update without a message continues. A failing handler ends the tick with the committed tables. |
| Chat.CursorFollowsUpdates | netherappbot/bot.py:222-234 | After a tick that completes, the cursor holds the last update's id, or is unchanged when there were no updates. |
| Chat.CursorAfterMessage | netherappbot/bot.py:222-234 | After a tick that completes and whose first update carries a message, the cursor holds the last update's id. |
| Chat.EventsUntouched | netherappbot/bot.py:222-234 | The interactive tick never changes the events table. |
| Chat.SilentUpdates | netherappbot/bot.py:222-232 | Updates without messages send nothing and only move the cursor, creating it when it was missing. |
| Chat.RaisedKeepsCommitted | netherappbot/bot.py:222-229 | A tick that raises leaves the committed tables as they were, except for the cursor row created and committed at the first update when there was none. |
| Chat.TimedOutChangesNothing | netherappbot/bot.py:217-220 | A timed-out poll ends the tick with no change and nothing sent. |
| Chat.HandleUpdates | netherappbot/bot.py:222-234 | Defines the update loop as a value: the cursor moves to each update, its row is created and committed at the first update when missing, and the message is handled. It has no contract of its own; `Chat.HandleAdvance`, `Chat.CursorFollowsUpdates`, `Chat.EventsUntouched`, `Chat.SilentUpdates` and `Chat.RaisedKeepsCommitted` state its properties. |
| Chat.Interact | netherappbot/bot.py:211-234 | Defines one interactive tick from what the poll returned. It has no contract of its own; `Chat.TimedOutChangesNothing` covers a time-out, and `Bot.Bot.InteractiveTick` is proved against it. |
| Chat.Committed | netherappbot/bot.py:223-227 | Defines what the interactive tick commits by itself: the cursor row created at the first update when there was none. It has no contract of its own; `Chat.RaisedKeepsCommitted` and `Bot.Bot.InteractiveTick` use it. |
| Loop.DriveBounds | netherappbot/bot.py:167-195 | No more ticks start than the flag allows. A propagated exception is one the loop does not ignore. The packaged copy never propagates a KeyboardInterrupt. A standalone run that stops normally ran every allowed tick. Without `ignore` the loop never retries. |
| Loop.After | netherappbot/bot.py:172-187 | Defines what the wrapper does after one tick: commit and sleep, ending on an interrupt during the sleep; retry at once after an ignored exception; end on any other. It has no contract of its own; `Loop.Advance` and `Bot.Bot.Iteration` use it. |
| Loop.Drive | netherappbot/bot.py:167-195 | Defines the wrapper's loop as a run of ticks with its commits, sleeps, retries, sends and exit. It has no contract of its own; `Loop.DriveBounds`, `Loop.DrivePaced`, `Loop.CopiesAgree`, `Loop.CompletedTicksRunToShutdown` and `Loop.OfflineSiteSpins` state its properties, and `Bot.Bot.Cycle` is proved against it. |
| Loop.Advance | netherappbot/bot.py:172-187 | A run, seen part way, moves forward one tick at a time. A completed tick commits and sleeps unless interrupted. An ignored exception retries. Any other exception ends the run. |
| Loop.ExitOn | netherappbot/bot.py:188-191 | The run stops normally exactly when the packaged copy meets a KeyboardInterrupt. Otherwise the exception itself propagates. |
| Loop.PacedPrefix | netherappbot/bot.py:172-187 | Putting a commit with its sleep, a retry, or nothing in front of a paced trace keeps it paced. |
| Loop.DrivePaced | netherappbot/bot.py:172-187 | Every sleep comes right after a commit and lasts the loop's interval, and every commit is followed by a sleep. |
| Loop.CopiesAgree | netherappbot.py:157-184 | The packaged and standalone copies commit, send and act identically. They differ only where the standalone copy propagates a KeyboardInterrupt that the packaged copy turns into a normal stop. |
| Loop.CompletedTicksRunToShutdown | netherappbot/bot.py:172-191 | Without interrupts, and with every tick completing, the loop runs until the flag is set. It commits and sleeps exactly once per tick. |
| Loop.OfflineSiteSpins | netherappbot/bot.py:268-270 | While the site cannot be reached, the watching loop retries at once. It never commits, sleeps or sends, and stops only when the flag is set. |
| Bot.Interval | netherappbot/bot.py:209-268 | The interactive loop sleeps 0 seconds (`@loop(0)`, line 209) and the notification loop 1 (line 236). The watching loop sleeps `INTERVAL` (line 268), which line 93 sets to 5. |
| Bot.Messenger.SendMessage | netherappbot/bot.py:402-403 | Each call records one send, answered by the channel's answer for that attempt. |
| Bot.Messenger.GetUpdates | netherappbot/bot.py:218 | Each call records one poll with its offset, answered by the channel. |
| Bot.Bot.constructor | netherappbot/bot.py:198-207 | A new bot starts with the flag cleared, the given database and an empty trace. |
| Bot.Session.constructor | netherappbot/bot.py:174 | A fresh session sees exactly the committed tables and has no pending rows. |
| Bot.Bot.Reply | netherappbot/bot.py:399-405 | The session and the sends change exactly as `Delivery.Reply` says. A row counts as pending when the session added it since its last flush. |
| Bot.Bot.OnSubscription | netherappbot/bot.py:354-362 | The sender's flag is set, then the reply is sent as `Delivery.Reply` says. |
| Bot.Bot.OnStats | netherappbot/bot.py:364-391 | The loop's accumulator equals the time with appointments over the events walked so far. An empty log fails with no change. Otherwise the statistics reply is sent. |
| Bot.Bot.OnCommand | netherappbot/bot.py:328-343 | The session and the sends change exactly as `Chat.OnCommand` says. |
| Bot.Bot.OnMessage | netherappbot/bot.py:308-326 | The session and the sends change exactly as `Chat.OnMessage` says. |
| Bot.Bot.HandleMessage | netherappbot/bot.py:234 | The update loop's call of `on_message` behaves as the handler the spec functions use. |
| Bot.Bot.ReplyAll | netherappbot/bot.py:246-248 | The loop over the recipients changes the session and the sends exactly as `Notify.Fanout` says. |
| Bot.Bot.NotificationTick | netherappbot/bot.py:236-250 | The tick sends and changes the session exactly as `Notify.Notify` says, and reports its exception. |
| Bot.Bot.WatchingTick | netherappbot/bot.py:268-306 | The tick changes the session as `Watch.WatchTick` says. A raising tick leaves the session as it was. |
| Bot.Bot.HandleAll | netherappbot/bot.py:222-234 | The update loop changes the session, the sends and the committed tables exactly as `Chat.HandleUpdates` says. The cursor row is committed at the first update when there was none. |
| Bot.Bot.InteractiveTick | netherappbot/bot.py:209-234 | The tick polls once with the offset the committed cursor gives, then handles the updates as `Chat.Interact` says. It commits only the cursor row it creates. |
| Bot.Bot.RunTick | netherappbot/bot.py:209-306 | One tick of the chosen loop behaves as that loop's step function. |
| Bot.Bot.Iteration | netherappbot/bot.py:172-187 | One pass of the wrapper: a tick, then commit and sleep, retry, or end, as `Loop.After` says. |
| Bot.Bot.Cycle | netherappbot/bot.py:172-189 | The wrapper's while loop commits, sends, records its actions and exits exactly as `Loop.Drive` says. |
| Bot.Bot.RunLoop | netherappbot/bot.py:167-195 | A loop started with the flag set does nothing. Otherwise it runs as `Loop.Drive` says. Either way it always leaves the flag set. |

## Left out

- HTTP and HTML are not modelled: `requests`, BeautifulSoup parsing and
  `urljoin`. The site is an oracle answering each request with a parsed page,
  reduced to the form and the two result labels, or with an exception.
- The Telegram API is two oracles. One answers each send with delivered,
  Unauthorized or another failure. The other answers each poll with updates,
  a time-out or a failure. Markdown formatting is not modelled.
- SQLAlchemy and SQLite are reduced to in-memory tables. A session holds
  uncommitted changes; the bot holds the committed state. Queries read the
  tables in insertion order, so `.first()` returns the first row in that
  order.
- Threads, `run`, thread joins and the concurrency of the three loops are
  not modelled. The `shutdown` flag set by another loop is modelled as a tick
  budget `n`: the flag reads as set from tick `n` on.
- `time.sleep` and `utcnow` are not modelled. A sleep is an action in the
  trace, and the clock is read once per tick. A KeyboardInterrupt is modelled
  during the sleep after a tick. The wrapper also accepts a tick that raises
  one, but the three modelled loop bodies never do.
- Sentry, logging, `inflect` pluralisation and the wording of the `TEXTS`
  messages are not modelled. A text is a symbol, and the statistics carry
  their three numbers.
- Watch.Observe: the newest event is taken to be the last one appended. This
  relies on the clock increasing between watching ticks, which
  `Watch.WatchOrdered` assumes rather than proves.
- Chat.StatsOnEmptyLog: `/stats` with no events dereferences a missing first
  event and raises, and that is what is modelled. The command test
  `netherappbot/tests/test_commands.py:150-160` instead expects a statistics
  reply with zero durations.
- SQLAlchemy's autoflush is modelled only as far as it decides whether a
  user row is still pending when `reply` deletes it. Every query flushes, and
  `session.add` of a new user makes its row pending. `Delivery.Reply`,
  `Chat.OnMessage` and `Bot.Bot.Reply` then fail on an Unauthorized answer to
  a user first seen in that message, and the interactive loop ends. This
  follows SQLAlchemy 1.3, pinned at `setup.py:35`, whose `Session.delete`
  refuses an instance that was never flushed.
- `netherappbot.py` differs from `netherappbot/bot.py` only in the loop
  wrapper, which `Loop.Copy` models, and in the Sentry scope around
  `on_message`, which is not modelled. Its handlers are otherwise the same
  and are not modelled twice.
