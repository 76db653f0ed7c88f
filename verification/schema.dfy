/** The persisted tables of the bot, the exceptions that reach its loops and
    the messages it sends.  Everything the three loops share lives here. */
module Schema {

  datatype Option<T> = None | Some(value: T)

  /** Exceptions as the loops see them.  ConnectionError is the transport
      failure the watching loop ignores; KeyboardInterrupt is the interrupt
      signal; Failure stands for every other exception (a missing page
      element, a rejected message other than Unauthorized, a failed poll). */
  datatype Exception = ConnectionError | KeyboardInterrupt | Failure

  /** A value or the exception raised while computing it. */
  datatype Result<T> = Ok(value: T) | Raise(e: Exception)

  /** A row of the `events` table.  Timestamps are UTC instants counted in
      microseconds. */
  datatype Event = Event(timestamp: int, haveAppointments: bool, notificationSent: bool)

  /** A row of the `users` table (`chat_id` is unique). */
  datatype User = User(chatId: int, subscribed: bool)

  /** The three tables: events and users in insertion order, and the
      `update_id` of the singleton `last_update` row, if that row exists. */
  datatype Tables = Tables(events: seq<Event>, users: seq<User>, lastUpdate: Option<int>)

  /** The fixed reply and notification texts, kept opaque; only the
      statistics reply carries data. */
  datatype Text =
    | Greetings
    | Help
    | Terms
    | SubscribedText
    | UnsubscribedText
    | UnknownCommand
    | DontUnderstand
    | AppointmentsAvailable
    | NoMoreAppointments
    | Statistics(subscribedUsers: nat, watchingFor: int, seenAppointments: int)

  /** One `send_message` call. */
  datatype Message = Message(chatId: int, text: Text)

  /** What the messaging channel answers to one `send_message` call. */
  datatype SendOutcome = Delivered | Unauthorized | SendFailed

  /** The effect of a handler inside a tick: the session's tables afterwards,
      the messages it tried to send, and whether it raised. */
  datatype Effect = Effect(tables: Tables, sends: seq<Message>, failed: bool)

  /** How one tick of a loop ends: it returns normally with the session's
      tables (which the loop then commits), or it raises, and then only
      `durable` (what was committed before the exception) survives. */
  datatype TickOutcome = Completed(next: Tables) | Raised(e: Exception, durable: Tables)

  /** A tick's outcome together with the messages it tried to send. */
  datatype Tick = Tick(outcome: TickOutcome, sends: seq<Message>)

  /** Chat ids of the users table are unique (the column's constraint). */
  predicate UniqueChatIds(users: seq<User>) {
    forall i, j :: 0 <= i < j < |users| ==> users[i].chatId != users[j].chatId
  }

  /** `users` has a row for `chatId`. */
  predicate Known(users: seq<User>, chatId: int) {
    exists i :: 0 <= i < |users| && users[i].chatId == chatId
  }

  /** Timestamps strictly increase along the log, so insertion order is
      timestamp order. */
  predicate Chronological(events: seq<Event>) {
    forall i, j :: 0 <= i < j < |events| ==> events[i].timestamp < events[j].timestamp
  }

  /** Sends and actions are recorded by appending; grouping does not matter. */
  lemma AppendAssociates<T>(a: seq<T>, b: seq<T>, c: seq<T>)
    ensures a + (b + c) == (a + b) + c
  {
  }
}
