/** The periodic transactional loop (the `loop` decorator) as a state
    machine over tick outcomes, and the three ticks it drives.

    A run is described by what it does to the committed tables, the
    messages it attempts, the order of commits, sleeps and immediate
    retries, the number of ticks started, and how the loop ends.  The peer
    loops setting `shutdown` is modelled by a tick budget: the flag is seen
    set once `n` ticks have started. */
module Loop {
  import opened Schema
  import Navigator
  import Watch
  import Notify
  import Chat

  /** The two copies of the bot: the packaged module swallows
      KeyboardInterrupt, the standalone script lets it propagate. */
  datatype Copy = Packaged | Standalone

  /** What the loop does between ticks: commit the session, sleep the
      interval, or go straight to the next tick after an ignored exception. */
  datatype Action = Commit | Sleep(seconds: nat) | Retry

  /** How the loop ends: normally (the flag was set, or an interrupt was
      swallowed), or by an exception leaving the wrapper. */
  datatype Exit = Stopped | Propagated(e: Exception)

  datatype Run = Run(db: Tables, sends: seq<Message>, actions: seq<Action>, ticks: nat, exit: Exit)

  /** One tick: given its index in the run, the committed tables and the
      number of send attempts made so far, what it did. */
  type Step = (nat, Tables, nat) -> Tick

  /** The exceptions a loop catches and retries after (`ignore=`). */
  predicate Ignored(ignoreConnectionErrors: bool, e: Exception) {
    ignoreConnectionErrors && e == ConnectionError
  }

  /** What the wrapper does with one tick's outcome: the committed tables
      afterwards, the actions it takes, and how the loop ends if it does. */
  datatype Turn = Turn(db: Tables, actions: seq<Action>, stop: Option<Exit>)

  /** After a completed tick: commit and sleep, ending on an interrupt that
      arrives in the sleep; after an exception: retry at once if it is
      ignored, end otherwise. */
  function After(copy: Copy, interval: nat, ignore: bool, interrupted: bool, outcome: TickOutcome): Turn {
    match outcome
    case Completed(next) =>
      Turn(next, [Commit, Sleep(interval)], if interrupted then Some(ExitOn(copy, KeyboardInterrupt)) else None)
    case Raised(e, durable) =>
      if Ignored(ignore, e) then Turn(durable, [Retry], None)
      else Turn(durable, [], Some(ExitOn(copy, e)))
  }

  /** The wrapper's loop from tick `i` on.  `interrupt(i)` says a
      KeyboardInterrupt arrives while the loop sleeps after tick `i`; a tick
      may also raise one itself. */
  function Drive(copy: Copy, interval: nat, ignore: bool, interrupt: nat -> bool, step: Step,
                 db: Tables, i: nat, k: nat, n: nat): Run
    decreases n - i
  {
    if i >= n then Run(db, [], [], 0, Stopped)
    else
      var tick := step(i, db, k);
      var turn := After(copy, interval, ignore, interrupt(i), tick.outcome);
      match turn.stop
      case Some(exit) => Run(turn.db, tick.sends, turn.actions, 1, exit)
      case None =>
        var rest := Drive(copy, interval, ignore, interrupt, step, turn.db, i + 1, k + |tick.sends|, n);
        Run(rest.db, tick.sends + rest.sends, turn.actions + rest.actions, rest.ticks + 1, rest.exit)
  }

  /** No more ticks start than the flag allows; an exception leaves the
      wrapper only from a tick that raised it and only when it is not
      ignored; the packaged copy never lets a KeyboardInterrupt out, and the
      standalone copy stops normally only when the flag is set; a loop that
      ignores nothing never retries. */
  lemma {:induction false} DriveBounds(copy: Copy, interval: nat, ignore: bool, interrupt: nat -> bool, step: Step,
                                       db: Tables, i: nat, k: nat, n: nat)
    ensures var r := Drive(copy, interval, ignore, interrupt, step, db, i, k, n);
            && (r.ticks <= n - i || (i >= n && r.ticks == 0))
            && (r.exit.Propagated? ==> 0 < r.ticks && !Ignored(ignore, r.exit.e))
            && (copy == Packaged ==> r.exit != Propagated(KeyboardInterrupt))
            && (copy == Standalone && r.exit == Stopped ==> r.ticks == n - i || (i >= n && r.ticks == 0))
            && (!ignore ==> Retry !in r.actions)
    decreases n - i
  {
    if i < n {
      var tick := step(i, db, k);
      var turn := After(copy, interval, ignore, interrupt(i), tick.outcome);
      if turn.stop.None? {
        DriveBounds(copy, interval, ignore, interrupt, step, turn.db, i + 1, k + |tick.sends|, n);
      }
    }
  }

  /** The loop from tick `i` on, one tick at a time: the tick's turn either
      ends the loop or is followed by the loop from tick `i + 1`. */
  lemma DriveStep(copy: Copy, interval: nat, ignore: bool, interrupt: nat -> bool, step: Step,
                  db: Tables, i: nat, k: nat, n: nat)
    requires i < n
    ensures var tick := step(i, db, k);
            var turn := After(copy, interval, ignore, interrupt(i), tick.outcome);
            var r := Drive(copy, interval, ignore, interrupt, step, db, i, k, n);
            && (turn.stop.Some? ==>
                  r.db == turn.db && r.sends == tick.sends && r.actions == turn.actions && r.exit == turn.stop.value)
            && (turn.stop.None? ==>
                  var rest := Drive(copy, interval, ignore, interrupt, step, turn.db, i + 1, k + |tick.sends|, n);
                  && r.db == rest.db && r.sends == tick.sends + rest.sends
                  && r.actions == turn.actions + rest.actions && r.exit == rest.exit)
  {
  }

  /** A run seen part way: what was sent and done so far, followed by the
      run still to come, is the whole run. */
  predicate Resumes(whole: Run, sends: seq<Message>, actions: seq<Action>, rest: Run) {
    && whole.db == rest.db && whole.exit == rest.exit
    && whole.sends == sends + rest.sends && whole.actions == actions + rest.actions
  }

  /** Taking one tick of a run seen part way: either the run ends with that
      tick's turn, or it resumes at tick `i + 1` with the tick's sends and
      actions added to what was done. */
  lemma Advance(copy: Copy, interval: nat, ignore: bool, interrupt: nat -> bool, step: Step,
                db: Tables, i: nat, k: nat, n: nat, whole: Run, sends: seq<Message>, actions: seq<Action>)
    requires i < n
    requires Resumes(whole, sends, actions, Drive(copy, interval, ignore, interrupt, step, db, i, k, n))
    ensures var tick := step(i, db, k);
            var turn := After(copy, interval, ignore, interrupt(i), tick.outcome);
            && (turn.stop.Some? ==>
                  && whole.db == turn.db && whole.exit == turn.stop.value
                  && whole.sends == sends + tick.sends && whole.actions == actions + turn.actions)
            && (turn.stop.None? ==>
                  Resumes(whole, sends + tick.sends, actions + turn.actions,
                          Drive(copy, interval, ignore, interrupt, step, turn.db, i + 1, k + |tick.sends|, n)))
  {
    var tick := step(i, db, k);
    var turn := After(copy, interval, ignore, interrupt(i), tick.outcome);
    DriveStep(copy, interval, ignore, interrupt, step, db, i, k, n);
    if turn.stop.None? {
      var rest := Drive(copy, interval, ignore, interrupt, step, turn.db, i + 1, k + |tick.sends|, n);
      AppendAssociates(sends, tick.sends, rest.sends);
      AppendAssociates(actions, turn.actions, rest.actions);
    }
  }

  /** How an exception that is not ignored ends the wrapper: the packaged
      copy swallows KeyboardInterrupt, everything else propagates. */
  function ExitOn(copy: Copy, e: Exception): (exit: Exit)
    ensures exit == Stopped <==> copy == Packaged && e == KeyboardInterrupt
    ensures exit.Propagated? ==> exit.e == e
  {
    if copy == Packaged && e == KeyboardInterrupt then Stopped else Propagated(e)
  }

  /** Every sleep comes right after a commit and lasts the interval; every
      commit is followed by that sleep. */
  predicate Paced(actions: seq<Action>, interval: nat) {
    && (forall j :: 0 <= j < |actions| && actions[j].Sleep? ==>
          0 < j && actions[j - 1] == Commit && actions[j].seconds == interval)
    && (forall j :: 0 <= j < |actions| && actions[j] == Commit ==>
          j + 1 < |actions| && actions[j + 1] == Sleep(interval))
  }

  lemma PacedPrefix(actions: seq<Action>, prefix: seq<Action>, interval: nat)
    requires Paced(actions, interval)
    requires prefix == [Commit, Sleep(interval)] || prefix == [Retry] || prefix == []
    ensures Paced(prefix + actions, interval)
  {
    var all := prefix + actions;
    forall j | 0 <= j < |all| && all[j].Sleep?
      ensures 0 < j && all[j - 1] == Commit && all[j].seconds == interval
    {
      if j >= |prefix| {
        assert all[j] == actions[j - |prefix|];
        if j - |prefix| == 0 {
          assert false;
        }
        assert all[j - 1] == actions[j - 1 - |prefix|];
      }
    }
    forall j | 0 <= j < |all| && all[j] == Commit
      ensures j + 1 < |all| && all[j + 1] == Sleep(interval)
    {
      if j >= |prefix| {
        assert all[j] == actions[j - |prefix|];
        assert all[j + 1] == actions[j + 1 - |prefix|];
      }
    }
  }

  /** A successful tick is committed and then sleeps the interval; a tick
      that raises is never followed by a sleep: an ignored exception goes
      straight to the next tick, any other ends the loop. */
  lemma {:induction false} DrivePaced(copy: Copy, interval: nat, ignore: bool, interrupt: nat -> bool,
                                      step: Step, db: Tables, i: nat, k: nat, n: nat)
    ensures Paced(Drive(copy, interval, ignore, interrupt, step, db, i, k, n).actions, interval)
    decreases n - i
  {
    if i < n {
      var tick := step(i, db, k);
      var turn := After(copy, interval, ignore, interrupt(i), tick.outcome);
      if turn.stop.None? {
        DrivePaced(copy, interval, ignore, interrupt, step, turn.db, i + 1, k + |tick.sends|, n);
        PacedPrefix(Drive(copy, interval, ignore, interrupt, step, turn.db, i + 1, k + |tick.sends|, n).actions,
                    turn.actions, interval);
      } else {
        PacedPrefix([], turn.actions, interval);
        assert turn.actions + [] == turn.actions;
      }
    }
  }

  /** The number of commits among the actions. */
  function Commits(actions: seq<Action>): nat
    decreases |actions|
  {
    if actions == [] then 0 else (if actions[0] == Commit then 1 else 0) + Commits(actions[1..])
  }

  /** The two copies behave identically except at a KeyboardInterrupt, which
      the packaged copy turns into a normal stop and the standalone copy
      propagates. */
  lemma {:induction false} CopiesAgree(interval: nat, ignore: bool, interrupt: nat -> bool,
                                       step: Step, db: Tables, i: nat, k: nat, n: nat)
    ensures var p := Drive(Packaged, interval, ignore, interrupt, step, db, i, k, n);
            var s := Drive(Standalone, interval, ignore, interrupt, step, db, i, k, n);
            && p.db == s.db && p.sends == s.sends && p.actions == s.actions && p.ticks == s.ticks
            && (p.exit == s.exit || (p.exit == Stopped && s.exit == Propagated(KeyboardInterrupt)))
    decreases n - i
  {
    if i < n {
      var tick := step(i, db, k);
      match tick.outcome
      case Completed(next) =>
        if interrupt(i) { return; }
        CopiesAgree(interval, ignore, interrupt, step, next, i + 1, k + |tick.sends|, n);
      case Raised(e, durable) =>
        if Ignored(ignore, e) {
          CopiesAgree(interval, ignore, interrupt, step, durable, i + 1, k + |tick.sends|, n);
        }
    }
  }

  /** Without interrupts and with every tick completing, the loop runs until
      the flag is set, committing and sleeping once per tick. */
  lemma {:induction false} CompletedTicksRunToShutdown(copy: Copy, interval: nat, ignore: bool, interrupt: nat -> bool,
                                                       step: Step, db: Tables, i: nat, k: nat, n: nat)
    requires forall j :: !interrupt(j)
    requires forall j, t, c :: step(j, t, c).outcome.Completed?
    requires i <= n
    ensures var r := Drive(copy, interval, ignore, interrupt, step, db, i, k, n);
            && r.exit == Stopped && r.ticks == n - i
            && |r.actions| == 2 * (n - i) && Commits(r.actions) == n - i
    decreases n - i
  {
    if i < n {
      var tick := step(i, db, k);
      CompletedTicksRunToShutdown(copy, interval, ignore, interrupt, step, tick.outcome.next, i + 1, k + |tick.sends|, n);
      var rest := Drive(copy, interval, ignore, interrupt, step, tick.outcome.next, i + 1, k + |tick.sends|, n);
      assert ([Commit, Sleep(interval)] + rest.actions)[1..] == [Sleep(interval)] + rest.actions;
      assert ([Sleep(interval)] + rest.actions)[1..] == rest.actions;
    }
  }

  /** The interval of `watching_loop`, in seconds (`interactive_loop`
      sleeps 0 and `notification_loop` 1). */
  const WatchInterval: nat := 5

  /** The watching tick with the site and the clock read at tick `i`. */
  function WatchingStep(site: nat -> Navigator.Request -> Navigator.Fetched, clock: nat -> int): Step
  {
    (i: nat, t: Tables, k: nat) => Tick(Watch.WatchTick(t, site(i), clock(i)), [])
  }

  /** The notification tick, whose sends are answered by `answer`. */
  function NotificationStep(answer: nat -> SendOutcome): Step
  {
    (i: nat, t: Tables, k: nat) => Notify.Notify(t, answer, k)
  }

  /** The interactive tick: the `p0 + i`-th poll, made with the offset the
      committed cursor gives, and the clock read at tick `i`. */
  function InteractiveStep(answer: nat -> SendOutcome, poll: (nat, Option<int>) -> Chat.PollResult,
                           p0: nat, clock: nat -> int): Step
  {
    (i: nat, t: Tables, k: nat) => Chat.Interact(t, poll(p0 + i, Chat.PollOffset(t.lastUpdate)), clock(i), answer, k)
  }

  /** While the site cannot be reached, the watching loop retries at once,
      tick after tick, with no commit and no sleep, and the tables stay as
      they were. */
  lemma {:induction false} OfflineSiteSpins(copy: Copy, site: nat -> Navigator.Request -> Navigator.Fetched,
                                            clock: nat -> int, interrupt: nat -> bool,
                                            db: Tables, i: nat, k: nat, n: nat)
    requires forall j :: site(j)(Navigator.WelcomeRequest) == Navigator.Failed(ConnectionError)
    requires i <= n
    ensures var r := Drive(copy, WatchInterval, true, interrupt, WatchingStep(site, clock), db, i, k, n);
            && r.db == db && r.sends == [] && r.exit == Stopped && r.ticks == n - i
            && r.actions == seq(n - i, j => Retry)
    decreases n - i
  {
    if i < n {
      var step := WatchingStep(site, clock);
      assert step(i, db, k) == Tick(Watch.WatchTick(db, site(i), clock(i)), []);
      assert step(i, db, k) == Tick(Raised(ConnectionError, db), []);
      OfflineSiteSpins(copy, site, clock, interrupt, db, i + 1, k, n);
      assert [Retry] + seq(n - (i + 1), j => Retry) == seq(n - i, j => Retry);
    }
  }
}
