/** Sending one message to one user (`Bot.reply`) and the users-table
    operations it relies on. */
module Delivery {
  import opened Schema

  /** The subscribed users, in table order. */
  function Subscribers(users: seq<User>): (r: seq<User>)
    ensures forall u :: u in r <==> u in users && u.subscribed
    ensures |r| <= |users|
    decreases |users|
  {
    if users == [] then []
    else (if users[0].subscribed then [users[0]] else []) + Subscribers(users[1..])
  }

  /** The users table with every row whose chat id is in `ids` deleted. */
  function Without(users: seq<User>, ids: set<int>): (r: seq<User>)
    ensures forall u :: u in r <==> u in users && u.chatId !in ids
    ensures |r| <= |users|
    decreases |users|
  {
    if users == [] then []
    else
      var rest := Without(users[1..], ids);
      if users[0].chatId in ids then rest
      else
        assert forall u :: u in rest ==> u in users[1..];
        [users[0]] + rest
  }

  /** Deleting rows keeps the chat ids unique. */
  lemma {:induction false} WithoutKeepsUnique(users: seq<User>, ids: set<int>)
    requires UniqueChatIds(users)
    ensures UniqueChatIds(Without(users, ids))
    decreases |users|
  {
    if users != [] {
      var tail := users[1..];
      assert UniqueChatIds(tail) by {
        forall a, b | 0 <= a < b < |tail| ensures tail[a].chatId != tail[b].chatId {
          assert tail[a] == users[a + 1] && tail[b] == users[b + 1];
        }
      }
      WithoutKeepsUnique(tail, ids);
      var rest := Without(tail, ids);
      if users[0].chatId !in ids {
        forall j | 0 <= j < |rest| ensures rest[j].chatId != users[0].chatId {
          assert rest[j] in tail;
          var p :| 0 <= p < |tail| && tail[p] == rest[j];
          assert users[p + 1] == rest[j];
        }
        var r := [users[0]] + rest;
        forall a, b | 0 <= a < b < |r| ensures r[a].chatId != r[b].chatId {
          assert r[b] == rest[b - 1];
          if a > 0 {
            assert r[a] == rest[a - 1];
          }
        }
      }
    }
  }

  /** Deleting no chat id leaves the table as it is. */
  lemma {:induction false} WithoutNothing(users: seq<User>)
    ensures Without(users, {}) == users
    decreases |users|
  {
    if users != [] {
      WithoutNothing(users[1..]);
    }
  }

  /** Deleting two sets of chat ids one after the other deletes their union. */
  lemma {:induction false} WithoutWithout(users: seq<User>, a: set<int>, b: set<int>)
    ensures Without(Without(users, a), b) == Without(users, a + b)
    decreases |users|
  {
    if users != [] {
      WithoutWithout(users[1..], a, b);
      if users[0].chatId !in a {
        assert Without(users, a) == [users[0]] + Without(users[1..], a);
        assert Without(users, a)[1..] == Without(users[1..], a);
      }
    }
  }

  /** One `send_message` call per recipient, in order. */
  function Messages(recipients: seq<User>, text: Text): (r: seq<Message>)
    ensures |r| == |recipients|
    ensures forall i :: 0 <= i < |r| ==> r[i] == Message(recipients[i].chatId, text)
    decreases |recipients|
  {
    if recipients == [] then []
    else [Message(recipients[0].chatId, text)] + Messages(recipients[1..], text)
  }

  /** `reply`: one send attempt, the `k`-th of the run, answered by
      `answer(k)`.  An Unauthorized answer deletes that user and nothing else,
      unless the user's row is `pending` (added in this session and not yet
      flushed), which the session refuses to delete: the refusal propagates.
      Any other failure propagates too, leaving the tables alone. */
  function Reply(t: Tables, chatId: int, text: Text, answer: nat -> SendOutcome, k: nat, pending: bool): (e: Effect)
    ensures e.sends == [Message(chatId, text)]
    ensures e.failed <==> answer(k) == SendFailed || (answer(k) == Unauthorized && pending)
    ensures e.tables.events == t.events && e.tables.lastUpdate == t.lastUpdate
    ensures answer(k) == Unauthorized && !pending ==> e.tables.users == Without(t.users, {chatId})
    ensures answer(k) != Unauthorized || pending ==> e.tables.users == t.users
  {
    match answer(k)
    case Delivered => Effect(t, [Message(chatId, text)], false)
    case Unauthorized =>
      if pending then Effect(t, [Message(chatId, text)], true)
      else Effect(t.(users := Without(t.users, {chatId})), [Message(chatId, text)], false)
    case SendFailed => Effect(t, [Message(chatId, text)], true)
  }
}
