/**
 * The publish/subscribe registry: for every channel, the connections
 * subscribed to it and each one's mailbox of pending messages, plus the
 * quit signal of every subscribed connection.
 *
 * Connections and quit signals are opaque identities. A mailbox is the
 * sequence of messages buffered for one (channel, connection) pair, at most
 * `MailboxCapacity` long. Delivery, which the source runs in one task per
 * subscription, is an explicit step that takes the oldest message of one
 * mailbox.
 */
module PubSub {
  import opened Resp

  /** A client connection, known only by its identity. */
  datatype ConnId = Conn(id: nat)

  /** A quit signal handed to `Subscribe`, shared with the delivery task. */
  datatype QuitSignal = Quit(id: nat)

  /** Messages buffered for one subscriber of one channel, oldest first. */
  type Mailbox = seq<string>

  /** The buffer size of every mailbox. */
  const MailboxCapacity: nat := 100

  /** Channel name to subscribed connection to mailbox. */
  type Registry = map<string, map<ConnId, Mailbox>>

  /** No channel is kept without subscribers and no mailbox exceeds its buffer. */
  ghost predicate WellFormed(subs: Registry) {
    forall ch | ch in subs ::
      subs[ch] != map[] && forall c | c in subs[ch] :: |subs[ch][c]| <= MailboxCapacity
  }

  /** The mailbox of `conn` on `channel`; nothing when it is not subscribed. */
  function Pending(subs: Registry, conn: ConnId, channel: string): Mailbox {
    if channel in subs && conn in subs[channel] then subs[channel][conn] else []
  }

  /**
   * `Subscribe`: the channel gets a subscriber map if it had none, and the
   * connection a new, empty mailbox on it, replacing any earlier one.
   */
  function Subscribed(subs: Registry, conn: ConnId, channel: string): (r: Registry)
    ensures r.Keys == subs.Keys + {channel}
    ensures r[channel].Keys == (if channel in subs then subs[channel].Keys else {}) + {conn}
    ensures r[channel][conn] == []
    ensures forall c | c in r[channel] && c != conn :: r[channel][c] == subs[channel][c]
    ensures forall ch | ch in subs && ch != channel :: r[ch] == subs[ch]
  {
    var inner := if channel in subs then subs[channel] else map[];
    subs[channel := inner[conn := []]]
  }

  /**
   * Removing `conn` from one channel, and the channel with it when no
   * subscriber is left. Other channels, and other subscribers' mailboxes,
   * stay as they were; an unknown channel changes nothing.
   */
  function Unsubscribed(subs: Registry, conn: ConnId, channel: string): (r: Registry)
    ensures channel !in subs ==> r == subs
    ensures forall ch | ch in r :: ch in subs
    ensures forall ch | ch in subs && ch != channel :: ch in r && r[ch] == subs[ch]
    ensures channel in r <==> channel in subs && subs[channel].Keys - {conn} != {}
    ensures channel in r ==> r[channel] == subs[channel] - {conn}
  {
    if channel !in subs then subs
    else
      var rest := subs[channel] - {conn};
      if rest == map[] then subs - {channel} else subs[channel := rest]
  }

  /**
   * Removing `conn` from every channel; the channels it was the last
   * subscriber of disappear, every other subscriber keeps its mailbox.
   */
  function UnsubscribedAll(subs: Registry, conn: ConnId): (r: Registry)
    ensures forall ch | ch in r :: ch in subs && conn !in r[ch] && r[ch] == subs[ch] - {conn}
    ensures forall ch | ch in subs :: ch in r <==> subs[ch].Keys - {conn} != {}
  {
    map ch | ch in subs && subs[ch].Keys - {conn} != {} :: subs[ch] - {conn}
  }

  /** A full mailbox drops the message; any other takes it at the end. */
  function Offer(mb: Mailbox, msg: string): (r: Mailbox)
    ensures |mb| <= |r| && r[..|mb|] == mb
    ensures |r| == |mb| + 1 <==> |mb| < MailboxCapacity
    ensures |r| == |mb| + 1 ==> r[|mb|] == msg
    ensures |r| <= |mb| + 1
    ensures |mb| <= MailboxCapacity ==> |r| <= MailboxCapacity
  {
    if |mb| < MailboxCapacity then mb + [msg] else mb
  }

  /**
   * `Publish`: every subscriber of the channel is offered the message;
   * no other channel is touched, and a channel nobody listens to is left
   * as it is.
   */
  function Published(subs: Registry, channel: string, msg: string): (r: Registry)
    ensures r.Keys == subs.Keys
    ensures forall ch | ch in subs && ch != channel :: r[ch] == subs[ch]
    ensures channel in subs ==> r[channel].Keys == subs[channel].Keys
    ensures channel in subs ==> forall c | c in subs[channel] :: r[channel][c] == Offer(subs[channel][c], msg)
  {
    if channel !in subs then subs
    else subs[channel := map c | c in subs[channel] :: Offer(subs[channel][c], msg)]
  }

  /** Taking the oldest message out of the mailbox of `conn` on `channel`. */
  function Taken(subs: Registry, conn: ConnId, channel: string): (r: Registry)
    requires Pending(subs, conn, channel) != []
    ensures Pending(r, conn, channel) == Pending(subs, conn, channel)[1..]
    ensures r.Keys == subs.Keys && r[channel].Keys == subs[channel].Keys
    ensures forall ch | ch in subs && ch != channel :: r[ch] == subs[ch]
    ensures forall c | c in subs[channel] && c != conn :: r[channel][c] == subs[channel][c]
  {
    subs[channel := subs[channel][conn := subs[channel][conn][1..]]]
  }

  /** The frame a delivery task writes for one message. */
  function MessageFrame(channel: string, msg: string): Value {
    BulkArray(["message", channel, msg])
  }

  /** The acknowledgement of a subscription. */
  function SubscribeAck(channel: string): Value {
    BulkArray(["subscribe", channel, "1"])
  }

  lemma SubscribedKeepsWellFormed(subs: Registry, conn: ConnId, channel: string)
    requires WellFormed(subs)
    ensures WellFormed(Subscribed(subs, conn, channel))
  {
  }

  lemma UnsubscribedKeepsWellFormed(subs: Registry, conn: ConnId, channel: string)
    requires WellFormed(subs)
    ensures WellFormed(Unsubscribed(subs, conn, channel))
  {
  }

  lemma UnsubscribedAllKeepsWellFormed(subs: Registry, conn: ConnId)
    requires WellFormed(subs)
    ensures WellFormed(UnsubscribedAll(subs, conn))
  {
    var r := UnsubscribedAll(subs, conn);
    forall ch | ch in r
      ensures r[ch] != map[]
    {
      assert r[ch].Keys == subs[ch].Keys - {conn};
    }
  }

  lemma PublishedKeepsWellFormed(subs: Registry, channel: string, msg: string)
    requires WellFormed(subs)
    ensures WellFormed(Published(subs, channel, msg))
  {
    var r := Published(subs, channel, msg);
    if channel in subs {
      assert r[channel].Keys == subs[channel].Keys;
      assert r[channel] != map[] by {
        var c :| c in subs[channel];
        assert c in r[channel];
      }
    }
  }

  lemma TakenKeepsWellFormed(subs: Registry, conn: ConnId, channel: string)
    requires WellFormed(subs) && Pending(subs, conn, channel) != []
    ensures WellFormed(Taken(subs, conn, channel))
  {
    var r := Taken(subs, conn, channel);
    assert conn in r[channel];
  }

  /** Publishing a run of messages to one mailbox that nobody drains. */
  function OfferAll(mb: Mailbox, msgs: seq<string>): Mailbox
    decreases |msgs|
  {
    if msgs == [] then mb else OfferAll(Offer(mb, msgs[0]), msgs[1..])
  }

  function Min(a: nat, b: nat): nat {
    if a <= b then a else b
  }

  /**
   * A mailbox that is not drained keeps the messages published to it in
   * publish order until it holds `MailboxCapacity` of them, and drops
   * every later one.
   */
  lemma {:induction false} UndrainedMailboxKeepsOldest(mb: Mailbox, msgs: seq<string>)
    requires |mb| <= MailboxCapacity
    ensures OfferAll(mb, msgs) == (mb + msgs)[..Min(MailboxCapacity, |mb| + |msgs|)]
    decreases |msgs|
  {
    if msgs == [] {
      assert mb + msgs == mb;
    } else if |mb| < MailboxCapacity {
      assert mb + [msgs[0]] + msgs[1..] == mb + msgs;
      UndrainedMailboxKeepsOldest(mb + [msgs[0]], msgs[1..]);
    } else {
      UndrainedMailboxKeepsOldest(mb, msgs[1..]);
      assert (mb + msgs[1..])[..MailboxCapacity] == mb;
      assert (mb + msgs)[..MailboxCapacity] == mb;
    }
  }

  /**
   * A subscriber's mailbox is a queue: a publish puts the message behind
   * the ones already waiting (or drops it when the buffer is full) and a
   * delivery takes the oldest one.
   */
  lemma MailboxIsQueue(subs: Registry, conn: ConnId, channel: string, msg: string)
    requires channel in subs && conn in subs[channel]
    ensures Pending(Published(subs, channel, msg), conn, channel) == Offer(Pending(subs, conn, channel), msg)
    ensures Pending(subs, conn, channel) != [] ==>
      Pending(Taken(Published(subs, channel, msg), conn, channel), conn, channel)
        == Offer(Pending(subs, conn, channel), msg)[1..]
  {
  }

  /** A subscriber receives what is published on its channel after it subscribed. */
  lemma SubscribeThenPublish(subs: Registry, conn: ConnId, channel: string, msg: string)
    ensures Pending(Published(Subscribed(subs, conn, channel), channel, msg), conn, channel) == [msg]
  {
  }

  /** After unsubscribing, nothing published reaches the connection. */
  lemma UnsubscribedReceivesNothing(subs: Registry, conn: ConnId, channel: string, ch: string, msg: string)
    ensures Pending(Published(UnsubscribedAll(subs, conn), ch, msg), conn, ch) == []
    ensures Pending(Published(Unsubscribed(subs, conn, channel), channel, msg), conn, channel) == []
  {
  }

  /** Removing `conn` from the channels in `done` and leaving the others as they are. */
  function UnsubscribedFrom(subs: Registry, conn: ConnId, done: set<string>): Registry {
    map ch | ch in subs && (ch !in done || subs[ch].Keys - {conn} != {}) ::
      if ch in done then subs[ch] - {conn} else subs[ch]
  }

  lemma UnsubscribedFromOneMore(subs: Registry, conn: ConnId, done: set<string>, ch: string)
    requires ch in subs && ch !in done
    ensures Unsubscribed(UnsubscribedFrom(subs, conn, done), conn, ch) == UnsubscribedFrom(subs, conn, done + {ch})
  {
    var before := UnsubscribedFrom(subs, conn, done);
    var after := Unsubscribed(before, conn, ch);
    var want := UnsubscribedFrom(subs, conn, done + {ch});
    assert before[ch] == subs[ch];
    assert forall x | x in after :: x in want && after[x] == want[x];
    assert forall x | x in want :: x in after;
  }

  /** What a delivery step did. */
  datatype Delivery =
    | Waiting                  // no message and no quit signal yet
    | Stopped                  // the quit signal was taken: the task ends
    | Sent(frame: Value)       // the oldest message was written
    | WriteFailed(frame: Value) // writing failed: the connection is unsubscribed everywhere

  /** The broker. */
  class PubSubManager {
    var subscribers: Registry
    var quitChannels: map<ConnId, QuitSignal>
    /** The quit signals that have been closed. */
    var closed: set<QuitSignal>

    ghost predicate Valid()
      reads this
    {
      WellFormed(subscribers)
    }

    /** `NewPubSubManager`: no channel and no quit signal. */
    constructor ()
      ensures Valid()
      ensures subscribers == map[] && quitChannels == map[] && closed == {}
    {
      subscribers := map[];
      quitChannels := map[];
      closed := {};
    }

    /**
     * `Subscribe`: register the connection with a new mailbox, record its
     * quit signal, and answer with the acknowledgement written to it.
     */
    method Subscribe(conn: ConnId, channel: string, quit: QuitSignal) returns (ack: Value)
      requires Valid()
      modifies this
      ensures Valid()
      ensures subscribers == Subscribed(old(subscribers), conn, channel)
      ensures quitChannels == old(quitChannels)[conn := quit] && closed == old(closed)
      ensures ack == SubscribeAck(channel)
    {
      SubscribedKeepsWellFormed(subscribers, conn, channel);
      if channel !in subscribers {
        subscribers := subscribers[channel := map[]];
      }
      subscribers := subscribers[channel := subscribers[channel][conn := []]];
      quitChannels := quitChannels[conn := quit];
      ack := SubscribeAck(channel);
    }

    /**
     * `Unsubscribe`: from one channel, or from every channel when the name
     * is empty; then the connection's quit signal is closed and forgotten.
     */
    method Unsubscribe(conn: ConnId, channel: string)
      requires Valid()
      modifies this
      ensures Valid()
      ensures subscribers == if channel == "" then UnsubscribedAll(old(subscribers), conn)
                             else Unsubscribed(old(subscribers), conn, channel)
      ensures quitChannels == old(quitChannels) - {conn}
      ensures closed == if conn in old(quitChannels) then old(closed) + {old(quitChannels)[conn]} else old(closed)
    {
      if channel == "" {
        ghost var start := subscribers;
        var remaining := subscribers.Keys;
        ghost var done: set<string> := {};
        UnsubscribedAllKeepsWellFormed(start, conn);
        assert UnsubscribedFrom(start, conn, done) == start;
        while remaining != {}
          invariant remaining !! done && remaining + done == start.Keys
          invariant subscribers == UnsubscribedFrom(start, conn, done)
          invariant quitChannels == old(quitChannels) && closed == old(closed)
          decreases remaining
        {
          var ch :| ch in remaining;
          UnsubscribedFromOneMore(start, conn, done, ch);
          subscribers := Unsubscribed(subscribers, conn, ch);
          done := done + {ch};
          remaining := remaining - {ch};
        }
        assert UnsubscribedFrom(start, conn, done) == UnsubscribedAll(start, conn);
      } else {
        UnsubscribedKeepsWellFormed(subscribers, conn, channel);
        if channel in subscribers {
          var subs := subscribers[channel] - {conn};
          if subs == map[] {
            subscribers := subscribers - {channel};
          } else {
            subscribers := subscribers[channel := subs];
          }
        }
      }
      if conn in quitChannels {
        closed := closed + {quitChannels[conn]};
        quitChannels := quitChannels - {conn};
      }
    }

    /**
     * `Publish`: offer the message to every subscriber of the channel,
     * dropping it for the ones whose mailbox is full.
     */
    method Publish(channel: string, message: string)
      requires Valid()
      modifies this
      ensures Valid()
      ensures subscribers == Published(old(subscribers), channel, message)
      ensures quitChannels == old(quitChannels) && closed == old(closed)
    {
      PublishedKeepsWellFormed(subscribers, channel, message);
      if channel !in subscribers {
        return;
      }
      var mailboxes := subscribers[channel];
      var updated := mailboxes;
      var remaining := mailboxes.Keys;
      while remaining != {}
        invariant remaining <= mailboxes.Keys
        invariant updated.Keys == mailboxes.Keys
        invariant forall c | c in mailboxes ::
          updated[c] == if c in remaining then mailboxes[c] else Offer(mailboxes[c], message)
        decreases remaining
      {
        var c :| c in remaining;
        if |updated[c]| < MailboxCapacity {
          updated := updated[c := updated[c] + [message]];
        }
        remaining := remaining - {c};
      }
      assert updated == map c | c in mailboxes :: Offer(mailboxes[c], message);
      subscribers := subscribers[channel := updated];
    }

    /**
     * One step of the delivery task of `conn` on `channel`, started with
     * the quit signal `quit`. When both a message and a closed quit signal
     * are ready, `quitFirst` is the scheduler's pick; `writeOk` is the
     * outcome of writing the message to the connection.
     */
    method Deliver(conn: ConnId, channel: string, quit: QuitSignal, quitFirst: bool, writeOk: bool)
      returns (d: Delivery)
      requires Valid()
      modifies this
      ensures Valid()
      ensures var mb := Pending(old(subscribers), conn, channel);
        if quit in old(closed) && (mb == [] || quitFirst) then
          d == Stopped && unchanged(this)
        else if mb == [] then
          d == Waiting && unchanged(this)
        else if writeOk then
          && d == Sent(MessageFrame(channel, mb[0]))
          && subscribers == Taken(old(subscribers), conn, channel)
          && quitChannels == old(quitChannels) && closed == old(closed)
        else
          && d == WriteFailed(MessageFrame(channel, mb[0]))
          && subscribers == UnsubscribedAll(Taken(old(subscribers), conn, channel), conn)
          && quitChannels == old(quitChannels) - {conn}
          && closed == (if conn in old(quitChannels) then old(closed) + {old(quitChannels)[conn]} else old(closed))
    {
      var mb := Pending(subscribers, conn, channel);
      if quit in closed && (mb == [] || quitFirst) {
        return Stopped;
      }
      if mb == [] {
        return Waiting;
      }
      TakenKeepsWellFormed(subscribers, conn, channel);
      subscribers := Taken(subscribers, conn, channel);
      var frame := MessageFrame(channel, mb[0]);
      if writeOk {
        return Sent(frame);
      }
      Unsubscribe(conn, "");
      return WriteFailed(frame);
    }
  }
}
