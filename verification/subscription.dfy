/**
 * The reconnecting subscription of core/src/stores_redis.rs: a bounded queue to the consumer, the
 * count of messages that found it full, and the reconnect loop around them. What the other tasks and
 * the connection do is a list of signals.
 */
module Subscriptions {
  import opened Wrappers

  datatype Event<M> =
    | Message(message: M)
    | Lagged(dropped: nat)
    | Disconnected(error: string, retryIn: nat)
    | Reconnected
    | Closed

  datatype Config = Config(reconnectDelay: nat, maxReconnectDelay: nat)

  /** Where the subscription loop waits. */
  datatype Phase = Reading | ReportingLag | Reporting | Sleeping | Connecting | Announcing | Done

  datatype Signal<M> =
    /** A message from the connection, and whether the queue has room for a lag report and for a message. */
    | Arrival(message: M, lagFits: bool, messageFits: bool)
    | StreamEnded
    /** The event the loop was waiting to send has gone out. */
    | Sent
    | Slept
    | ConnectedAgain
    | ConnectFailed(error: string)
    /** The owner asked for the end; the consumer may be gone by then. */
    | Shutdown(delivered: bool)
    | ReceiverGone

  predicate Expects<M>(phase: Phase, signal: Signal<M>) {
    if signal.Arrival? || signal.StreamEnded? then phase == Reading
    else if signal.Sent? then phase == ReportingLag || phase == Reporting || phase == Announcing
    else if signal.Slept? then phase == Sleeping
    else if signal.ConnectedAgain? || signal.ConnectFailed? then phase == Connecting
    else phase != Done
  }

  /** What the consumer has been sent and the messages not yet reported as lost. */
  datatype Outbox<M> = Outbox(sent: seq<Event<M>>, dropped: nat)

  function Enqueued<M>(box: Outbox<M>, message: M, lagFits: bool, messageFits: bool): Outbox<M> {
    if box.dropped > 0 && !lagFits then Outbox(box.sent, box.dropped + 1)
    else
      var reported := if box.dropped > 0 then box.sent + [Lagged(box.dropped)] else box.sent;
      if messageFits then Outbox(reported + [Message(message)], 0) else Outbox(reported, 1)
  }

  predicate Delivered<M>(box: Outbox<M>, lagFits: bool, messageFits: bool) {
    (box.dropped > 0 ==> lagFits) && messageFits
  }

  datatype State<M> = State(
    phase: Phase, box: Outbox<M>, error: string, delay: nat,
    /** How often the present reconnection has failed, and every message so far with its fate. */
    failures: nat, arrivals: seq<M>, fates: seq<bool>)

  const STREAM_ENDED := "Redis Pub/Sub connection closed"

  function Doubled(c: Config, delay: nat): nat {
    if 2 * delay < c.maxReconnectDelay then 2 * delay else c.maxReconnectDelay
  }

  function Sending<M>(s: State<M>, event: Event<M>, phase: Phase): State<M> {
    s.(box := s.box.(sent := s.box.sent + [event]), phase := phase)
  }

  function Next<M>(c: Config, s: State<M>, signal: Signal<M>): State<M> {
    if signal.Arrival? then
      s.(box := Enqueued(s.box, signal.message, signal.lagFits, signal.messageFits),
         arrivals := s.arrivals + [signal.message],
         fates := s.fates + [Delivered(s.box, signal.lagFits, signal.messageFits)])
    else if signal.StreamEnded? then
      s.(phase := if s.box.dropped > 0 then ReportingLag else Reporting,
         error := STREAM_ENDED, delay := c.reconnectDelay, failures := 0)
    else if signal.Sent? then
      if s.phase == ReportingLag then
        Sending(s, Lagged(s.box.dropped), Reporting).(box := Outbox(s.box.sent + [Lagged(s.box.dropped)], 0))
      else if s.phase == Reporting then Sending(s, Disconnected(s.error, s.delay), Sleeping)
      else Sending(s, Reconnected, Reading)
    else if signal.Slept? then s.(phase := Connecting)
    else if signal.ConnectedAgain? then s.(phase := Announcing)
    else if signal.ConnectFailed? then
      s.(phase := Reporting, error := signal.error, delay := Doubled(c, s.delay), failures := s.failures + 1)
    else if signal.Shutdown? && signal.delivered then Sending(s, Closed, Done)
    else s.(phase := Done)
  }

  function After<M>(c: Config, signals: seq<Signal<M>>): State<M> {
    if signals == [] then State(Reading, Outbox([], 0), "", 0, 0, [], [])
    else Next(c, After(c, signals[..|signals| - 1]), signals[|signals| - 1])
  }

  predicate Legal<M>(c: Config, signals: seq<Signal<M>>) {
    signals == [] ||
    (Legal(c, signals[..|signals| - 1])
     && Expects(After(c, signals[..|signals| - 1]).phase, signals[|signals| - 1]))
  }

  // ---------------------------------------------------------------- accounting for losses

  function Lost<M>(n: nat): seq<Option<M>> {
    seq(n, i => None)
  }

  /** The stream as the consumer can reconstruct it: a lag report stands for that many lost messages. */
  function Expand<M>(sent: seq<Event<M>>): seq<Option<M>> {
    if sent == [] then []
    else Expand(sent[..|sent| - 1]) + Meaning(sent[|sent| - 1])
  }

  function Meaning<M>(event: Event<M>): seq<Option<M>> {
    if event.Message? then [Some(event.message)] else if event.Lagged? then Lost(event.dropped) else []
  }

  /** The stream as it arrived, with the messages that did not make it blotted out. */
  function Seen<M>(arrivals: seq<M>, fates: seq<bool>): seq<Option<M>>
    requires |arrivals| == |fates|
  {
    seq(|arrivals|, i requires 0 <= i < |arrivals| => if fates[i] then Some(arrivals[i]) else None)
  }

  ghost predicate Accounted<M>(box: Outbox<M>, arrivals: seq<M>, fates: seq<bool>) {
    |arrivals| == |fates| && Expand(box.sent) + Lost(box.dropped) == Seen(arrivals, fates)
  }

  lemma ExpandAppend<M>(sent: seq<Event<M>>, event: Event<M>)
    ensures Expand(sent + [event]) == Expand(sent) + Meaning(event)
  {
    assert (sent + [event])[..|sent|] == sent;
  }

  lemma SeenAppend<M>(arrivals: seq<M>, fates: seq<bool>, message: M, delivered: bool)
    requires |arrivals| == |fates|
    ensures Seen(arrivals + [message], fates + [delivered])
         == Seen(arrivals, fates) + [if delivered then Some(message) else None]
  {
  }

  lemma ReportingKeepsAccount<M>(box: Outbox<M>, arrivals: seq<M>, fates: seq<bool>)
    requires Accounted(box, arrivals, fates)
    ensures Accounted(Outbox(box.sent + [Lagged(box.dropped)], 0), arrivals, fates)
  {
    ExpandAppend(box.sent, Lagged(box.dropped));
    assert Lost<M>(0) == [];
  }

  lemma DroppingKeepsAccount<M>(box: Outbox<M>, arrivals: seq<M>, fates: seq<bool>, message: M)
    requires Accounted(box, arrivals, fates)
    ensures Accounted(box.(dropped := box.dropped + 1), arrivals + [message], fates + [false])
  {
    SeenAppend(arrivals, fates, message, false);
    assert Lost<M>(box.dropped + 1) == Lost(box.dropped) + [None];
    assert Expand(box.sent) + (Lost(box.dropped) + [None]) == Expand(box.sent) + Lost(box.dropped) + [None];
  }

  lemma DeliveringKeepsAccount<M>(sent: seq<Event<M>>, arrivals: seq<M>, fates: seq<bool>, message: M)
    requires Accounted(Outbox(sent, 0), arrivals, fates)
    ensures Accounted(Outbox(sent + [Message(message)], 0), arrivals + [message], fates + [true])
  {
    SeenAppend(arrivals, fates, message, true);
    ExpandAppend(sent, Message(message));
    assert Lost<M>(0) == [];
  }

  lemma EnqueueKeepsAccount<M>(box: Outbox<M>, arrivals: seq<M>, fates: seq<bool>, message: M, lagFits: bool,
      messageFits: bool)
    requires Accounted(box, arrivals, fates)
    ensures Accounted(Enqueued(box, message, lagFits, messageFits),
                      arrivals + [message], fates + [Delivered(box, lagFits, messageFits)])
  {
    if box.dropped > 0 && !lagFits {
      DroppingKeepsAccount(box, arrivals, fates, message);
    } else {
      var reported := if box.dropped > 0 then box.sent + [Lagged(box.dropped)] else box.sent;
      if box.dropped > 0 {
        ReportingKeepsAccount(box, arrivals, fates);
      }
      if messageFits {
        DeliveringKeepsAccount(reported, arrivals, fates, message);
      } else {
        DroppingKeepsAccount(Outbox(reported, 0), arrivals, fates, message);
      }
    }
  }

  lemma StatusKeepsAccount<M>(box: Outbox<M>, arrivals: seq<M>, fates: seq<bool>, event: Event<M>)
    requires Accounted(box, arrivals, fates) && !event.Message? && !event.Lagged?
    ensures Accounted(box.(sent := box.sent + [event]), arrivals, fates)
  {
    ExpandAppend(box.sent, event);
    assert Expand(box.sent) + [] == Expand(box.sent);
  }

  // ---------------------------------------------------------------- the shape of the event stream

  /** What the events so far tell the consumer; `Broken` if they make no sense. */
  datatype Link = Up | Down | Over | Broken

  function Followed<M>(link: Link, event: Event<M>): Link {
    if link == Over || link == Broken then Broken
    else if event.Closed? then Over
    else if event.Disconnected? then Down
    else if event.Reconnected? then if link == Down then Up else Broken
    else if link == Up then Up else Broken
  }

  function Follow<M>(sent: seq<Event<M>>): Link {
    if sent == [] then Up else Followed(Follow(sent[..|sent| - 1]), sent[|sent| - 1])
  }

  lemma FollowAppend<M>(sent: seq<Event<M>>, event: Event<M>)
    ensures Follow(sent + [event]) == Followed(Follow(sent), event)
  {
    assert (sent + [event])[..|sent|] == sent;
  }

  /** The link as the loop itself knows it. */
  predicate LinkFits(phase: Phase, link: Link) {
    if phase == Reading || phase == ReportingLag then link == Up
    else if phase == Sleeping || phase == Connecting || phase == Announcing then link == Down
    else if phase == Reporting then link == Up || link == Down
    else link != Broken
  }

  /** The waiting time after so many failures. */
  function Backoff(c: Config, failures: nat): nat {
    if failures == 0 then c.reconnectDelay else Doubled(c, Backoff(c, failures - 1))
  }

  ghost predicate Inv<M>(c: Config, s: State<M>) {
    && Accounted(s.box, s.arrivals, s.fates)
    && LinkFits(s.phase, Follow(s.box.sent))
    && (s.phase != Reading && s.phase != ReportingLag && s.phase != Done ==> s.box.dropped == 0)
    && (s.phase != Reading && s.phase != Done ==> s.delay == Backoff(c, s.failures))
  }

  lemma EnqueueKeepsLink<M>(box: Outbox<M>, message: M, lagFits: bool, messageFits: bool)
    requires Follow(box.sent) == Up
    ensures Follow(Enqueued(box, message, lagFits, messageFits).sent) == Up
  {
    FollowAppend(box.sent, Lagged(box.dropped));
    FollowAppend(box.sent, Message(message));
    FollowAppend(box.sent + [Lagged(box.dropped)], Message(message));
  }

  lemma LagReportKeepsInv<M>(c: Config, s: State<M>)
    requires Inv(c, s) && s.phase == ReportingLag
    ensures Inv(c, Next(c, s, Sent))
  {
    ReportingKeepsAccount(s.box, s.arrivals, s.fates);
    FollowAppend(s.box.sent, Lagged(s.box.dropped));
  }

  lemma StatusKeepsInv<M>(c: Config, s: State<M>)
    requires Inv(c, s) && (s.phase == Reporting || s.phase == Announcing)
    ensures Inv(c, Next(c, s, Sent))
  {
    var event := if s.phase == Reporting then Disconnected(s.error, s.delay) else Reconnected;
    StatusKeepsAccount(s.box, s.arrivals, s.fates, event);
    FollowAppend(s.box.sent, event);
  }

  lemma ArrivalKeepsInv<M>(c: Config, s: State<M>, signal: Signal<M>, s': State<M>)
    requires Inv(c, s) && s.phase == Reading && signal.Arrival? && s' == Next(c, s, signal)
    ensures Inv(c, s')
  {
    EnqueueKeepsAccount(s.box, s.arrivals, s.fates, signal.message, signal.lagFits, signal.messageFits);
    EnqueueKeepsLink(s.box, signal.message, signal.lagFits, signal.messageFits);
  }

  lemma ShutdownKeepsInv<M>(c: Config, s: State<M>, s': State<M>)
    requires Inv(c, s) && s.phase != Done && s' == Next(c, s, Shutdown(true))
    ensures Inv(c, s')
  {
    StatusKeepsAccount(s.box, s.arrivals, s.fates, Closed);
    FollowAppend(s.box.sent, Closed);
  }

  /** Steps that only change what the loop waits for. */
  lemma QuietStepKeepsInv<M>(c: Config, s: State<M>, signal: Signal<M>, s': State<M>)
    requires Inv(c, s) && Expects(s.phase, signal) && s' == Next(c, s, signal)
    requires !signal.Arrival? && !signal.Sent? && !(signal.Shutdown? && signal.delivered)
    ensures Inv(c, s')
  {
    assert s'.box == s.box && s'.arrivals == s.arrivals && s'.fates == s.fates;
  }

  lemma StepKeepsInv<M>(c: Config, s: State<M>, signal: Signal<M>, s': State<M>)
    requires Inv(c, s) && Expects(s.phase, signal) && s' == Next(c, s, signal)
    ensures Inv(c, s')
  {
    if signal.Arrival? {
      ArrivalKeepsInv(c, s, signal, s');
    } else if signal.Sent? {
      SentKeepsInv(c, s, s');
    } else if signal.Shutdown? && signal.delivered {
      ShutdownKeepsInv(c, s, s');
    } else {
      QuietStepKeepsInv(c, s, signal, s');
    }
  }

  lemma SentKeepsInv<M>(c: Config, s: State<M>, s': State<M>)
    requires Inv(c, s) && Expects<M>(s.phase, Sent) && s' == Next(c, s, Sent)
    ensures Inv(c, s')
  {
    if s.phase == ReportingLag {
      LagReportKeepsInv(c, s);
    } else {
      StatusKeepsInv(c, s);
    }
  }

  lemma {:induction false} EveryRunKeepsInv<M>(c: Config, signals: seq<Signal<M>>)
    requires Legal(c, signals)
    ensures Inv(c, After(c, signals))
  {
    if signals == [] {
      assert Lost<M>(0) == [] && Seen<M>([], []) == [];
    } else {
      EveryRunKeepsInv(c, signals[..|signals| - 1]);
      StepKeepsInv(c, After(c, signals[..|signals| - 1]), signals[|signals| - 1], After(c, signals));
    }
  }

  /**
   * Gap-exact loss accounting. Whenever the queue was full, what the consumer was sent, each lag
   * report standing for that many lost messages, followed by the losses not yet reported, is the
   * stream as it arrived with exactly the undelivered messages missing, each in its place.
   */
  lemma EveryLossInItsPlace<M>(c: Config, signals: seq<Signal<M>>)
    requires Legal(c, signals)
    ensures var s := After(c, signals);
      |s.arrivals| == |s.fates| && Expand(s.box.sent) + Lost(s.box.dropped) == Seen(s.arrivals, s.fates)
  {
    EveryRunKeepsInv(c, signals);
  }

  lemma OneMoreSignal<M>(c: Config, signals: seq<Signal<M>>, signal: Signal<M>)
    requires Legal(c, signals + [signal])
    ensures Legal(c, signals) && Expects(After(c, signals).phase, signal)
    ensures After(c, signals + [signal]) == Next(c, After(c, signals), signal)
  {
    assert (signals + [signal])[..|signals|] == signals;
  }

  /** What has room goes out: a message, if there is room for it and for the lag report that is owed first. */
  ghost predicate HasRoom<M>(s: State<M>, lagFits: bool, messageFits: bool) {
    messageFits && (s.box.dropped == 0 || lagFits)
  }

  /**
   * Nothing is lost that has room. A message with room is the last thing sent and leaves no loss owed;
   * one without is owed; and a lag report that is owed and has room is sent, ahead of the message.
   */
  lemma WhatHasRoomIsSent<M>(c: Config, signals: seq<Signal<M>>, message: M, lagFits: bool, messageFits: bool)
    requires Legal(c, signals + [Arrival(message, lagFits, messageFits)])
    ensures var s, s' := After(c, signals), After(c, signals + [Arrival(message, lagFits, messageFits)]);
      && s'.arrivals == s.arrivals + [message] && s'.fates == s.fates + [HasRoom(s, lagFits, messageFits)]
      && (HasRoom(s, lagFits, messageFits) ==>
            s'.box.dropped == 0 && s'.box.sent != [] && s'.box.sent[|s'.box.sent| - 1] == Message(message))
      && (!HasRoom(s, lagFits, messageFits) ==> s'.box.dropped > 0)
      && (s.box.dropped > 0 && lagFits ==>
            |s'.box.sent| > |s.box.sent| && s'.box.sent[|s.box.sent|] == Lagged(s.box.dropped))
      && s.box.sent <= s'.box.sent
  {
    OneMoreSignal(c, signals, Arrival(message, lagFits, messageFits));
  }

  /** A shutdown that the consumer can still be told about ends with `Closed`, any other without a word. */
  lemma ShutdownSaysClosed<M>(c: Config, signals: seq<Signal<M>>, delivered: bool)
    requires Legal(c, signals + [Shutdown(delivered)])
    ensures var s, s' := After(c, signals), After(c, signals + [Shutdown(delivered)]);
      s'.phase == Done && s'.box.sent == s.box.sent + if delivered then [Closed] else []
  {
    OneMoreSignal(c, signals, Shutdown(delivered));
  }

  /** No loss is pending from the moment a disconnection is reported until messages arrive again. */
  lemma LossesAreReportedBeforeDisconnection<M>(c: Config, signals: seq<Signal<M>>)
    requires Legal(c, signals) && After(c, signals).phase in {Reporting, Sleeping, Connecting, Announcing}
    ensures var s := After(c, signals);
      |s.arrivals| == |s.fates| && Expand(s.box.sent) == Seen(s.arrivals, s.fates)
  {
    EveryRunKeepsInv(c, signals);
    assert Lost<M>(0) == [];
  }

  /** Messages come only over a live link, reconnections only after disconnections, and nothing after the close. */
  lemma EventsMakeSense<M>(c: Config, signals: seq<Signal<M>>)
    requires Legal(c, signals)
    ensures Follow(After(c, signals).box.sent) != Broken
  {
    EveryRunKeepsInv(c, signals);
  }

  /** At the end the consumer can account for every message if and only if no loss was pending. */
  lemma CloseAccountsForAllIffNothingPending<M>(c: Config, signals: seq<Signal<M>>)
    requires Legal(c, signals) && After(c, signals).phase == Done
    ensures var s := After(c, signals);
      |s.arrivals| == |s.fates| && (Expand(s.box.sent) == Seen(s.arrivals, s.fates) <==> s.box.dropped == 0)
  {
    EveryRunKeepsInv(c, signals);
    var s := After(c, signals);
    assert |Expand(s.box.sent) + Lost(s.box.dropped)| == |Expand(s.box.sent)| + s.box.dropped;
    assert Expand(s.box.sent) + [] == Expand(s.box.sent);
  }

  /** And a loss can be pending: one message that does not fit, then a shutdown. */
  lemma CloseCanLeaveALossUnreported()
    ensures var signals := [Arrival(0, true, false), Shutdown(true)];
      && Legal<int>(Config(1, 1), signals)
      && After<int>(Config(1, 1), signals).box == Outbox([Closed], 1)
  {
    var c := Config(1, 1);
    var one: seq<Signal<int>> := [Arrival(0, true, false)];
    var two: seq<Signal<int>> := [Arrival(0, true, false), Shutdown(true)];
    assert one[..0] == [] && two[..1] == one;
    assert After(c, one).box == Outbox([], 1);
    assert Legal(c, one);
  }

  function TwoTo(n: nat): nat {
    if n == 0 then 1 else 2 * TwoTo(n - 1)
  }

  /** The waiting time reported after each failed attempt doubles up to the limit. */
  lemma {:induction false} BackoffDoubles(c: Config, failures: nat)
    requires 0 < failures
    ensures Backoff(c, failures) == if c.reconnectDelay * TwoTo(failures) < c.maxReconnectDelay
                                    then c.reconnectDelay * TwoTo(failures) else c.maxReconnectDelay
  {
    var d, t := c.reconnectDelay, TwoTo(failures - 1);
    assert d * TwoTo(failures) == 2 * (d * t);
    if failures == 1 {
      assert TwoTo(0) == 1;
    } else {
      BackoffDoubles(c, failures - 1);
    }
  }

  /** What last went wrong: the end of the stream, or the error of an attempt to connect again. */
  function LastError<M>(signals: seq<Signal<M>>): string {
    if signals == [] then ""
    else
      var last := signals[|signals| - 1];
      if last.StreamEnded? then STREAM_ENDED
      else if last.ConnectFailed? then last.error
      else LastError(signals[..|signals| - 1])
  }

  /** How many attempts have failed since the stream ended. */
  function FailedAttempts<M>(signals: seq<Signal<M>>): nat {
    if signals == [] || signals[|signals| - 1].StreamEnded? then 0
    else FailedAttempts(signals[..|signals| - 1]) + if signals[|signals| - 1].ConnectFailed? then 1 else 0
  }

  lemma {:induction false} FailuresAreRemembered<M>(c: Config, signals: seq<Signal<M>>)
    ensures After(c, signals).error == LastError(signals) && After(c, signals).failures == FailedAttempts(signals)
  {
    if signals != [] {
      FailuresAreRemembered(c, signals[..|signals| - 1]);
    }
  }

  /** Every report of a disconnection names the last error and the delay after that many failed attempts. */
  lemma RetryFollowsBackoff<M>(c: Config, signals: seq<Signal<M>>)
    requires Legal(c, signals) && After(c, signals).phase == Reporting
    ensures var s := After(c, signals);
      Next(c, s, Sent).box.sent == s.box.sent + [Disconnected(LastError(signals), Backoff(c, FailedAttempts(signals)))]
  {
    EveryRunKeepsInv(c, signals);
    FailuresAreRemembered(c, signals);
  }

  // ---------------------------------------------------------------- the subscription loop

  lemma OneSignal<M>(c: Config, signals: seq<Signal<M>>, i: nat)
    requires Legal(c, signals) && i < |signals|
    ensures After(c, signals[..i + 1]) == Next(c, After(c, signals[..i]), signals[i])
    ensures Expects(After(c, signals[..i]).phase, signals[i])
  {
    PrefixIsLegal(c, signals, i + 1);
    assert signals[..i + 1][..i] == signals[..i];
  }

  lemma {:induction false} PrefixIsLegal<M>(c: Config, signals: seq<Signal<M>>, i: nat)
    requires Legal(c, signals) && i <= |signals|
    ensures Legal(c, signals[..i])
    decreases |signals|
  {
    if i == |signals| {
      assert signals[..i] == signals;
    } else {
      PrefixIsLegal(c, signals[..|signals| - 1], i);
      assert signals[..|signals| - 1][..i] == signals[..i];
    }
  }

  class Subscription<M> {
    const config: Config
    var sent: seq<Event<M>>
    var dropped: nat

    constructor (config: Config)
      ensures this.config == config && Box() == Outbox([], 0)
    {
      this.config, sent, dropped := config, [], 0;
    }

    function Box(): Outbox<M>
      reads this
    {
      Outbox(sent, dropped)
    }

    method Send(event: Event<M>)
      modifies `sent
      ensures sent == old(sent) + [event]
    {
      sent := sent + [event];
    }

    method EnqueueSubscriptionMessage(message: M, lagFits: bool, messageFits: bool)
      modifies this
      ensures Box() == Enqueued(old(Box()), message, lagFits, messageFits)
    {
      if dropped > 0 {
        if lagFits {
          Send(Lagged(dropped));
          dropped := 0;
        } else {
          dropped := dropped + 1;
          return;
        }
      }
      if messageFits {
        Send(Message(message));
      } else {
        dropped := dropped + 1;
      }
    }

    /** The loop has followed the signals up to `i`. */
    ghost predicate FollowedTo(signals: seq<Signal<M>>, i: nat)
      reads this
    {
      i <= |signals| && Legal(config, signals) && Box() == After(config, signals[..i]).box
    }

    /** The loop is over, or waiting for a signal that has not come. */
    ghost predicate AtTheEnd(signals: seq<Signal<M>>, i: nat)
      reads this
    {
      i == |signals| && Box() == After(config, signals).box
    }

    /** Shutdown and the consumer's departure end the loop wherever it waits. */
    method Leave(signals: seq<Signal<M>>, from: nat)
      requires FollowedTo(signals, from) && from < |signals|
      requires signals[from].Shutdown? || signals[from].ReceiverGone?
      modifies `sent
      ensures AtTheEnd(signals, from + 1)
    {
      OneSignal(config, signals, from);
      NothingAfterDone(config, signals, from + 1);
      assert signals[..|signals|] == signals;
      if signals[from].Shutdown? && signals[from].delivered {
        Send(Closed);
      }
    }

    /** Waits to send an event, unless the loop has to end first. */
    method SendSubscriptionEvent(signals: seq<Signal<M>>, from: nat, event: Event<M>) returns (i: nat, ok: bool)
      requires FollowedTo(signals, from)
      requires After(config, signals[..from]).phase in {ReportingLag, Reporting, Announcing}
      modifies `sent
      ensures ok ==> i == from + 1 <= |signals| && signals[from].Sent? && sent == old(sent) + [event]
      ensures !ok ==> AtTheEnd(signals, i)
    {
      assert signals[..|signals|] == signals;
      if from == |signals| {
        return from, false;
      }
      OneSignal(config, signals, from);
      if signals[from].Sent? {
        Send(event);
        return from + 1, true;
      }
      Leave(signals, from);
      i, ok := from + 1, false;
    }

    /** Waits for the delay or the connection attempt, unless the loop has to end first. */
    method Await(signals: seq<Signal<M>>, from: nat) returns (i: nat, ok: bool)
      requires FollowedTo(signals, from)
      requires After(config, signals[..from]).phase in {Sleeping, Connecting}
      modifies `sent
      ensures ok ==> i == from + 1 <= |signals| && !signals[from].Shutdown? && !signals[from].ReceiverGone?
      ensures ok ==> Box() == old(Box())
      ensures !ok ==> AtTheEnd(signals, i)
    {
      assert signals[..|signals|] == signals;
      if from == |signals| {
        return from, false;
      }
      OneSignal(config, signals, from);
      if signals[from].Shutdown? || signals[from].ReceiverGone? {
        Leave(signals, from);
        return from + 1, false;
      }
      i, ok := from + 1, true;
    }

    /** Reads one connection until it ends or the loop does. */
    method ReadConnection(signals: seq<Signal<M>>, from: nat) returns (i: nat, ok: bool)
      requires FollowedTo(signals, from) && After(config, signals[..from]).phase == Reading
      modifies this
      ensures !ok ==> AtTheEnd(signals, i)
      ensures ok ==> from < i && FollowedTo(signals, i) && JustEnded(config, After(config, signals[..i]))
    {
      i := from;
      assert signals[..|signals|] == signals;
      while i < |signals|
        invariant from <= i && FollowedTo(signals, i) && After(config, signals[..i]).phase == Reading
      {
        OneSignal(config, signals, i);
        var signal := signals[i];
        if signal.Arrival? {
          EnqueueSubscriptionMessage(signal.message, signal.lagFits, signal.messageFits);
        } else if signal.StreamEnded? {
          return i + 1, true;
        } else {
          Leave(signals, i);
          return i + 1, false;
        }
        i := i + 1;
      }
      ok := false;
    }

    /** One round of the reconnect loop: report, wait, try. */
    method TryOnce(signals: seq<Signal<M>>, from: nat, error: string, delay: nat) returns (i: nat, ok: bool)
      requires FollowedTo(signals, from)
      requires Failing(After(config, signals[..from]), error, delay)
      modifies `sent
      ensures !ok ==> AtTheEnd(signals, i)
      ensures ok ==> from < i <= |signals| && FollowedTo(signals, i)
      ensures ok ==> Tried(config, After(config, signals[..i]), signals[i - 1], delay)
    {
      OneSignalIf(config, signals, from);
      i, ok := SendSubscriptionEvent(signals, from, Disconnected(error, delay));
      if !ok {
        return;
      }
      OneSignalIf(config, signals, i);
      i, ok := Await(signals, i);
      if !ok {
        return;
      }
      OneSignalIf(config, signals, i);
      i, ok := Await(signals, i);
    }

    method Announce(signals: seq<Signal<M>>, from: nat) returns (i: nat, ok: bool)
      requires FollowedTo(signals, from) && After(config, signals[..from]).phase == Announcing
      modifies `sent
      ensures !ok ==> AtTheEnd(signals, i)
      ensures ok ==> from < i && FollowedTo(signals, i) && After(config, signals[..i]).phase == Reading
    {
      OneSignalIf(config, signals, from);
      i, ok := SendSubscriptionEvent(signals, from, Reconnected);
    }

    /** When a stream ends, pending losses are reported first. */
    method ReportLag(signals: seq<Signal<M>>, from: nat) returns (i: nat, ok: bool)
      requires FollowedTo(signals, from) && JustEnded(config, After(config, signals[..from]))
      modifies this
      ensures !ok ==> AtTheEnd(signals, i)
      ensures ok ==> from <= i && FollowedTo(signals, i)
      ensures ok ==> Failing(After(config, signals[..i]), STREAM_ENDED, config.reconnectDelay)
    {
      i, ok := from, true;
      if dropped > 0 {
        OneSignalIf(config, signals, from);
        i, ok := SendSubscriptionEvent(signals, from, Lagged(dropped));
        if ok {
          dropped := 0;
        }
      }
    }

    /** Reports the disconnection and tries again, ever more slowly, until there is a connection. */
    method Reconnect(signals: seq<Signal<M>>, from: nat) returns (i: nat, ok: bool)
      requires FollowedTo(signals, from)
      requires Failing(After(config, signals[..from]), STREAM_ENDED, config.reconnectDelay)
      modifies `sent
      ensures !ok ==> AtTheEnd(signals, i)
      ensures ok ==> from < i && FollowedTo(signals, i) && After(config, signals[..i]).phase == Reading
    {
      var error, delay := STREAM_ENDED, config.reconnectDelay;
      i, ok := from, true;
      while ok
        invariant ok ==> from <= i && FollowedTo(signals, i) && Failing(After(config, signals[..i]), error, delay)
        invariant !ok ==> AtTheEnd(signals, i)
        decreases ok, |signals| - i
      {
        i, ok := TryOnce(signals, i, error, delay);
        if ok {
          if signals[i - 1].ConnectedAgain? {
            i, ok := Announce(signals, i);
            return;
          }
          error := signals[i - 1].error;
          delay := Doubled(config, delay);
        }
      }
    }

    /** The whole loop: what it has sent and what it still owes is what the state machine says. */
    method Run(signals: seq<Signal<M>>)
      requires Legal(config, signals) && Box() == Outbox([], 0)
      modifies this
      ensures Box() == After(config, signals).box
    {
      var i: nat, ok := 0, true;
      while ok
        invariant ok ==> FollowedTo(signals, i) && After(config, signals[..i]).phase == Reading
        invariant !ok ==> AtTheEnd(signals, i)
        decreases ok, |signals| - i
      {
        i, ok := ReadConnection(signals, i);
        if ok {
          i, ok := ReportLag(signals, i);
        }
        if ok {
          i, ok := Reconnect(signals, i);
        }
      }
    }
  }

  /** The stream has just ended. */
  predicate JustEnded<M>(c: Config, s: State<M>) {
    && s.phase == (if s.box.dropped > 0 then ReportingLag else Reporting)
    && s.error == STREAM_ENDED && s.delay == c.reconnectDelay
  }

  /** About to report this failure and this delay. */
  predicate Failing<M>(s: State<M>, error: string, delay: nat) {
    s.phase == Reporting && s.error == error && s.delay == delay
  }

  /** A connection attempt has just come out one way or the other. */
  predicate Tried<M>(c: Config, s: State<M>, signal: Signal<M>, delay: nat) {
    if signal.ConnectedAgain? then s.phase == Announcing
    else signal.ConnectFailed? && Failing(s, signal.error, Doubled(c, delay))
  }

  lemma OneSignalIf<M>(c: Config, signals: seq<Signal<M>>, i: nat)
    requires Legal(c, signals)
    ensures i < |signals| ==> After(c, signals[..i + 1]) == Next(c, After(c, signals[..i]), signals[i])
    ensures i < |signals| ==> Expects(After(c, signals[..i]).phase, signals[i])
  {
    if i < |signals| {
      OneSignal(c, signals, i);
    }
  }

  lemma NothingAfterDone<M>(c: Config, signals: seq<Signal<M>>, i: nat)
    requires Legal(c, signals) && i <= |signals| && After(c, signals[..i]).phase == Done
    ensures i == |signals|
  {
    if i < |signals| {
      OneSignal(c, signals, i);
    }
  }
}
