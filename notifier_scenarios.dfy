/** Runs of the multiplexer from a fresh notifier, each stated in terms of what the
    subscribers' buffers hold and which commands reached the connection. */
module NotifierScenarios {
  import opened Wrappers
  import opened NotifierSpec
  import opened Notifier

  /** The bytes of "evt1". */
  const Evt1: Payload := [101, 118, 116, 49]

  /** The first subscriber of "orders" queues its LISTEN, which the next turn issues
      before waiting; that turn closes the established signal and buffers "evt1". A
      second subscriber then shares the closed signal, starts with an empty buffer and
      queues nothing. */
  method OrdersScenario() returns (first: seq<Payload>, second: seq<Payload>, issued: seq<Command>,
                                   shared: bool, established: bool, pending: nat)
    ensures first == [Evt1] && second == []
    ensures issued == [Command.Listen("orders")] && pending == 1
    ensures shared && established
  {
    var n, a := FirstSubscriber("orders");
    var _ := n.WaitOnce(false, Received(Notification("orders", Evt1)));
    issued, first := n.log, a.buffered;
    var b := n.Listen("orders");
    second, shared, established, pending := b.buffered, a.established == b.established, b.established.closed, |n.changes|;
  }

  /** The first subscription of a fresh notifier: it is the channel's only one, it
      queued the one "listen" change with the close of its fresh, unclosed signal, and
      nothing has been issued or delivered yet. */
  method FirstSubscriber(channel: string) returns (n: Notifier, a: Subscription)
    ensures fresh(n) && fresh(a) && fresh(a.established) && n.Valid()
    ensures a.notifier == n && a.channel == channel && !a.unlistened
    ensures n.Created == {a} && n.registry.Keys == {channel} && n.registry[channel] == [a]
    ensures n.changes == [ChannelChange(channel, OnceClose(a.established), ListenOp)]
    ensures !a.established.closed && n.log == [] && a.buffered == []
    ensures n.ChangeSignals() == {a.established}
  {
    n := new Notifier();
    a := n.Listen(channel);
    assert n.changes[0].close.signal == a.established;
  }

  /** A second subscription on the same channel shares the first one's signal and
      queues nothing. */
  method TwoSubscribers(channel: string) returns (n: Notifier, a: Subscription, b: Subscription)
    ensures fresh(n) && fresh(a) && fresh(b) && fresh(a.established) && a != b && n.Valid()
    ensures a.notifier == n && b.notifier == n
    ensures n.Created == {a, b} && n.registry.Keys == {channel} && n.registry[channel] == [a, b]
    ensures n.changes == [ChannelChange(channel, OnceClose(a.established), ListenOp)]
    ensures a.established == b.established && !a.established.closed
    ensures n.log == [] && a.buffered == [] && b.buffered == []
    ensures a.channel == b.channel == channel && !a.unlistened && !b.unlistened
  {
    n, a := FirstSubscriber(channel);
    b := n.Listen(channel);
    assert ListedOn(n.registry, channel) == [a, b];
  }

  /** Two subscribers on "orders" each receive a notification on the channel, whatever
      the other's buffer holds; the turn issues the one LISTEN queued for the channel. */
  method FanOutScenario(p: Payload) returns (first: seq<Payload>, second: seq<Payload>, issued: seq<Command>)
    ensures first == [p] && second == [p]
    ensures issued == [Command.Listen("orders")]
  {
    var n, a, b := TwoSubscribers("orders");
    var _ := n.WaitOnce(false, Received(Notification("orders", p)));
    first, second, issued := a.buffered, b.buffered, n.log;
  }

  /** Withdrawing the first of two subscribers leaves the second listed and issues
      nothing. */
  method WithdrawScenario() returns (issued: seq<Command>, remaining: seq<Subscription>, second: Subscription)
    ensures issued == [] && remaining == [second]
  {
    var n, a, b := TwoSubscribers("orders");
    a.Unlisten();
    issued, remaining, second := n.log, ListedOn(n.registry, "orders"), b;
  }

  /** Withdrawing the only subscriber issues UNLISTEN and drops the channel; a second
      withdrawal changes nothing. */
  method LastWithdrawScenario() returns (issued: seq<Command>, remaining: bool)
    ensures issued == [Command.Unlisten("orders")] && !remaining
  {
    var n, a := FirstSubscriber("orders");
    a.Unlisten();
    a.Unlisten();
    issued, remaining := n.log, "orders" in n.registry;
  }

  /** A subscriber that nobody reads from: of three notifications, the first two are
      buffered and the third is dropped. */
  method OverflowScenario(p1: Payload, p2: Payload, p3: Payload) returns (buffered: seq<Payload>)
    ensures buffered == [p1, p2]
  {
    var n, s := FirstSubscriber("jobs");
    assert s in n.Created && s in ListedOn(n.registry, s.channel);
    var _ := n.WaitOnce(false, Received(Notification("jobs", p1)));
    assert s.buffered == [p1];
    var _ := n.WaitOnce(false, Received(Notification("jobs", p2)));
    assert s.buffered == [p1, p2];
    var _ := n.WaitOnce(false, Received(Notification("jobs", p3)));
    buffered := s.buffered;
  }

  /** Subscribing again after the last subscriber left queues a second "listen"
      change for the channel, carrying the close of a fresh, unclosed signal; the first
      change stays in the list, so the next replay issues LISTEN for both. */
  method ResubscribeScenario() returns (issued: seq<Command>, freshSignal: bool, pending: seq<ChannelChange>)
    ensures issued == [Command.Unlisten("orders")]
    ensures freshSignal
    ensures |pending| == 2 && pending[0].channel == pending[1].channel == "orders"
    ensures pending[0].operation == pending[1].operation == ListenOp
  {
    var n, a := FirstSubscriber("orders");
    a.Unlisten();
    issued := n.log;
    var b := n.Listen("orders");
    freshSignal := a.established != b.established && !b.established.closed;
    pending := n.changes;
  }

  /** The change list outlives its channel: after the only subscriber withdrew, the next
      turn still replays the old "listen" change and issues LISTEN again for a channel
      nobody is subscribed to. */
  method StaleListenScenario() returns (issued: seq<Command>, subscribed: bool)
    ensures issued == [Command.Unlisten("orders"), Command.Listen("orders")]
    ensures !subscribed
  {
    var n, a := FirstSubscriber("orders");
    a.Unlisten();
    assert n.log == [Command.Unlisten("orders")] && "orders" !in n.registry;
    assert Replay(n.changes) == [Command.Listen("orders")];
    var _ := n.WaitOnce(false, WaitFailed(DeadlineExceeded));
    issued, subscribed := n.log, "orders" in n.registry;
  }

  /** Two turns on channel "x": the wait's deadline passes, then a notification arrives. */
  function DeadlineThenReceive(p: Payload): seq<Cycle>
  {
    [Cycle(WaitFailed(DeadlineExceeded), false), Cycle(Received(Notification("x", p)), false)]
  }

  /** Neither turn stops the run, and an empty buffer fed with both holds the
      notification. */
  lemma DeadlineThenReceiveDelivers(p: Payload)
    ensures RunOutcome(DeadlineThenReceive(p)) == Running
    ensures Delivered([], "x", DeadlineThenReceive(p)) == [p]
  {
    var env := DeadlineThenReceive(p);
    FirstStopDecides(env, 2);
    DeliveredStep(env, 0);
    DeliveredStep(env, 1);
    assert env[..0] == [] && env[..2] == env;
    assert Delivered([], "x", env[..1]) == Deliver([], "x", env[0]) == [];
  }

  /** A run whose first turn hits the wait's deadline and whose second turn receives a
      notification on the subscriber's channel goes on running, and the notification is
      in the subscriber's buffer. */
  method RunDeliveryScenario(p: Payload) returns (r: RunEnd, buffered: seq<Payload>)
    ensures r == Running && buffered == [p]
  {
    var n, a := FirstSubscriber("x");
    assert a in ListedOn(n.registry, "x");
    r, buffered := RunDeadlineThenReceive(n, a, p);
  }

  /** Runs a deadline turn and then a turn receiving `p` on "x", for a subscription
      listed on "x" whose buffer is empty. */
  method RunDeadlineThenReceive(n: Notifier, a: Subscription, p: Payload) returns (r: RunEnd, buffered: seq<Payload>)
    requires n.Sound() && a in n.Created && a.channel == "x" && a in ListedOn(n.registry, "x") && a.buffered == []
    modifies n`log, n`waitCancelRequested, n.ChangeSignals(), n.Created`buffered
    ensures r == Running && buffered == [p]
  {
    ghost var start := n.Buffers();
    assert a in start && start[a] == [];
    var env := DeadlineThenReceive(p);
    DeadlineThenReceiveDelivers(p);
    r := n.Run(env);
    assert env[..2] == env;
    assert n.BuffersFed(start, env);
    assert a.buffered == Delivered(start[a], "x", env);
    buffered := a.buffered;
  }

  /** A deadline while the outer context is live keeps the loop going; a connection
      error on the second turn ends it, and that error is what `Run` returns. */
  /** After one turn of the run loop the subscriber's "established" signal is closed and the wait's cancel flag is clear. */
  method EstablishedAfterRunScenario() returns (established: bool, cancelPending: bool)
    ensures established && !cancelPending
  {
    var n, a := FirstSubscriber("x");
    var r := n.Run([Cycle(WaitFailed(DeadlineExceeded), false)]);
    assert "x" in n.registry && n.registry["x"][0] == a;
    established := a.established.closed;
    cancelPending := n.waitCancelRequested;
  }

  method FatalScenario(reason: string) returns (r: RunEnd)
    ensures r == Stopped(Some(ConnectionError(reason)), 2)
  {
    var n := new Notifier();
    r := n.Run([Cycle(WaitFailed(DeadlineExceeded), false), Cycle(WaitFailed(ConnectionError(reason)), false),
                Cycle(WaitFailed(Canceled), false)]);
  }
}
