/** The subscription multiplexer of notifier/notifier.go, in its imperative form: a
    `Notifier` object owning the registry from channel name to subscriptions, the list
    of pending channel changes and the connection (seen here as the log of commands
    issued on it); `Subscription` objects, each with a bounded notification buffer, a
    one-shot "established" signal shared with its co-subscribers and a once-only
    withdrawal. */
module Notifier {
  import opened Wrappers
  import opened NotifierSpec

  /** The "established" channel of a subscription: it carries no values and is only ever
      closed, which releases everyone waiting on it. */
  class Signal {
    var closed: bool

    constructor ()
      ensures !closed
    {
      closed := false;
    }

    /** Go's `close` on the channel. Closing a channel that is already closed panics, so
        every caller must show that the channel is still open. */
    method Close()
      requires !closed
      modifies this
      ensures closed
    {
      closed := true;
    }

    /** The function `sync.OnceFunc` builds around `close`: only its first call closes the
        channel, every later call does nothing. That wrapper is the only code that closes
        the channel, so its "already called" state is exactly `closed`; `Close`'s
        precondition makes every replay of a "listen" change show that the channel is
        never closed twice. */
    method CloseOnce()
      modifies this
      ensures closed
      ensures old(closed) ==> unchanged(this)
    {
      if !closed {
        Close();
      }
    }
  }

  /** The close function a subscription carries: the first subscriber of a channel holds
      the once-only close of its fresh signal, later subscribers a function that does
      nothing. */
  datatype Closer = OnceClose(signal: Signal) | NoopClose

  /** The operation string of a change, as the replay's `switch` tells them apart:
      "listen", "unlisten", or `OtherOp(name)` for any string `name` other than those
      two (the replay only logs such a change). */
  datatype Operation = ListenOp | UnlistenOp | OtherOp(name: string)

  /** A pending change to the connection's registrations (`channelChange`). */
  datatype ChannelChange = ChannelChange(channel: string, close: Closer, operation: Operation)

  /** The commands replaying one change issues: LISTEN for "listen", UNLISTEN for
      "unlisten", none for any other operation (which the source only logs). */
  function Effect(c: ChannelChange): (r: seq<Command>)
    ensures |r| <= 1
  {
    if c.operation == ListenOp then [Command.Listen(c.channel)]
    else if c.operation == UnlistenOp then [Command.Unlisten(c.channel)]
    else []
  }

  /** A change issues commands on its own channel only: LISTEN exactly when it is a
      "listen" change, UNLISTEN exactly when it is an "unlisten" change, and nothing
      for any other operation. */
  lemma EffectCommands(c: ChannelChange)
    ensures forall cmd :: cmd in Effect(c) ==> cmd.channel == c.channel
    ensures Command.Listen(c.channel) in Effect(c) <==> c.operation == ListenOp
    ensures Command.Unlisten(c.channel) in Effect(c) <==> c.operation == UnlistenOp
    ensures Effect(c) == [] <==> c.operation.OtherOp?
  {
  }

  /** The commands replaying a list of changes issues, in list order. */
  function Replay(cs: seq<ChannelChange>): (r: seq<Command>)
    ensures |r| <= |cs|
  {
    if cs == [] then [] else Effect(cs[0]) + Replay(cs[1..])
  }

  /** Replaying two lists one after the other issues the commands of the first and then
      those of the second. */
  lemma {:induction false} ReplayConcat(a: seq<ChannelChange>, b: seq<ChannelChange>)
    ensures Replay(a + b) == Replay(a) + Replay(b)
  {
    if a == [] {
      assert a + b == b;
    } else {
      assert (a + b)[1..] == a[1..] + b;
      ReplayConcat(a[1..], b);
    }
  }

  /** Replaying one more change issues that change's commands after the others. */
  lemma ReplaySnoc(cs: seq<ChannelChange>, c: ChannelChange)
    ensures Replay(cs + [c]) == Replay(cs) + Effect(c)
  {
    ReplayConcat(cs, [c]);
    assert [c][1..] == [];
  }

  /** After `prefix`, replaying the first `i + 1` changes is replaying the first `i`
      and then change `i`. */
  lemma ReplayStep(prefix: seq<Command>, cs: seq<ChannelChange>, i: nat)
    requires i < |cs|
    ensures prefix + Replay(cs[..i + 1]) == prefix + Replay(cs[..i]) + Effect(cs[i])
  {
    assert cs[..i + 1] == cs[..i] + [cs[i]];
    ReplaySnoc(cs[..i], cs[i]);
  }

  /** Every command a replay issues is the one command of some change in the list:
      replaying issues nothing the changes do not ask for. */
  lemma {:induction false} ReplayFromChanges(cs: seq<ChannelChange>, j: nat)
    requires j < |Replay(cs)|
    ensures exists k :: 0 <= k < |cs| && Effect(cs[k]) == [Replay(cs)[j]]
  {
    var head := Effect(cs[0]);
    assert Replay(cs) == head + Replay(cs[1..]);
    if j < |head| {
      assert Effect(cs[0]) == [Replay(cs)[j]];
    } else {
      ReplayFromChanges(cs[1..], j - |head|);
      var k :| 0 <= k < |cs[1..]| && Effect(cs[1..][k]) == [Replay(cs[1..])[j - |head|]];
      assert cs[1..][k] == cs[k + 1];
      assert Effect(cs[k + 1]) == [Replay(cs)[j]];
    }
  }

  /** Every "listen" change in the list, wherever it stands, makes a replay issue LISTEN
      for its channel. */
  lemma {:induction false} ReplayIssuesListen(cs: seq<ChannelChange>, k: nat)
    requires k < |cs| && cs[k].operation == ListenOp
    ensures Command.Listen(cs[k].channel) in Replay(cs)
  {
    if k > 0 {
      assert cs[1..][k - 1] == cs[k];
      ReplayIssuesListen(cs[1..], k - 1);
    }
  }

  /** The subscriptions a registry lists for a channel; none for a channel without a
      key (a Go map lookup of a missing key yields a nil slice). */
  function ListedOn<T>(registry: map<string, seq<T>>, ch: string): seq<T>
  {
    if ch in registry then registry[ch] else []
  }

  /** A channel key is present only with a non-empty list; every listed subscription was
      handed out for that channel, occurs once in its list, and shares the established
      signal of the list's first subscription. */
  ghost predicate ListsWellFormed(registry: map<string, seq<Subscription>>, created: set<Subscription>)
  {
    forall ch :: ch in registry ==>
      && registry[ch] != []
      && Distinct(registry[ch])
      && forall i :: 0 <= i < |registry[ch]| ==>
           registry[ch][i] in created && registry[ch][i].channel == ch &&
           registry[ch][i].established == registry[ch][0].established
  }

  /** A channel's list in a well-formed registry has no repeats, and holds only
      subscriptions handed out for that channel. */
  lemma ListedWellFormed(registry: map<string, seq<Subscription>>, created: set<Subscription>, ch: string)
    requires ListsWellFormed(registry, created)
    ensures Distinct(ListedOn(registry, ch))
    ensures forall s :: s in ListedOn(registry, ch) ==> s in created && s.channel == ch
  {
  }

  /** A subscription (other than `x`) is listed exactly while it has not been withdrawn. */
  ghost predicate ListedIffLive(registry: map<string, seq<Subscription>>, created: set<Subscription>, x: Subscription?)
    reads created`unlistened
  {
    forall s :: s in created && s != x ==> (!s.unlistened <==> s in ListedOn(registry, s.channel))
  }

  /** Only "listen" changes carrying a once-only close are ever queued, and the signal
      of every subscribed channel is closed by the change at `at[ch]`. */
  ghost predicate ChangesCoverSignals(registry: map<string, seq<Subscription>>, changes: seq<ChannelChange>, at: map<string, nat>)
  {
    && (forall k :: 0 <= k < |changes| ==> changes[k].operation == ListenOp && changes[k].close.OnceClose?)
    && (forall ch :: ch in registry ==>
          ch in at && at[ch] < |changes| && registry[ch] != [] &&
          changes[at[ch]] == ChannelChange(ch, OnceClose(registry[ch][0].established), ListenOp))
  }

  /** Appending a new subscription that shares the signal of its channel's first one
      keeps the lists well formed. */
  lemma AppendKeepsLists(registry: map<string, seq<Subscription>>, created: set<Subscription>, ch: string, sub: Subscription)
    requires ListsWellFormed(registry, created)
    requires sub !in created && sub.channel == ch
    requires ch in registry ==> sub.established == registry[ch][0].established
    ensures ListsWellFormed(registry[ch := ListedOn(registry, ch) + [sub]], created + {sub})
  {
    var before := ListedOn(registry, ch);
    var after := before + [sub];
    assert sub !in before by {
      forall i | 0 <= i < |before| ensures before[i] != sub {
        assert before[i] in created;
      }
    }
    DistinctSnoc(before, sub);
    forall i | 0 <= i < |after|
      ensures after[i] in created + {sub} && after[i].channel == ch && after[i].established == after[0].established
    {
      if i < |before| {
        assert after[i] == before[i];
      }
      if before != [] {
        assert after[0] == before[0];
      }
    }
  }

  /** Appending a new live subscription keeps "listed exactly while live". */
  lemma AppendKeepsListed(registry: map<string, seq<Subscription>>, created: set<Subscription>, ch: string, sub: Subscription)
    requires ListedIffLive(registry, created, null)
    requires sub !in created && sub.channel == ch && !sub.unlistened
    ensures ListedIffLive(registry[ch := ListedOn(registry, ch) + [sub]], created + {sub}, null)
  {
    var reg := registry[ch := ListedOn(registry, ch) + [sub]];
    forall s | s in created + {sub}
      ensures !s.unlistened <==> s in ListedOn(reg, s.channel)
    {
      if s != sub && s.channel == ch {
        assert s in ListedOn(reg, ch) <==> s in ListedOn(registry, ch);
      }
    }
  }

  /** Queueing a "listen" change for a channel not yet subscribed, and recording its
      position, keeps the change list covering every subscribed channel's signal. */
  lemma QueueKeepsChanges(registry: map<string, seq<Subscription>>, changes: seq<ChannelChange>, at: map<string, nat>,
                          ch: string, signal: Signal)
    requires ChangesCoverSignals(registry, changes, at) && ch !in registry
    ensures ChangesCoverSignals(registry, changes + [ChannelChange(ch, OnceClose(signal), ListenOp)], at[ch := |changes|])
  {
    var changes' := changes + [ChannelChange(ch, OnceClose(signal), ListenOp)];
    forall c | c in registry
      ensures changes'[at[c]] == changes[at[c]]
    {
    }
  }

  /** Registering `sub` keeps the change list covering every subscribed channel's
      signal: on a channel already subscribed the first subscription stays; on a new
      channel the change at the recorded position carries the close of the new
      subscription's signal. */
  lemma AppendKeepsChanges(registry: map<string, seq<Subscription>>, changes: seq<ChannelChange>, at: map<string, nat>,
                           ch: string, sub: Subscription)
    requires ChangesCoverSignals(registry, changes, at)
    requires ch !in registry ==>
      ch in at && at[ch] < |changes| && changes[at[ch]] == ChannelChange(ch, OnceClose(sub.established), ListenOp)
    ensures ChangesCoverSignals(registry[ch := ListedOn(registry, ch) + [sub]], changes, at)
  {
    var reg: map<string, seq<Subscription>> := registry[ch := ListedOn(registry, ch) + [sub]];
    forall c | c in reg
      ensures c in at && at[c] < |changes| && reg[c] != [] &&
        changes[at[c]] == ChannelChange(c, OnceClose(reg[c][0].established), ListenOp)
    {
      if c == ch && ch in registry {
        assert reg[c][0] == registry[c][0];
      }
    }
  }

  /** Removing a live subscription from its channel's list (and the key with the last
      one) keeps the lists well formed, leaves it unlisted, keeps every other
      subscription's standing, and keeps each remaining channel's signal. */
  lemma RemoveKeepsInvariant(registry: map<string, seq<Subscription>>, created: set<Subscription>,
                             changes: seq<ChannelChange>, at: map<string, nat>, sub: Subscription)
    requires ListsWellFormed(registry, created) && ListedIffLive(registry, created, null)
    requires ChangesCoverSignals(registry, changes, at)
    requires sub in created && !sub.unlistened
    ensures var rest := Without(ListedOn(registry, sub.channel), sub);
      var reg := if rest == [] then registry - {sub.channel} else registry[sub.channel := rest];
      && ListsWellFormed(reg, created) && ListedIffLive(reg, created, sub)
      && ChangesCoverSignals(reg, changes, at) && sub !in ListedOn(reg, sub.channel)
  {
    var ch := sub.channel;
    var before := ListedOn(registry, ch);
    var rest := Without(before, sub);
    var reg := if rest == [] then registry - {ch} else registry[ch := rest];
    assert sub in before;
    WithoutDistinct(before, sub);
    if rest != [] {
      assert rest[0] in before;
      forall i | 0 <= i < |rest|
        ensures rest[i] in created && rest[i].channel == ch && rest[i].established == rest[0].established
      {
        assert rest[i] in before;
      }
    }
    forall s | s in created && s != sub
      ensures !s.unlistened <==> s in ListedOn(reg, s.channel)
    {
      if s.channel == ch {
        assert s in before <==> s in rest;
      }
    }
  }

  /** Once the subscription left out of "listed exactly while live" is marked withdrawn
      and is no longer listed, the property holds for every subscription. */
  lemma WithdrawnKeepsListed(registry: map<string, seq<Subscription>>, created: set<Subscription>, sub: Subscription)
    requires ListedIffLive(registry, created, sub)
    requires sub.unlistened && sub !in ListedOn(registry, sub.channel)
    ensures ListedIffLive(registry, created, null)
  {
  }

  /** What removing `x` from the list of `ch` (and the key with the last element) does
      to a registry: the key goes exactly when `x` was the only element, the list loses
      exactly the slot of `x`, and every other channel keeps its list. */
  lemma RemovalShape<T>(registry: map<string, seq<T>>, registry': map<string, seq<T>>, ch: string, x: T)
    requires Distinct(ListedOn(registry, ch)) && x in ListedOn(registry, ch)
    requires var rest := Without(ListedOn(registry, ch), x);
      registry' == if rest == [] then registry - {ch} else registry[ch := rest]
    ensures |ListedOn(registry, ch)| <= 1 <==> ListedOn(registry, ch) == [x]
    ensures ListedOn(registry, ch) == [x] <==> ch !in registry'
    ensures forall k :: 0 <= k < |ListedOn(registry, ch)| && ListedOn(registry, ch)[k] == x ==>
      ListedOn(registry', ch) == ListedOn(registry, ch)[..k] + ListedOn(registry, ch)[k + 1..]
    ensures forall c :: c != ch ==> ListedOn(registry', c) == ListedOn(registry, c)
  {
    var before := ListedOn(registry, ch);
    WithoutOnce(before, x);
    if |before| == 1 {
      assert before[0] == x;
    }
  }

  /** Once every "listen" change of the list has called its close, the signal of every
      subscribed channel is closed. */
  lemma CoveredSignalsClosed(registry: map<string, seq<Subscription>>, changes: seq<ChannelChange>, at: map<string, nat>)
    requires ChangesCoverSignals(registry, changes, at)
    requires forall k :: 0 <= k < |changes| && changes[k].operation == ListenOp && changes[k].close.OnceClose? ==>
      changes[k].close.signal.closed
    ensures forall k :: 0 <= k < |changes| && changes[k].close.OnceClose? ==> changes[k].close.signal.closed
    ensures forall ch :: ch in registry ==> registry[ch][0].established.closed
  {
    forall ch | ch in registry
      ensures registry[ch][0].established.closed
    {
      assert changes[at[ch]].close.signal == registry[ch][0].established;
    }
  }

  /** A handle returned by `Listen`. */
  class Subscription {
    const channel: string
    const notifier: Notifier
    const established: Signal
    const closer: Closer
    /** The contents of the buffered channel `listenChan` (capacity 2): what the run
        loop has delivered and the subscriber has not yet read, oldest first. The
        channel belongs to this subscription alone. */
    var buffered: seq<Payload>
    /** The `unlistenOnce` guard has run. */
    var unlistened: bool

    constructor (channel: string, notifier: Notifier, established: Signal, closer: Closer)
      ensures this.channel == channel && this.notifier == notifier
      ensures this.established == established && this.closer == closer
      ensures buffered == [] && !unlistened
    {
      this.channel := channel;
      this.notifier := notifier;
      this.established := established;
      this.closer := closer;
      buffered := [];
      unlistened := false;
    }

    /** A send on `listenChan` that never blocks (`select` with a `default` case): the
        payload is queued when there is room and dropped when the buffer is full. */
    method TrySend(p: Payload) returns (sent: bool)
      modifies this`buffered
      ensures sent <==> |old(buffered)| < BufferCapacity
      ensures buffered == Offer(old(buffered), BufferCapacity, p)
    {
      sent := |buffered| < BufferCapacity;
      if sent {
        buffered := buffered + [p];
      }
    }

    /** Withdraws this subscription, at most once: the first call removes it from its
        channel's list, issuing UNLISTEN exactly when it was the channel's only
        subscriber; every later call changes nothing. */
    method Unlisten()
      requires notifier.Valid() && this in notifier.Created
      modifies this`unlistened, notifier`registry, notifier`log
      ensures notifier.Valid() && unlistened
      ensures old(unlistened) ==> notifier.registry == old(notifier.registry) && notifier.log == old(notifier.log)
      ensures !old(unlistened) ==> this in ListedOn(old(notifier.registry), channel)
      ensures !old(unlistened) && ListedOn(old(notifier.registry), channel) == [this] ==>
        notifier.log == old(notifier.log) + [Command.Unlisten(channel)] && channel !in notifier.registry
      ensures !old(unlistened) && ListedOn(old(notifier.registry), channel) != [this] ==>
        notifier.log == old(notifier.log) && channel in notifier.registry
      ensures !old(unlistened) ==> forall k :: 0 <= k < |ListedOn(old(notifier.registry), channel)| && ListedOn(old(notifier.registry), channel)[k] == this ==>
        ListedOn(notifier.registry, channel) == ListedOn(old(notifier.registry), channel)[..k] + ListedOn(old(notifier.registry), channel)[k + 1..]
      ensures forall ch :: ch != channel ==> ListedOn(notifier.registry, ch) == ListedOn(old(notifier.registry), ch)
    {
      if !unlistened {
        ghost var registry0 := notifier.registry;
        assert Distinct(ListedOn(registry0, channel)) && this in ListedOn(registry0, channel);
        notifier.Unlistener(this);
        RemovalShape(registry0, notifier.registry, channel, this);
        unlistened := true;
        WithdrawnKeepsListed(notifier.registry, notifier.Created, this);
      }
    }
  }

  /** The multiplexer. `log` is the sequence of commands issued on the connection;
      `waitCancelRequested` says that a `Listen` on a new channel has asked to cancel the
      current wait since the run loop installed that wait's cancel function. */
  class Notifier {
    var registry: map<string, seq<Subscription>>
    var changes: seq<ChannelChange>
    var waitCancelRequested: bool
    var log: seq<Command>
    /** Every subscription this notifier has handed out. */
    ghost var Created: set<Subscription>
    /** For each subscribed channel, the position of the "listen" change that carries
        the close of the channel's current signal. */
    ghost var listenChangeAt: map<string, nat>

    /** The signals whose close is held by a pending change. */
    ghost function ChangeSignals(): set<Signal>
      reads this`changes
    {
      set k | 0 <= k < |changes| && changes[k].close.OnceClose? :: changes[k].close.signal
    }

    /** The part of the object invariant that concerns the notifier's own fields: the
        lists are well formed and the change list covers the
        signal of every subscribed channel. */
    ghost predicate Sound()
      reads this`registry, this`changes, this`Created, this`listenChangeAt
    {
      && ListsWellFormed(registry, Created)
      && ChangesCoverSignals(registry, changes, listenChangeAt)
    }

    /** The object invariant, except that `x` may already be out of the registry while
        its withdrawal guard has not yet been marked. */
    ghost predicate ValidExcept(x: Subscription?)
      reads this`registry, this`changes, this`Created, this`listenChangeAt, Created`unlistened
    {
      Sound() && ListedIffLive(registry, Created, x)
    }

    ghost predicate Valid()
      reads this`registry, this`changes, this`Created, this`listenChangeAt, Created`unlistened
    {
      ValidExcept(null)
    }

    /** `NewNotifier`: no subscriptions, no changes, nothing issued yet. */
    constructor ()
      ensures Valid()
      ensures registry == map[] && changes == [] && log == [] && Created == {}
      ensures !waitCancelRequested
    {
      registry := map[];
      changes := [];
      waitCancelRequested := false;
      log := [];
      Created := {};
      listenChangeAt := map[];
    }

    /** Registers a new subscriber on `channel`. It is appended to the channel's list
        with an empty buffer of capacity 2. The first subscriber of a channel gets a fresh,
        unclosed signal, queues one "listen" change carrying its close, and cancels the
        current wait window; a later one shares the first subscriber's signal and queues
        nothing. */
    method Listen(channel: string) returns (sub: Subscription)
      requires Valid()
      modifies this`registry, this`changes, this`listenChangeAt, this`Created, this`waitCancelRequested
      ensures Valid()
      ensures fresh(sub)
      ensures sub.channel == channel && sub.notifier == this && !sub.unlistened
      ensures sub.buffered == []
      ensures registry == old(registry)[channel := ListedOn(old(registry), channel) + [sub]]
      ensures Created == old(Created) + {sub}
      ensures |ListedOn(old(registry), channel)| > 0 ==>
        && sub.established == ListedOn(old(registry), channel)[0].established
        && sub.closer == NoopClose
        && changes == old(changes)
        && waitCancelRequested == old(waitCancelRequested)
      ensures |ListedOn(old(registry), channel)| == 0 ==>
        && fresh(sub.established) && !sub.established.closed
        && sub.closer == OnceClose(sub.established)
        && changes == old(changes) + [ChannelChange(channel, OnceClose(sub.established), ListenOp)]
        && waitCancelRequested
    {
      var existing := ListedOn(registry, channel);
      if |existing| > 0 {
        sub := new Subscription(channel, this, existing[0].established, NoopClose);
      } else {
        var signal := new Signal();
        sub := new Subscription(channel, this, signal, OnceClose(signal));
        // The source appends the subscription before queueing the change; both happen
        // under the notifier's lock, so the order is not observable.
        QueueListen(channel, signal);
      }
      Register(sub);
    }

    /** The first subscription of `channel` queues a "listen" change carrying the close
        of its fresh signal and cancels the current wait window. */
    method QueueListen(channel: string, signal: Signal)
      requires Valid() && channel !in registry
      modifies this`changes, this`listenChangeAt, this`waitCancelRequested
      ensures Valid()
      ensures changes == old(changes) + [ChannelChange(channel, OnceClose(signal), ListenOp)]
      ensures channel in listenChangeAt && listenChangeAt[channel] == |old(changes)|
      ensures waitCancelRequested
    {
      QueueKeepsChanges(registry, changes, listenChangeAt, channel, signal);
      changes, listenChangeAt := changes + [ChannelChange(channel, OnceClose(signal), ListenOp)], listenChangeAt[channel := |changes|];
      waitCancelRequested := true;
    }

    /** Appends a subscription already built to its channel's list. A subscription on a
        channel already subscribed shares the signal of the channel's first one; the
        first subscription of a channel finds its "listen" change queued. */
    method Register(sub: Subscription)
      requires Valid()
      requires sub !in Created && sub.notifier == this && !sub.unlistened
      requires sub.channel in registry ==> sub.established == registry[sub.channel][0].established
      requires sub.channel !in registry ==>
        sub.channel in listenChangeAt && listenChangeAt[sub.channel] < |changes| &&
        changes[listenChangeAt[sub.channel]] == ChannelChange(sub.channel, OnceClose(sub.established), ListenOp)
      modifies this`registry, this`Created
      ensures Valid()
      ensures registry == old(registry)[sub.channel := ListedOn(old(registry), sub.channel) + [sub]]
      ensures Created == old(Created) + {sub}
    {
      var channel := sub.channel;
      AppendKeepsLists(registry, Created, channel, sub);
      AppendKeepsListed(registry, Created, channel, sub);
      AppendKeepsChanges(registry, changes, listenChangeAt, channel, sub);
      registry, Created := registry[channel := ListedOn(registry, channel) + [sub]], Created + {sub};
    }

    /** `unlistener`: issues UNLISTEN when the channel's list holds at most one
        subscription, then removes `sub` from the list by identity and drops the
        channel's key once the list is empty. */
    method Unlistener(sub: Subscription)
      requires Valid() && sub in Created && !sub.unlistened
      modifies this`registry, this`log
      ensures ValidExcept(sub)
      ensures sub !in ListedOn(registry, sub.channel)
      ensures log == if |ListedOn(old(registry), sub.channel)| <= 1 then old(log) + [Command.Unlisten(sub.channel)] else old(log)
      ensures var rest := Without(ListedOn(old(registry), sub.channel), sub);
        registry == if rest == [] then old(registry) - {sub.channel} else old(registry)[sub.channel := rest]
    {
      var ch := sub.channel;
      var subs := ListedOn(registry, ch);
      if |subs| <= 1 {
        log := log + [Command.Unlisten(ch)];
      }
      RemoveKeepsInvariant(registry, Created, changes, listenChangeAt, sub);
      var rest := Without(subs, sub);
      if rest == [] {
        registry := registry - {ch};
      } else {
        registry := registry[ch := rest];
      }
    }

    /** `processChannelChanges`: replays every pending change in list order, issuing
        its command and, for a "listen" change, calling its close. The list is left as it
        is, and nil is returned. */
    method ProcessChannelChanges() returns (err: Option<WaitError>)
      modifies this`log, ChangeSignals()
      ensures err == None
      ensures log == old(log) + Replay(changes)
      ensures forall k :: 0 <= k < |changes| && changes[k].operation == ListenOp && changes[k].close.OnceClose? ==>
        changes[k].close.signal.closed
    {
      var cs := changes;
      var i := 0;
      while i < |cs|
        invariant 0 <= i <= |cs|
        invariant log == old(log) + Replay(cs[..i])
        invariant forall k :: 0 <= k < i && cs[k].operation == ListenOp && cs[k].close.OnceClose? ==>
          cs[k].close.signal.closed
      {
        var u := cs[i];
        ReplayStep(old(log), cs, i);
        if u.operation == ListenOp {
          log := log + [Command.Listen(u.channel)];
          match u.close {
            case OnceClose(signal) => signal.CloseOnce();
            case NoopClose =>
          }
        } else if u.operation == UnlistenOp {
          log := log + [Command.Unlisten(u.channel)];
        }
        i := i + 1;
      }
      assert cs[..i] == cs;
      err := None;
    }

    /** The fan-out of `waitOnce`: every subscription of the notification's channel is
        offered the payload without blocking; a full buffer drops it. No other buffer
        changes. */
    method Dispatch(n: Notification)
      requires Distinct(ListedOn(registry, n.channel))
      requires forall s :: s in ListedOn(registry, n.channel) ==> s in Created
      modifies Created`buffered
      ensures forall s :: s in Created ==>
        s.buffered ==
          if s in ListedOn(registry, n.channel) then Offer(old(s.buffered), BufferCapacity, n.payload)
          else old(s.buffered)
    {
      var subs := ListedOn(registry, n.channel);
      var i := 0;
      while i < |subs|
        invariant 0 <= i <= |subs|
        invariant forall s :: s in Created ==>
          s.buffered ==
            if s in subs[..i] then Offer(old(s.buffered), BufferCapacity, n.payload)
            else old(s.buffered)
      {
        var sub := subs[i];
        assert sub in Created;
        DistinctNotBefore(subs, i);
        assert subs[..i + 1] == subs[..i] + [sub];
        var _ := sub.TrySend(n.payload);
        i := i + 1;
      }
      assert subs[..i] == subs;
    }

    /** One turn of the run loop: replay the pending changes, install a fresh wait
        window, take what the wait produced; a failed wait is judged by `WaitVerdict`, a
        received notification is fanned out to its channel's subscribers. Afterwards the
        established signal of every subscribed channel is closed. */
    method WaitOnce(outerDone: bool, outcome: WaitOutcome) returns (err: Option<WaitError>)
      requires Sound()
      modifies this`log, this`waitCancelRequested, ChangeSignals(), Created`buffered
      ensures err == CycleError(Cycle(outcome, outerDone))
      ensures log == old(log) + Replay(changes)
      ensures !waitCancelRequested
      ensures forall k :: 0 <= k < |changes| && changes[k].close.OnceClose? ==> changes[k].close.signal.closed
      ensures forall ch :: ch in registry ==> registry[ch][0].established.closed
      ensures forall s :: s in Created ==>
        s.buffered ==
          if s in ListedOn(registry, s.channel) then Deliver(old(s.buffered), s.channel, Cycle(outcome, outerDone))
          else old(s.buffered)
    {
      err := ProcessChannelChanges();
      if err.Some? {
        return;
      }
      CoveredSignalsClosed(registry, changes, listenChangeAt);
      waitCancelRequested := false;
      err := TakeOutcome(outerDone, outcome);
    }

    /** The second half of a turn: a failed wait is judged by `WaitVerdict`, a received
        notification is fanned out to its channel's subscribers. */
    method TakeOutcome(outerDone: bool, outcome: WaitOutcome) returns (err: Option<WaitError>)
      requires ListsWellFormed(registry, Created)
      modifies Created`buffered
      ensures err == CycleError(Cycle(outcome, outerDone))
      ensures forall s :: s in Created ==>
        s.buffered ==
          if s in ListedOn(registry, s.channel) then Deliver(old(s.buffered), s.channel, Cycle(outcome, outerDone))
          else old(s.buffered)
    {
      match outcome {
        case WaitFailed(e) =>
          err := WaitVerdict(e, outerDone);
        case Received(n) =>
          ListedWellFormed(registry, Created, n.channel);
          Dispatch(n);
          err := None;
      }
    }

    /** The buffer of every subscription created so far. */
    ghost function Buffers(): map<Subscription, seq<Payload>>
      reads this`Created, Created`buffered
    {
      map s | s in Created :: s.buffered
    }

    /** Every subscription holds what its buffer held at `start` fed with `turns`: the
        notifications on its channel when it is listed, and nothing otherwise. */
    ghost predicate BuffersFed(start: map<Subscription, seq<Payload>>, turns: seq<Cycle>)
      reads this`registry, this`Created, Created`buffered
    {
      forall s :: s in Created ==>
        s in start &&
        s.buffered == if s in ListedOn(registry, s.channel) then Delivered(start[s], s.channel, turns) else start[s]
    }

    /** What a finished turn leaves behind: no cancellation of the wait is pending, and
        the once-only close of every pending change has run, so its signal is closed. */
    ghost predicate Settled()
      reads this`changes, this`waitCancelRequested, ChangeSignals()
    {
      !waitCancelRequested &&
      forall k :: 0 <= k < |changes| && changes[k].close.OnceClose? ==> changes[k].close.signal.closed
    }

    /** The state after the first `n` turns of `env`, from a log `logged` and buffers
        `start`: the full replay issued once per turn, every buffer fed with those turns,
        and, once a turn was taken, that turn settled. */
    ghost predicate AfterTurns(env: seq<Cycle>, n: nat, logged: seq<Command>, start: map<Subscription, seq<Payload>>)
      reads this, Created`buffered, ChangeSignals()
    {
      n <= |env| &&
      log == logged + Repeat(Replay(changes), n) &&
      BuffersFed(start, env[..n]) &&
      (n > 0 ==> Settled())
    }

    /** One turn of `Run`'s loop: `waitOnce` on turn `i` of `env`, which adds one more
        replay to the `i` already issued after `logged`, and feeds that turn's
        notification on to the buffers fed with the turns before it. */
    method Turn(env: seq<Cycle>, i: nat, ghost logged: seq<Command>, ghost start: map<Subscription, seq<Payload>>)
      returns (err: Option<WaitError>)
      requires Sound() && i < |env|
      requires AfterTurns(env, i, logged, start)
      modifies this`log, this`waitCancelRequested, ChangeSignals(), Created`buffered
      ensures err == CycleError(env[i])
      ensures AfterTurns(env, i + 1, logged, start)
    {
      err := WaitOnce(env[i].outerDone, env[i].outcome);
      RepeatAppend(logged, Replay(changes), i);
      DeliveredStep(env, i);
    }

    /** `Run`: turns of the loop follow one another until one returns an error or ends
        with the outer context done. Every turn taken replays the whole change list
        again, and every subscriber still listed receives, turn after turn, the
        notifications on its channel, as far as its buffer has room. */
    method Run(env: seq<Cycle>) returns (r: RunEnd)
      requires Sound()
      modifies this`log, this`waitCancelRequested, ChangeSignals(), Created`buffered
      ensures r == RunOutcome(env)
      ensures log == old(log) + Repeat(Replay(changes), if r.Stopped? then r.cycles else |env|)
      ensures BuffersFed(old(Buffers()), env[..if r.Stopped? then r.cycles else |env|])
      ensures (|env| > 0 || old(Settled())) ==> Settled()
    {
      ghost var logged, start := log, Buffers();
      assert env[..0] == [];
      var i := 0;
      while i < |env|
        invariant 0 <= i <= |env|
        invariant forall j :: 0 <= j < i ==> !StopsRun(env[j])
        invariant AfterTurns(env, i, logged, start)
        invariant old(Settled()) ==> Settled()
      {
        var err := Turn(env, i, logged, start);
        if err.Some? || env[i].outerDone {
          FirstStopDecides(env, i);
          return Stopped(err, i + 1);
        }
        i := i + 1;
      }
      FirstStopDecides(env, i);
      assert env[..i] == env;
      return Running;
    }
  }
}
