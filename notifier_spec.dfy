/** The value-level part of the subscription multiplexer (notifier/notifier.go): the
    notification and command shapes, the non-blocking send into a subscriber's bounded
    buffer, removal of a subscription from its channel's list by identity, the decision
    `waitOnce` takes about a failed wait, and the rule that ends `Run`. */
module NotifierSpec {
  import opened Wrappers

  newtype byte = x: int | 0 <= x < 256

  type Payload = seq<byte>

  /** Capacity of every subscription's notification buffer (`make(chan []byte, 2)`). */
  const BufferCapacity: nat := 2

  /** A notification received on the shared connection. */
  datatype Notification = Notification(channel: string, payload: Payload)

  /** A command issued on the shared connection. The notifier discards what these
      commands return, so the model records only that they were issued. */
  datatype Command = Listen(channel: string) | Unlisten(channel: string)

  /** Why a wait for the next notification failed: its context was cancelled, its
      deadline passed, or the connection reported some other error. */
  datatype WaitError = Canceled | DeadlineExceeded | ConnectionError(reason: string)

  /** What one wait on the connection produced. */
  datatype WaitOutcome = Received(notification: Notification) | WaitFailed(error: WaitError)

  /** One turn of the run loop as the environment decides it: what the wait produced,
      and whether the outer context of `Run` is done by then. */
  datatype Cycle = Cycle(outcome: WaitOutcome, outerDone: bool)

  /** How a run of the loop ended: it returned `err` after `cycles` turns, or every
      supplied turn passed without a reason to stop. */
  datatype RunEnd = Stopped(err: Option<WaitError>, cycles: nat) | Running

  /** The buffer after a non-blocking send of `p`: the payload is appended when the
      buffer holds fewer than `capacity` items and dropped otherwise. */
  function Offer(items: seq<Payload>, capacity: nat, p: Payload): (r: seq<Payload>)
    ensures |r| >= |items| && r[..|items|] == items
    ensures |r| == |items| + 1 <==> |items| < capacity
    ensures |r| == |items| <==> |items| >= capacity
    ensures |r| > |items| ==> r[|items|] == p
    ensures |items| <= capacity ==> |r| <= capacity
  {
    if |items| < capacity then items + [p] else items
  }

  /** No element occurs twice: the first is not among the rest, and neither does any
      later one repeat. */
  predicate Distinct<T(==)>(xs: seq<T>)
  {
    xs == [] || (xs[0] !in xs[1..] && Distinct(xs[1..]))
  }

  /** In a list without repeats, two different positions hold different elements. */
  lemma {:induction false} DistinctApart<T>(xs: seq<T>, i: nat, j: nat)
    requires Distinct(xs) && i < j < |xs|
    ensures xs[i] != xs[j]
  {
    if i == 0 {
      assert xs[j] == xs[1..][j - 1];
    } else {
      DistinctApart(xs[1..], i - 1, j - 1);
    }
  }

  /** In a list without repeats, no element occurs before its own position. */
  lemma DistinctNotBefore<T>(xs: seq<T>, i: nat)
    requires Distinct(xs) && i < |xs|
    ensures xs[i] !in xs[..i]
  {
    forall j | 0 <= j < i ensures xs[..i][j] != xs[i] {
      DistinctApart(xs, j, i);
    }
  }

  /** Appending an element that does not occur yet keeps a list free of repeats. */
  lemma {:induction false} DistinctSnoc<T>(xs: seq<T>, y: T)
    requires Distinct(xs) && y !in xs
    ensures Distinct(xs + [y])
  {
    if xs == [] {
      assert [y][1..] == [];
    } else {
      assert (xs + [y])[1..] == xs[1..] + [y];
      DistinctSnoc(xs[1..], y);
    }
  }

  /** `slices.DeleteFunc(xs, func(y) bool { return y == x })`: every element equal to `x`
      is removed and the others keep their relative order. */
  function Without<T(==)>(xs: seq<T>, x: T): (r: seq<T>)
    ensures forall y :: y in r ==> y in xs && y != x
    ensures forall y :: y in xs && y != x ==> y in r
    ensures |r| <= |xs|
    ensures x !in xs ==> r == xs
  {
    if xs == [] then []
    else if xs[0] == x then Without(xs[1..], x)
    else [xs[0]] + Without(xs[1..], x)
  }

  /** Removal keeps a list free of repeats. */
  lemma {:induction false} WithoutDistinct<T>(xs: seq<T>, x: T)
    requires Distinct(xs)
    ensures Distinct(Without(xs, x))
  {
    if xs != [] {
      var tail := xs[1..];
      WithoutDistinct(tail, x);
      if xs[0] != x {
        var r := Without(xs, x);
        assert r == [xs[0]] + Without(tail, x);
        assert r[1..] == Without(tail, x);
      }
    }
  }

  /** Removing the single occurrence of an element cuts exactly its slot out of the
      list: the elements before and after it stay, in their order. */
  lemma {:induction false} WithoutAt<T>(xs: seq<T>, k: nat)
    requires Distinct(xs) && k < |xs|
    ensures Without(xs, xs[k]) == xs[..k] + xs[k + 1..]
    ensures |Without(xs, xs[k])| == |xs| - 1
  {
    if k == 0 {
      assert Without(xs, xs[0]) == Without(xs[1..], xs[0]);
      assert xs[..0] + xs[1..] == xs[1..];
    } else {
      var tail := xs[1..];
      assert tail[k - 1] == xs[k];
      WithoutAt(tail, k - 1);
      assert xs[0] != xs[k];
      assert Without(xs, xs[k]) == [xs[0]] + Without(tail, xs[k]);
      assert tail[..k - 1] == xs[1..k] && tail[k..] == xs[k + 1..];
      assert xs[..k] == [xs[0]] + xs[1..k];
    }
  }

  /** In a list without repeats, removing an element that occurs in it deletes exactly
      its one occurrence, and leaves nothing exactly when it was the only element. */
  lemma WithoutOnce<T>(xs: seq<T>, x: T)
    requires Distinct(xs) && x in xs
    ensures forall k :: 0 <= k < |xs| && xs[k] == x ==> Without(xs, x) == xs[..k] + xs[k + 1..]
    ensures Without(xs, x) == [] <==> xs == [x]
  {
    var k :| 0 <= k < |xs| && xs[k] == x;
    WithoutAt(xs, k);
    var r := Without(xs, x);
    assert r == xs[..k] + xs[k + 1..] && |r| == |xs| - 1;
    forall j | 0 <= j < |xs| && xs[j] == x
      ensures r == xs[..j] + xs[j + 1..]
    {
      assert j == k;
    }
    if |xs| == 1 {
      assert xs == [x];
    }
  }

  /** The verdict `waitOnce` reaches on a failed wait: a cancellation or an expired
      deadline while the outer context is still live is benign (`None`, the loop goes
      on); any other error, and any error once the outer context is done, is returned. */
  function WaitVerdict(e: WaitError, outerDone: bool): (r: Option<WaitError>)
    ensures r == None <==> (e == Canceled || e == DeadlineExceeded) && !outerDone
    ensures r != None ==> r == Some(e)
  {
    if (e.Canceled? || e.DeadlineExceeded?) && !outerDone then None else Some(e)
  }

  /** What one call of `waitOnce` returns for a given turn: nothing after a delivered
      notification, the verdict on the error otherwise. */
  function CycleError(c: Cycle): (r: Option<WaitError>)
    ensures c.outcome.Received? ==> r == None
    ensures c.outcome.WaitFailed? ==>
      (r == None <==> c.outcome.error in {Canceled, DeadlineExceeded} && !c.outerDone)
  {
    match c.outcome
    case Received(_) => None
    case WaitFailed(e) => WaitVerdict(e, c.outerDone)
  }

  /** `Run` leaves its loop after a turn whose `waitOnce` returned an error or at whose
      end the outer context is done. */
  predicate StopsRun(c: Cycle)
  {
    CycleError(c).Some? || c.outerDone
  }

  /** A turn ends the run whenever the outer context is done; while it is live, exactly
      when the wait failed with an error other than a cancellation or an expired
      deadline, so a delivered notification never ends it. */
  lemma StopsRunCases(c: Cycle)
    ensures c.outerDone ==> StopsRun(c)
    ensures !c.outerDone ==>
      (StopsRun(c) <==> c.outcome.WaitFailed? && c.outcome.error !in {Canceled, DeadlineExceeded})
  {
  }

  /** How `Run` ends on a sequence of turns: at the first turn that stops it, returning
      that turn's error (which is nil when only the outer context ended it after a
      delivered notification), or not at all. */
  function RunOutcome(env: seq<Cycle>): (r: RunEnd)
    ensures r.Stopped? ==>
      && 1 <= r.cycles <= |env|
      && StopsRun(env[r.cycles - 1])
      && r.err == CycleError(env[r.cycles - 1])
      && forall j :: 0 <= j < r.cycles - 1 ==> !StopsRun(env[j])
    ensures r.Running? ==> forall j :: 0 <= j < |env| ==> !StopsRun(env[j])
  {
    if env == [] then Running
    else if StopsRun(env[0]) then Stopped(CycleError(env[0]), 1)
    else
      match RunOutcome(env[1..])
      case Running => Running
      case Stopped(e, k) => Stopped(e, k + 1)
  }

  /** The first turn that stops the loop decides how the run ends, whatever follows
      it; a sequence of turns none of which stops it leaves the run going. */
  lemma FirstStopDecides(env: seq<Cycle>, i: nat)
    requires i <= |env|
    requires forall j :: 0 <= j < i ==> !StopsRun(env[j])
    ensures i < |env| && StopsRun(env[i]) ==> RunOutcome(env) == Stopped(CycleError(env[i]), i + 1)
    ensures i == |env| ==> RunOutcome(env) == Running
  {
  }

  /** A subscriber's buffer after one turn: a notification received on its channel is
      offered to it, and anything else leaves it as it was. */
  function Deliver(buf: seq<Payload>, ch: string, c: Cycle): seq<Payload>
  {
    if c.outcome.Received? && c.outcome.notification.channel == ch
    then Offer(buf, BufferCapacity, c.outcome.notification.payload)
    else buf
  }

  /** A subscriber's buffer after a sequence of turns, taken in order. What it held
      before is never lost or reordered, and a buffer within its capacity stays within
      it. */
  function Delivered(buf: seq<Payload>, ch: string, turns: seq<Cycle>): (r: seq<Payload>)
    ensures |r| >= |buf| && r[..|buf|] == buf
    ensures |buf| <= BufferCapacity ==> |r| <= BufferCapacity
  {
    if turns == [] then buf
    else Deliver(Delivered(buf, ch, turns[..|turns| - 1]), ch, turns[|turns| - 1])
  }

  /** Taking one more turn delivers that turn's notification on top of what the earlier
      turns delivered. */
  lemma DeliveredStep(turns: seq<Cycle>, i: nat)
    requires i < |turns|
    ensures forall buf, ch :: Delivered(buf, ch, turns[..i + 1]) == Deliver(Delivered(buf, ch, turns[..i]), ch, turns[i])
  {
    assert turns[..i + 1][..i] == turns[..i];
  }

  /** The payloads of the notifications received on `ch` in the turns, in arrival
      order. */
  function ArrivalsOn(ch: string, turns: seq<Cycle>): seq<Payload>
  {
    if turns == [] then []
    else
      var c := turns[|turns| - 1];
      ArrivalsOn(ch, turns[..|turns| - 1]) +
        (if c.outcome.Received? && c.outcome.notification.channel == ch then [c.outcome.notification.payload] else [])
  }

  /** At most the first `n` elements of `xs`. */
  function Take<T>(xs: seq<T>, n: nat): seq<T>
  {
    if |xs| <= n then xs else xs[..n]
  }

  /** A buffer within its capacity ends up holding the first items of what it held
      followed by every payload received on its channel, up to the capacity: the
      earliest arrivals are kept, in order, and the later ones are dropped. */
  lemma {:induction false} DeliveredKeepsFirst(buf: seq<Payload>, ch: string, turns: seq<Cycle>)
    requires |buf| <= BufferCapacity
    ensures Delivered(buf, ch, turns) == Take(buf + ArrivalsOn(ch, turns), BufferCapacity)
  {
    if turns != [] {
      var init := turns[..|turns| - 1];
      var c := turns[|turns| - 1];
      DeliveredKeepsFirst(buf, ch, init);
      var all := buf + ArrivalsOn(ch, init);
      var prev := Delivered(buf, ch, init);
      assert Delivered(buf, ch, turns) == Deliver(prev, ch, c);
      if c.outcome.Received? && c.outcome.notification.channel == ch {
        var p := c.outcome.notification.payload;
        assert buf + ArrivalsOn(ch, turns) == all + [p];
        if |all| >= BufferCapacity {
          assert |prev| == BufferCapacity;
          assert (all + [p])[..BufferCapacity] == all[..BufferCapacity];
        } else {
          assert prev == all;
        }
      } else {
        assert buf + ArrivalsOn(ch, turns) == all;
      }
    }
  }

  /** `s` repeated `n` times, end to end. */
  function Repeat<T>(s: seq<T>, n: nat): seq<T>
  {
    if n == 0 then [] else Repeat(s, n - 1) + s
  }

  /** Appending one more copy of `s` after `prefix + Repeat(s, n)` gives `prefix + Repeat(s, n + 1)`. */
  lemma RepeatAppend<T>(prefix: seq<T>, s: seq<T>, n: nat)
    ensures prefix + Repeat(s, n) + s == prefix + Repeat(s, n + 1)
  {
    assert Repeat(s, n + 1) == Repeat(s, n) + s;
  }
}
