/** A hot multicast queue: each subscriber gets what is published while it iterates, in order. */
module AppendOperations {
  import opened Wrappers

  /** A subscriber's queue. A `next` that waits is named by the number of its call. */
  datatype Queue<T> = Queue(buffer: seq<T>, pending: Option<nat>, done: bool)

  datatype IteratorResult<T> = Value(value: T) | End

  /** What `next` returns: a settled result, or a promise that a later send or completion settles. */
  datatype Reply<T> = Settled(result: IteratorResult<T>) | Waiting

  function Sent<T>(q: Queue<T>, value: T): Queue<T> {
    if q.done then q
    else if q.pending.Some? then q.(pending := None)
    else q.(buffer := q.buffer + [value])
  }

  function Completed<T>(q: Queue<T>): Queue<T> {
    q.(done := true, pending := None)
  }

  function Asked<T>(q: Queue<T>, call: nat): Queue<T> {
    if q.buffer != [] then q.(buffer := q.buffer[1..])
    else if q.done then q
    else q.(pending := Some(call))
  }

  function ReplyOf<T>(q: Queue<T>): Reply<T> {
    if q.buffer != [] then Settled(Value(q.buffer[0]))
    else if q.done then Settled(End)
    else Waiting
  }

  class AppendOperationsQueue<T> {
    var queue: seq<T>
    var pending: Option<nat>
    var done: bool

    constructor ()
      ensures State() == Queue([], None, false)
    {
      queue, pending, done := [], None, false;
    }

    function State(): Queue<T>
      reads this
    {
      Queue(queue, pending, done)
    }

    /** Hands a value to the waiting call, or buffers it. Returns the call whose promise it resolves. */
    method Send(value: T) returns (resolved: Option<nat>)
      modifies this
      ensures State() == Sent(old(State()), value)
      ensures resolved == if old(done) then None else old(pending)
    {
      resolved := None;
      if done {
        return;
      }
      if pending.Some? {
        resolved := pending;
        pending := None;
      } else {
        queue := queue + [value];
      }
    }

    method Complete() returns (ended: Option<nat>)
      modifies this
      ensures State() == Completed(old(State())) && ended == old(pending)
    {
      done := true;
      ended := pending;
      pending := None;
    }

    method Next(call: nat) returns (reply: Reply<T>)
      modifies this
      ensures State() == Asked(old(State()), call) && reply == ReplyOf(old(State()))
    {
      if |queue| > 0 {
        reply := Settled(Value(queue[0]));
        queue := queue[1..];
        return;
      }
      if done {
        return Settled(End);
      }
      pending := Some(call);
      reply := Waiting;
    }
  }

  class AppendOperationsBroadcaster<T> {
    var subscribers: set<AppendOperationsQueue<T>>

    constructor ()
      ensures subscribers == {}
    {
      subscribers := {};
    }

    /** Sends a value to every current subscriber and to nobody else. */
    method Publish(value: T)
      modifies subscribers
      ensures forall q :: q in subscribers ==> q.State() == Sent(old(q.State()), value)
    {
      var rest := subscribers;
      while rest != {}
        invariant rest <= subscribers
        invariant forall q :: q in rest ==> q.State() == old(q.State())
        invariant forall q :: q in subscribers - rest ==> q.State() == Sent(old(q.State()), value)
        decreases rest
      {
        var q :| q in rest;
        var _ := q.Send(value);
        rest := rest - {q};
      }
    }

    method Subscribe() returns (queue: AppendOperationsQueue<T>)
      modifies this
      ensures fresh(queue) && subscribers == old(subscribers) + {queue} && queue.State() == Queue([], None, false)
    {
      queue := new AppendOperationsQueue();
      subscribers := subscribers + {queue};
    }

    /** The iterator's `return`. */
    method Return(queue: AppendOperationsQueue<T>) returns (ended: Option<nat>)
      modifies this, queue
      ensures subscribers == old(subscribers) - {queue}
      ensures queue.State() == Completed(old(queue.State())) && ended == old(queue.pending)
    {
      subscribers := subscribers - {queue};
      ended := queue.Complete();
    }
  }

  // ----- runs -----

  datatype Step<T> = Subscribe | Publish(value: T) | Next(subscriber: nat) | Return(subscriber: nat)

  /** A value and the `next` call it settles. */
  datatype Receipt<T> = Receipt(call: nat, value: T)

  /**
   * A queue and what became of its `next` calls, numbered from zero: those settled with a value, those settled with the
   * end, and those overtaken by a later call while they waited, whose promise the queue no longer knows.
   */
  datatype Subscriber<T> = Subscriber(
    queue: Queue<T>, received: seq<Receipt<T>>, calls: nat, ended: seq<nat>, overtaken: seq<nat>)

  /** The subscribers in the order they came; those in `active` have not returned. */
  datatype Broadcast<T> = Broadcast(subscribers: seq<Subscriber<T>>, active: set<nat>)

  /** The call that waits, if any. */
  function Pending<T>(q: Queue<T>): seq<nat> {
    if q.pending.Some? then [q.pending.value] else []
  }

  function Offer<T>(s: Subscriber<T>, value: T): Subscriber<T> {
    var received :=
      if !s.queue.done && s.queue.pending.Some? then s.received + [Receipt(s.queue.pending.value, value)]
        else s.received;
    s.(queue := Sent(s.queue, value), received := received)
  }

  function Ask<T>(s: Subscriber<T>): Subscriber<T> {
    var asked := s.(queue := Asked(s.queue, s.calls), calls := s.calls + 1);
    match ReplyOf(s.queue)
    case Settled(Value(value)) => asked.(received := s.received + [Receipt(s.calls, value)])
    case Settled(End) => asked.(ended := s.ended + [s.calls])
    case Waiting => asked.(overtaken := s.overtaken + Pending(s.queue))
  }

  function Leave<T>(s: Subscriber<T>): Subscriber<T> {
    s.(queue := Completed(s.queue), ended := s.ended + Pending(s.queue))
  }

  predicate Enabled<T>(b: Broadcast<T>, step: Step<T>) {
    match step
    case Next(i) => i < |b.subscribers|
    case Return(i) => i < |b.subscribers|
    case _ => true
  }

  function After<T>(b: Broadcast<T>, step: Step<T>): Broadcast<T>
    requires Enabled(b, step)
  {
    match step
    case Subscribe =>
      Broadcast(b.subscribers + [Subscriber(Queue([], None, false), [], 0, [], [])], b.active + {|b.subscribers|})
    case Publish(value) =>
      b.(subscribers := seq(|b.subscribers|, i requires 0 <= i < |b.subscribers| =>
           if i in b.active then Offer(b.subscribers[i], value) else b.subscribers[i]))
    case Next(i) => b.(subscribers := b.subscribers[i := Ask(b.subscribers[i])])
    case Return(i) => Broadcast(b.subscribers[i := Leave(b.subscribers[i])], b.active - {i})
  }

  /** A subscriber that has come can ask and return at any time; anything else can always happen. */
  lemma {:induction false} StepsInTheirPlace<T>(b: Broadcast<T>, step: Step<T>)
    ensures Enabled(b, step) <==> (step.Next? || step.Return? ==> step.subscriber < |b.subscribers|)
  {
  }

  ghost predicate IsRun<T>(steps: seq<Step<T>>)
    decreases |steps|, 0
  {
    steps == [] || (IsRun(steps[..|steps| - 1]) && Enabled(Run(steps[..|steps| - 1]), steps[|steps| - 1]))
  }

  ghost function Run<T>(steps: seq<Step<T>>): Broadcast<T>
    requires IsRun(steps)
    decreases |steps|, 1
  {
    if steps == [] then Broadcast([], {}) else After(Run(steps[..|steps| - 1]), steps[|steps| - 1])
  }

  function Subscriptions<T>(steps: seq<Step<T>>): nat {
    if steps == [] then 0
    else Subscriptions(steps[..|steps| - 1]) + if steps[|steps| - 1].Subscribe? then 1 else 0
  }

  predicate HasReturned<T>(steps: seq<Step<T>>, i: nat) {
    exists k :: 0 <= k < |steps| && steps[k].Return? && steps[k].subscriber == i
  }

  /** The values published after the subscription of subscriber `i` and before its first return. */
  function PublishedDuring<T>(steps: seq<Step<T>>, i: nat): seq<T> {
    if steps == [] then []
    else
      var before, last := steps[..|steps| - 1], steps[|steps| - 1];
      if last.Publish? && i < Subscriptions(before) && !HasReturned(before, i) then
        PublishedDuring(before, i) + [last.value]
      else PublishedDuring(before, i)
  }

  function Values<T>(receipts: seq<Receipt<T>>): seq<T> {
    seq(|receipts|, k requires 0 <= k < |receipts| => receipts[k].value)
  }

  ghost predicate Keeps<T>(s: Subscriber<T>, published: seq<T>, active: bool) {
    && Values(s.received) + s.queue.buffer == published
    && (s.queue.pending.Some? ==> s.queue.buffer == [] && !s.queue.done)
    && (active <==> !s.queue.done)
  }

  lemma {:induction false} ReturnedUpTo<T>(steps: seq<Step<T>>, i: nat)
    requires steps != []
    ensures HasReturned(steps, i)
       <==> HasReturned(steps[..|steps| - 1], i) || (steps[|steps| - 1].Return? && steps[|steps| - 1].subscriber == i)
  {
  }

  /** Nothing is published to a subscriber before it comes, and it has not returned before it comes. */
  lemma {:induction false} NothingBefore<T>(steps: seq<Step<T>>, i: nat)
    requires IsRun(steps) && i >= Subscriptions(steps)
    ensures |Run(steps).subscribers| == Subscriptions(steps)
    ensures PublishedDuring(steps, i) == [] && !HasReturned(steps, i)
  {
    if steps != [] {
      NothingBefore(steps[..|steps| - 1], i);
      ReturnedUpTo(steps, i);
    }
  }

  /**
   * In every run and for every subscriber, what it received followed by its buffer is exactly what was published
   * between its subscription and its return, in order; a waiting `next` finds the buffer empty.
   */
  lemma {:induction false} NothingIsLost<T>(steps: seq<Step<T>>, i: nat)
    requires IsRun(steps)
    ensures |Run(steps).subscribers| == Subscriptions(steps)
    ensures i < Subscriptions(steps) ==>
      && (i in Run(steps).active <==> !HasReturned(steps, i))
      && Keeps(Run(steps).subscribers[i], PublishedDuring(steps, i), i in Run(steps).active)
  {
    if steps != [] {
      var before := steps[..|steps| - 1];
      NothingIsLost(before, i);
      ReturnedUpTo(steps, i);
      if i >= |Run(before).subscribers| {
        NothingBefore(before, i);
      }
    }
  }

  // ----- what becomes of each call -----

  function CallsOf<T>(receipts: seq<Receipt<T>>): seq<nat> {
    seq(|receipts|, k requires 0 <= k < |receipts| => receipts[k].call)
  }

  /** The numbers below n, each once. */
  function NumbersBelow(n: nat): multiset<nat> {
    if n == 0 then multiset{} else NumbersBelow(n - 1) + multiset{n - 1}
  }

  function Together(received: seq<nat>, ended: seq<nat>, overtaken: seq<nat>, waiting: seq<nat>): multiset<nat> {
    multiset(received) + multiset(ended) + multiset(overtaken) + multiset(waiting)
  }

  /** Every call made is settled with a value, settled with the end, overtaken or waiting, and only one of these. */
  ghost predicate CallsAreAccounted<T>(s: Subscriber<T>) {
    Together(CallsOf(s.received), s.ended, s.overtaken, Pending(s.queue)) == NumbersBelow(s.calls)
  }

  /** Values are received by ever later calls, and the calls that end or wait come after those. */
  ghost predicate ReceiptsAscend<T>(s: Subscriber<T>) {
    && (forall j, k :: 0 <= j < k < |s.received| ==> s.received[j].call < s.received[k].call)
    && (forall k :: 0 <= k < |s.received| ==>
          && s.received[k].call < s.calls
          && (s.queue.pending.Some? ==> s.received[k].call < s.queue.pending.value)
          && (forall c :: c in s.ended ==> s.received[k].call < c))
    && (s.queue.pending.Some? ==> s.queue.pending.value < s.calls && s.queue.buffer == [] && !s.queue.done)
    && (s.ended != [] ==> s.queue.done && s.queue.buffer == [])
  }

  lemma {:induction false} NumbersBelowCounts(n: nat)
    ensures |NumbersBelow(n)| == n
    ensures forall c: nat :: NumbersBelow(n)[c] == if c < n then 1 else 0
  {
    if n > 0 {
      NumbersBelowCounts(n - 1);
    }
  }

  lemma {:induction false} OfferAccounts<T>(s: Subscriber<T>, value: T)
    requires CallsAreAccounted(s)
    ensures CallsAreAccounted(Offer(s, value))
  {
    hide NumbersBelow, CallsOf;
    if !s.queue.done && s.queue.pending.Some? {
      ReceiptsGrow(s.received, [Receipt(s.queue.pending.value, value)]);
    }
  }

  lemma {:induction false} OfferAscends<T>(s: Subscriber<T>, value: T)
    requires ReceiptsAscend(s)
    ensures ReceiptsAscend(Offer(s, value))
  {
  }

  /** A call more, settled, ended or waiting in the place of the one that waited. */
  lemma {:induction false} OneMore(
    received: seq<nat>, ended: seq<nat>, overtaken: seq<nat>, waiting: seq<nat>, call: nat)
    ensures Together(received + [call], ended, overtaken, waiting)
            == Together(received, ended, overtaken, waiting) + multiset{call}
    ensures Together(received, ended + [call], overtaken, waiting)
            == Together(received, ended, overtaken, waiting) + multiset{call}
    ensures Together(received, ended, overtaken + waiting, [call])
            == Together(received, ended, overtaken, waiting) + multiset{call}
  {
  }

  lemma {:induction false} OneNumberMore(n: nat)
    ensures NumbersBelow(n + 1) == NumbersBelow(n) + multiset{n}
  {
  }

  lemma {:induction false} AskAccounts<T>(s: Subscriber<T>)
    requires CallsAreAccounted(s)
    ensures CallsAreAccounted(Ask(s))
  {
    hide NumbersBelow, CallsOf, Together;
    OneNumberMore(s.calls);
    OneMore(CallsOf(s.received), s.ended, s.overtaken, Pending(s.queue), s.calls);
    if s.queue.buffer != [] {
      ReceiptsGrow(s.received, [Receipt(s.calls, s.queue.buffer[0])]);
    }
  }

  lemma {:induction false} ReceiptsGrow<T>(receipts: seq<Receipt<T>>, more: seq<Receipt<T>>)
    ensures CallsOf(receipts + more) == CallsOf(receipts) + CallsOf(more)
    ensures |more| == 1 ==> CallsOf(more) == [more[0].call]
  {
  }

  lemma {:induction false} AskAscends<T>(s: Subscriber<T>)
    requires ReceiptsAscend(s)
    ensures ReceiptsAscend(Ask(s))
  {
  }

  lemma {:induction false} LeaveAccounts<T>(s: Subscriber<T>)
    requires CallsAreAccounted(s) && ReceiptsAscend(s)
    ensures CallsAreAccounted(Leave(s)) && ReceiptsAscend(Leave(s))
  {
    hide NumbersBelow;
  }

  /** In every run every call is accounted for: made are the settled, the ended, the overtaken and the waiting ones. */
  lemma {:induction false} EveryCallIsAccounted<T>(steps: seq<Step<T>>, i: nat)
    requires IsRun(steps) && i < Subscriptions(steps)
    ensures |Run(steps).subscribers| == Subscriptions(steps)
    ensures var s := Run(steps).subscribers[i];
            && CallsAreAccounted(s) && ReceiptsAscend(s)
            && s.calls == |s.received| + |s.ended| + |s.overtaken| + if s.queue.pending.Some? then 1 else 0
  {
    hide CallsAreAccounted, ReceiptsAscend, Offer, Ask, Leave, Keeps, PublishedDuring, HasReturned;
    var before, last := steps[..|steps| - 1], steps[|steps| - 1];
    NothingIsLost(steps, i);
    NothingIsLost(before, i);
    if i < Subscriptions(before) {
      EveryCallIsAccounted(before, i);
      var s := Run(before).subscribers[i];
      match last
      case Subscribe =>
      case Publish(value) =>
        OfferAccounts(s, value);
        OfferAscends(s, value);
      case Next(_) =>
        AskAccounts(s);
        AskAscends(s);
      case Return(_) => LeaveAccounts(s);
    } else {
      NewcomerAccounts<T>();
    }
    CountsAddUp(Run(steps).subscribers[i]);
  }

  lemma {:induction false} NewcomerAccounts<T>()
    ensures var s: Subscriber<T> := Subscriber(Queue([], None, false), [], 0, [], []);
            CallsAreAccounted(s) && ReceiptsAscend(s)
  {
  }

  lemma {:induction false} CountsAddUp<T>(s: Subscriber<T>)
    requires CallsAreAccounted(s)
    ensures s.calls == |s.received| + |s.ended| + |s.overtaken| + if s.queue.pending.Some? then 1 else 0
  {
    NumbersBelowCounts(s.calls);
    assert |CallsOf(s.received)| == |s.received|;
  }

  /** A run that is continued was a run. */
  lemma {:induction false} OvertakenStays<T>(steps: seq<Step<T>>, more: seq<Step<T>>, i: nat)
    requires IsRun(steps + more) && i < Subscriptions(steps)
    ensures IsRun(steps) && i < Subscriptions(steps + more)
    ensures |Run(steps).subscribers| == Subscriptions(steps)
            && |Run(steps + more).subscribers| == Subscriptions(steps + more)
    ensures Run(steps).subscribers[i].overtaken <= Run(steps + more).subscribers[i].overtaken
  {
    if more == [] {
      assert steps + more == steps;
      NothingIsLost(steps, i);
    } else {
      var rest := more[..|more| - 1];
      assert (steps + more)[..|steps + more| - 1] == steps + rest;
      OvertakenStays(steps, rest, i);
      NothingIsLost(steps + more, i);
    }
  }

  /** The promise of an overtaken call is never settled: in no continuation does a value or the end go to that call. */
  lemma {:induction false} OvertakenIsNeverSettled<T>(steps: seq<Step<T>>, more: seq<Step<T>>, i: nat, call: nat)
    requires IsRun(steps + more) && IsRun(steps) && i < Subscriptions(steps) <= |Run(steps).subscribers|
    requires call in Run(steps).subscribers[i].overtaken
    ensures i < |Run(steps + more).subscribers|
    ensures var s := Run(steps + more).subscribers[i];
            && (forall k :: 0 <= k < |s.received| ==> s.received[k].call != call)
            && call !in s.ended && s.queue.pending != Some(call)
  {
    hide IsRun, Run, CallsAreAccounted, ReceiptsAscend, Subscriptions;
    OvertakenStays(steps, more, i);
    EveryCallIsAccounted(steps + more, i);
    OvertakenIsNothingElse(Run(steps + more).subscribers[i], call);
  }

  lemma {:induction false} AccountedOnce<T>(s: Subscriber<T>, call: nat)
    requires CallsAreAccounted(s)
    ensures multiset(CallsOf(s.received))[call] + multiset(s.ended)[call] + multiset(s.overtaken)[call]
            + multiset(Pending(s.queue))[call]
         == if call < s.calls then 1 else 0
  {
    NumbersBelowCounts(s.calls);
    hide NumbersBelow, CallsOf, Pending;
    assert NumbersBelow(s.calls)[call] == if call < s.calls then 1 else 0;
  }

  lemma {:induction false} OvertakenIsNothingElse<T>(s: Subscriber<T>, call: nat)
    requires CallsAreAccounted(s) && call in s.overtaken
    ensures forall k :: 0 <= k < |s.received| ==> s.received[k].call != call
    ensures call !in s.ended && s.queue.pending != Some(call)
  {
    AccountedOnce(s, call);
    hide NumbersBelow, CallsOf;
    var received, ended, overtaken, pending := multiset(CallsOf(s.received)), multiset(s.ended), multiset(s.overtaken),
      multiset(Pending(s.queue));
    assert overtaken[call] >= 1;
    assert call in s.ended <==> ended[call] > 0;
    assert s.queue.pending == Some(call) ==> pending[call] > 0;
    ReceiptsHoldCalls(s.received, call);
    assert call in CallsOf(s.received) <==> received[call] > 0;
  }

  lemma {:induction false} ReceiptsHoldCalls<T>(receipts: seq<Receipt<T>>, call: nat)
    ensures call in CallsOf(receipts) <==> exists k :: 0 <= k < |receipts| && receipts[k].call == call
  {
    forall k | 0 <= k < |receipts| ensures receipts[k].call == CallsOf(receipts)[k] {}
  }

  // ----- the order of answers -----

  /** The call with number `k` received the value at position `k`. */
  ghost predicate AnsweredInOrder<T>(s: Subscriber<T>) {
    forall k :: 0 <= k < |s.received| ==> s.received[k].call == k
  }

  /** Some call before the one that received last was overtaken. */
  ghost predicate OvertakenBeforeTheLast<T>(s: Subscriber<T>) {
    exists c :: c in s.overtaken && s.received != [] && c < s.received[|s.received| - 1].call
  }

  lemma {:induction false} AscendingWithoutGaps(calls: seq<nat>, k: nat)
    requires k < |calls| && forall a, b :: 0 <= a < b < |calls| ==> calls[a] < calls[b]
    requires forall c: nat :: c <= calls[|calls| - 1] ==> c in calls
    ensures calls[k] == k
  {
    if k > 0 {
      AscendingWithoutGaps(calls, k - 1);
    }
    assert k <= calls[k] <= calls[|calls| - 1];
    assert k in calls;
    var at: nat :| at < |calls| && calls[at] == k;
  }

  /**
   * In every run the answers come in the order of the calls exactly when no call before the last answered one was
   * overtaken.
   */
  lemma {:induction false} AnsweredInOrderExactly<T>(steps: seq<Step<T>>, i: nat)
    requires IsRun(steps) && i < Subscriptions(steps)
    ensures |Run(steps).subscribers| == Subscriptions(steps)
    ensures var s := Run(steps).subscribers[i]; AnsweredInOrder(s) <==> !OvertakenBeforeTheLast(s)
  {
    EveryCallIsAccounted(steps, i);
    OrderOfAccounted(Run(steps).subscribers[i]);
  }

  /** Every call before the last answered one is answered or overtaken. */
  lemma {:induction false} EarlierIsAnsweredOrOvertaken<T>(s: Subscriber<T>, call: nat)
    requires CallsAreAccounted(s) && ReceiptsAscend(s) && s.received != [] && call < s.received[|s.received| - 1].call
    ensures call in CallsOf(s.received) <==> call !in s.overtaken
  {
    AccountedOnce(s, call);
    hide CallsOf, CallsAreAccounted;
    assert call in CallsOf(s.received) <==> multiset(CallsOf(s.received))[call] > 0;
    assert call in s.overtaken <==> multiset(s.overtaken)[call] > 0;
    assert multiset(s.ended)[call] == 0 by {
      assert call in multiset(s.ended) <==> call in s.ended;
    }
  }

  lemma {:induction false} InOrderHasNoGaps<T>(s: Subscriber<T>)
    requires AnsweredInOrder(s) && s.received != []
    ensures forall c: nat :: c < s.received[|s.received| - 1].call ==> c in CallsOf(s.received)
  {
    forall c: nat | c < s.received[|s.received| - 1].call ensures c in CallsOf(s.received) {
      assert CallsOf(s.received)[c] == c;
    }
  }

  lemma {:induction false} OrderOfAccounted<T>(s: Subscriber<T>)
    requires CallsAreAccounted(s) && ReceiptsAscend(s)
    ensures AnsweredInOrder(s) <==> !OvertakenBeforeTheLast(s)
  {
    if s.received != [] {
      var calls := CallsOf(s.received);
      var last := calls[|calls| - 1];
      forall c: nat | c < last ensures c in calls <==> c !in s.overtaken {
        EarlierIsAnsweredOrOvertaken(s, c);
      }
      hide CallsAreAccounted;
      assert last in calls;
      if AnsweredInOrder(s) {
        InOrderHasNoGaps(s);
      }
      if OvertakenBeforeTheLast(s) {
        var c :| c in s.overtaken && c < last;
      } else {
        forall k | 0 <= k < |calls| ensures calls[k] == k {
          AscendingWithoutGaps(calls, k);
        }
        forall k | 0 <= k < |s.received| ensures s.received[k].call == k {
          assert calls[k] == k;
        }
      }
    }
  }

  /** A run in which the subscriber never calls `next` while one of its calls waits. */
  ghost predicate OneCallAtATime<T>(steps: seq<Step<T>>, i: nat)
    requires IsRun(steps)
  {
    steps == [] ||
      var before, last := steps[..|steps| - 1], steps[|steps| - 1];
      && OneCallAtATime(before, i)
      && (last == Next(i) ==> Run(before).subscribers[i].queue.pending.None?)
  }

  /** A subscriber has an overtaken call exactly when it called `next` while a call waited. */
  lemma {:induction false} OvertakesExactlyWhenTwoWait<T>(steps: seq<Step<T>>, i: nat)
    requires IsRun(steps)
    ensures |Run(steps).subscribers| == Subscriptions(steps)
    ensures OneCallAtATime(steps, i) <==> i < Subscriptions(steps) ==> Run(steps).subscribers[i].overtaken == []
  {
    if steps != [] {
      var before := steps[..|steps| - 1];
      NothingIsLost(steps, i);
      NothingIsLost(before, i);
      OvertakesExactlyWhenTwoWait(before, i);
    }
  }

  /** One call at a time, the call with number `k` is settled with the value at position `k` of what was published. */
  lemma {:induction false} CallsAreAnsweredInOrder<T>(steps: seq<Step<T>>, i: nat)
    requires IsRun(steps) && OneCallAtATime(steps, i) && i < Subscriptions(steps)
    ensures |Run(steps).subscribers| == Subscriptions(steps)
    ensures var s := Run(steps).subscribers[i];
            forall k :: 0 <= k < |s.received| ==>
              k < |PublishedDuring(steps, i)| && s.received[k] == Receipt(k, PublishedDuring(steps, i)[k])
  {
    NothingIsLost(steps, i);
    OvertakesExactlyWhenTwoWait(steps, i);
    AnsweredInOrderExactly(steps, i);
    var s := Run(steps).subscribers[i];
    forall k | 0 <= k < |s.received|
      ensures k < |PublishedDuring(steps, i)| && s.received[k] == Receipt(k, PublishedDuring(steps, i)[k])
    {
      assert PublishedDuring(steps, i)[k] == Values(s.received)[k];
    }
  }
}
