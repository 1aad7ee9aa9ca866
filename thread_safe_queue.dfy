/**
 * The bounded FIFO queue `hackrf_mqtt::ThreadSafeQueue<T>` with its locking
 * taken away: every operation is one atomic, sequential step over the
 * underlying `std::queue` and the capacity `max_size_` (0 means unbounded).
 */
module ThreadSafeQueue {
  import opened Wrappers

  /** A queue holding `q` is full under capacity `cap` (0 never fills). */
  predicate Full<T>(cap: nat, q: seq<T>) {
    cap > 0 && |q| >= cap
  }

  /** The queue bound that every operation keeps. */
  predicate WithinCapacity<T>(cap: nat, q: seq<T>) {
    cap > 0 ==> |q| <= cap
  }

  /** One `try_push`: whether the item was taken, and the queue afterwards. */
  function Offer<T>(cap: nat, q: seq<T>, x: T): (r: (bool, seq<T>))
    ensures WithinCapacity(cap, q) ==> WithinCapacity(cap, r.1)
  {
    if Full(cap, q) then (false, q) else (true, q + [x])
  }

  class BoundedQueue<T> {
    /** The contents of `queue_`, head first. */
    var items: seq<T>
    /** `max_size_`; 0 means unbounded. */
    const maxSize: nat

    ghost predicate Valid()
      reads this
    {
      WithinCapacity(maxSize, items)
    }

    constructor (maxSize: nat)
      ensures Valid()
      ensures this.maxSize == maxSize && items == []
    {
      this.maxSize := maxSize;
      items := [];
    }

    /** Appends `x` unless the bounded queue is full; never blocks. */
    method TryPush(x: T) returns (ok: bool)
      requires Valid()
      modifies this
      ensures Valid()
      ensures ok <==> !Full(maxSize, old(items))
      ensures items == if ok then old(items) + [x] else old(items)
      ensures (ok, items) == Offer(maxSize, old(items), x)
    {
      if maxSize > 0 && |items| >= maxSize {
        return false;
      }
      items := items + [x];
      ok := true;
    }

    /** `try_push` with the verdict thrown away: a full queue drops `x`. */
    method Push(x: T)
      requires Valid()
      modifies this
      ensures Valid()
      ensures items == Offer(maxSize, old(items), x).1
      ensures Full(maxSize, old(items)) ==> items == old(items)
    {
      var _ := TryPush(x);
    }

    /** Removes and returns the head; the caller guarantees the queue is non-empty. */
    method WaitAndPop() returns (x: T)
      requires Valid() && items != []
      modifies this
      ensures Valid()
      ensures x == old(items)[0] && items == old(items)[1..]
    {
      x := items[0];
      items := items[1..];
    }

    /** Removes and returns the head, or returns nothing on an empty queue. */
    method TryPop() returns (r: Option<T>)
      requires Valid()
      modifies this
      ensures Valid()
      ensures old(items) == [] ==> r == None && items == old(items)
      ensures old(items) != [] ==> r == Some(old(items)[0]) && items == old(items)[1..]
    {
      if items == [] {
        return None;
      }
      r := Some(items[0]);
      items := items[1..];
    }

    /**
     * The timed pop, taken sequentially: the wait is not modelled, so an
     * empty queue at the moment of the call is a timeout.
     */
    method WaitForAndPop(timeoutMs: nat) returns (r: Option<T>)
      requires Valid()
      modifies this
      ensures Valid()
      ensures old(items) == [] ==> r == None && items == old(items)
      ensures old(items) != [] ==> r == Some(old(items)[0]) && items == old(items)[1..]
    {
      if |items| == 0 {
        r := None;
      } else {
        var head := items[0];
        items := items[1..];
        r := Some(head);
      }
    }

    method Empty() returns (e: bool)
      ensures e <==> |items| == 0
    {
      e := |items| == 0;
    }

    method Size() returns (n: nat)
      ensures n == |items|
      ensures n == 0 <==> items == []
    {
      n := |items|;
    }
  }

  /** A client's use of one queue: a push of a value or a pop. */
  datatype Op<T> = PushOp(x: T) | PopOp

  /** What a run of operations did: the queue left behind, the verdict of
      every push, the values taken in, and the values popped, in order. */
  datatype Trace<T> = Trace(queue: seq<T>, verdicts: seq<bool>, accepted: seq<T>, popped: seq<T>)

  /**
   * Runs `ops` one after another on a queue of capacity `cap` holding `q`:
   * every push gets exactly one verdict, and no more values are taken in
   * than were offered.
   */
  function Run<T>(cap: nat, q: seq<T>, ops: seq<Op<T>>): (t: Trace<T>)
    ensures |t.verdicts| == |Pushed(ops)|
    ensures |t.accepted| <= |t.verdicts|
    decreases |ops|
  {
    if ops == [] then Trace(q, [], [], [])
    else match ops[0]
      case PushOp(x) =>
        var (ok, q') := Offer(cap, q, x);
        var t := Run(cap, q', ops[1..]);
        Trace(t.queue, [ok] + t.verdicts, (if ok then [x] else []) + t.accepted, t.popped)
      case PopOp =>
        if q == [] then Run(cap, q, ops[1..])
        else
          var t := Run(cap, q[1..], ops[1..]);
          Trace(t.queue, t.verdicts, t.accepted, [q[0]] + t.popped)
  }

  /** The values pushed by `ops`, in order, whether or not they were taken. */
  function Pushed<T>(ops: seq<Op<T>>): seq<T>
    decreases |ops|
  {
    if ops == [] then []
    else (if ops[0].PushOp? then [ops[0].x] else []) + Pushed(ops[1..])
  }

  /** `xs` pushed one after another, with no pop in between. */
  function Pushes<T>(xs: seq<T>): (ops: seq<Op<T>>)
    ensures |ops| == |xs|
    decreases |xs|
  {
    if xs == [] then [] else [PushOp(xs[0])] + Pushes(xs[1..])
  }

  /** `a` is `b` with some elements left out, the rest in their order. */
  ghost predicate IsSubsequence<T>(a: seq<T>, b: seq<T>)
    decreases |b|
  {
    if b == [] then a == []
    else IsSubsequence(a, b[1..]) || (a != [] && a[0] == b[0] && IsSubsequence(a[1..], b[1..]))
  }

  /** Nothing is lost or invented: what went in equals what came out plus
      what is left, and the queue bound holds throughout. */
  lemma {:induction false} RunConserves<T>(cap: nat, q: seq<T>, ops: seq<Op<T>>)
    requires WithinCapacity(cap, q)
    ensures var t := Run(cap, q, ops);
      q + t.accepted == t.popped + t.queue && WithinCapacity(cap, t.queue)
    decreases |ops|
  {
    if ops != [] {
      match ops[0]
      case PushOp(x) =>
        var (ok, q') := Offer(cap, q, x);
        RunConserves(cap, q', ops[1..]);
        var t := Run(cap, q', ops[1..]);
        assert q + ((if ok then [x] else []) + t.accepted) == q' + t.accepted;
      case PopOp =>
        if q != [] {
          RunConserves(cap, q[1..], ops[1..]);
          var t := Run(cap, q[1..], ops[1..]);
          assert q + t.accepted == [q[0]] + (q[1..] + t.accepted);
        } else {
          RunConserves(cap, q, ops[1..]);
        }
    }
  }

  /** The queue only takes values that were pushed, in push order. */
  lemma {:induction false} AcceptedArePushed<T>(cap: nat, q: seq<T>, ops: seq<Op<T>>)
    ensures IsSubsequence(Run(cap, q, ops).accepted, Pushed(ops))
    decreases |ops|
  {
    if ops == [] {
    } else {
      match ops[0]
      case PushOp(x) =>
        var (ok, q') := Offer(cap, q, x);
        AcceptedArePushed(cap, q', ops[1..]);
        var t := Run(cap, q', ops[1..]);
        var p := Pushed(ops);
        assert p == [x] + Pushed(ops[1..]);
        assert p[1..] == Pushed(ops[1..]);
        if ok {
          var a := [x] + t.accepted;
          assert a[0] == p[0] && a[1..] == t.accepted;
          assert IsSubsequence(a, p);
        } else {
          assert Run(cap, q, ops).accepted == [] + t.accepted == t.accepted;
          assert IsSubsequence(t.accepted, p[1..]);
        }
      case PopOp =>
        assert Pushed(ops) == Pushed(ops[1..]);
        if q == [] {
          AcceptedArePushed(cap, q, ops[1..]);
        } else {
          AcceptedArePushed(cap, q[1..], ops[1..]);
        }
    }
  }

  /** A prefix of a subsequence is a subsequence. */
  lemma {:induction false} PrefixOfSubsequence<T>(p: seq<T>, a: seq<T>, b: seq<T>)
    requires p <= a && IsSubsequence(a, b)
    ensures IsSubsequence(p, b)
    decreases |b|
  {
    if b == [] {
    } else if IsSubsequence(a, b[1..]) {
      PrefixOfSubsequence(p, a, b[1..]);
    } else {
      PrefixOfSubsequence(if p == [] then p else p[1..], a[1..], b[1..]);
    }
  }

  /**
   * FIFO: starting from an empty queue, the values popped are exactly the
   * first values the queue accepted, so they come out in push order and
   * none is duplicated or reordered.
   */
  lemma PoppedInPushOrder<T>(cap: nat, ops: seq<Op<T>>)
    ensures Run(cap, [], ops).popped <= Run(cap, [], ops).accepted
    ensures IsSubsequence(Run(cap, [], ops).popped, Pushed(ops))
  {
    var t := Run(cap, [], ops);
    RunConserves(cap, [], ops);
    assert t.accepted == t.popped + t.queue;
    AcceptedArePushed(cap, [], ops);
    PrefixOfSubsequence(t.popped, t.accepted, Pushed(ops));
  }

  /** How many of `n` pushes fit into a queue of capacity `cap` holding `q`. */
  function Room<T>(cap: nat, q: seq<T>, n: nat): nat
    requires |q| <= cap
  {
    if n < cap - |q| then n else cap - |q|
  }

  /**
   * Pushing into a bounded queue with no pops in between: the queue keeps
   * the first values that fit, in order, `try_push` returns true for those
   * and false for every later one.
   */
  lemma {:induction false} FillBounded<T>(cap: nat, q: seq<T>, xs: seq<T>)
    requires cap > 0 && |q| <= cap
    ensures var k := Room(cap, q, |xs|);
      var t := Run(cap, q, Pushes(xs));
      && t.queue == q + xs[..k]
      && t.accepted == xs[..k]
      && t.popped == []
      && |t.verdicts| == |xs|
      && forall i :: 0 <= i < |xs| ==> (t.verdicts[i] <==> i < k)
    decreases |xs|
  {
    if xs != [] {
      var ops := Pushes(xs);
      assert ops[0] == PushOp(xs[0]) && ops[1..] == Pushes(xs[1..]);
      var k := Room(cap, q, |xs|);
      if Full(cap, q) {
        FillBounded(cap, q, xs[1..]);
        assert k == 0 && Room(cap, q, |xs| - 1) == 0;
        assert Run(cap, q, ops) == Run(cap, q, Pushes(xs[1..])).(verdicts := [false] + Run(cap, q, Pushes(xs[1..])).verdicts);
      } else {
        var q' := q + [xs[0]];
        FillBounded(cap, q', xs[1..]);
        var t' := Run(cap, q', Pushes(xs[1..]));
        var t := Run(cap, q, ops);
        assert t == t'.(verdicts := [true] + t'.verdicts, accepted := [xs[0]] + t'.accepted);
        var k' := Room(cap, q', |xs| - 1);
        assert k' == k - 1;
        assert xs[1..][..k'] == xs[1..k];
        assert t.accepted == [xs[0]] + xs[1..k] == xs[..k];
        assert t.queue == q + [xs[0]] + xs[1..k] == q + xs[..k];
      }
    }
  }

  /** With capacity 0 every push succeeds and every pushed value is taken. */
  lemma {:induction false} UnboundedTakesAll<T>(q: seq<T>, ops: seq<Op<T>>)
    ensures var t := Run(0, q, ops);
      t.accepted == Pushed(ops) && forall i :: 0 <= i < |t.verdicts| ==> t.verdicts[i]
    decreases |ops|
  {
    if ops != [] {
      match ops[0]
      case PushOp(x) =>
        UnboundedTakesAll(q + [x], ops[1..]);
      case PopOp =>
        UnboundedTakesAll(if q == [] then q else q[1..], ops[1..]);
    }
  }

  /** A capacity-3 run: push A, B, C, D; pop; pop; push D; pop; pop; pop. */
  method CapacityThreeScenario<T>(a: T, b: T, c: T, d: T)
  {
    var queue := new BoundedQueue<T>(3);
    var ok := queue.TryPush(a);  assert ok;
    ok := queue.TryPush(b);  assert ok;
    ok := queue.TryPush(c);  assert ok;
    ok := queue.TryPush(d);  assert !ok && queue.items == [a, b, c];
    var r := queue.WaitForAndPop(50);  assert r == Some(a);
    r := queue.WaitForAndPop(50);  assert r == Some(b);
    ok := queue.TryPush(d);  assert ok;
    r := queue.WaitForAndPop(50);  assert r == Some(c);
    r := queue.WaitForAndPop(50);  assert r == Some(d);
    r := queue.WaitForAndPop(50);  assert r == None;
  }
}
