/** The governance bus: one bounded drop-oldest queue and one worker per observer. */
module Bus {
  // ---------------------------------------------------------------- one worker on values

  /** A worker's queue and counter, with what its observer has been given. */
  datatype State<E> = State(queue: seq<E>, dropped: nat, seen: seq<E>)

  /** A maxsize of zero or less means no bound. */
  predicate IsFull(size: nat, maxsize: int) {
    0 < maxsize <= size
  }

  /** Puts the event in; a full queue first gives up its oldest. */
  function Submitted<E>(s: State<E>, e: E, maxsize: int): State<E> {
    if !IsFull(|s.queue|, maxsize) then s.(queue := s.queue + [e])
    else s.(queue := s.queue[1..] + [e], dropped := s.dropped + 1)
  }

  /** The worker waits on an empty queue. */
  function Taken<E>(s: State<E>): State<E> {
    if s.queue == [] then s else s.(queue := s.queue[1..], seen := s.seen + [s.queue[0]])
  }

  // ---------------------------------------------------------------- workers and the bus

  class ObserverWorker<E(0)> {
    const maxsize: int
    var queue: seq<E>
    var dropped: nat
    ghost var seen: seq<E>

    ghost function Value(): State<E>
      reads this
    {
      State(queue, dropped, seen)
    }

    constructor (maxsize: int)
      ensures this.maxsize == maxsize && Value() == State([], 0, [])
    {
      this.maxsize := maxsize;
      queue, dropped, seen := [], 0, [];
    }

    method Submit(e: E)
      modifies this
      ensures Value() == Submitted(old(Value()), e, maxsize)
    {
      if IsFull(|queue|, maxsize) {
        queue := queue[1..];
        dropped := dropped + 1;
      }
      queue := queue + [e];
    }

    /** One turn of the worker's loop: the event it hands to its observer, if there is one. */
    method Take() returns (taken: seq<E>)
      modifies this
      ensures taken == if old(queue) == [] then [] else [old(queue)[0]]
      ensures Value() == Taken(old(Value()))
    {
      taken := [];
      if queue != [] {
        taken := [queue[0]];
        seen := seen + [queue[0]];
        queue := queue[1..];
      }
    }
  }

  class GovernanceBus<E(0)> {
    const workers: seq<ObserverWorker<E>>

    ghost predicate Valid() {
      forall i, j :: 0 <= i < j < |workers| ==> workers[i] != workers[j]
    }

    constructor (workers: seq<ObserverWorker<E>>)
      requires forall i, j :: 0 <= i < j < |workers| ==> workers[i] != workers[j]
      ensures Valid() && this.workers == workers
    {
      this.workers := workers;
    }

    method Emit(e: E)
      requires Valid()
      modifies workers
      ensures forall i :: 0 <= i < |workers| ==>
                workers[i].Value() == Submitted(old(workers[i].Value()), e, workers[i].maxsize)
    {
      for k := 0 to |workers|
        invariant forall i :: 0 <= i < k ==>
                    workers[i].Value() == Submitted(old(workers[i].Value()), e, workers[i].maxsize)
        invariant forall i :: k <= i < |workers| ==> workers[i].Value() == old(workers[i].Value())
      {
        assert forall i :: 0 <= i < |workers| && i != k ==> workers[i] != workers[k];
        workers[k].Submit(e);
      }
    }
  }

  // ---------------------------------------------------------------- a worker's runs

  datatype Op<E> = Submit(event: E) | Take

  function Step<E>(s: State<E>, op: Op<E>, maxsize: int): State<E> {
    match op
    case Submit(e) => Submitted(s, e, maxsize)
    case Take => Taken(s)
  }

  function RunFrom<E>(s: State<E>, ops: seq<Op<E>>, maxsize: int): State<E> {
    if ops == [] then s else Step(RunFrom(s, ops[..|ops| - 1], maxsize), ops[|ops| - 1], maxsize)
  }

  function Run<E>(ops: seq<Op<E>>, maxsize: int): State<E> {
    RunFrom(State([], 0, []), ops, maxsize)
  }

  /** All events submitted, in order. */
  function Events<E>(ops: seq<Op<E>>): seq<E> {
    if ops == [] then []
    else Events(ops[..|ops| - 1]) + (if ops[|ops| - 1].Submit? then [ops[|ops| - 1].event] else [])
  }

  /** `part` is `whole` at the increasing positions `at`. */
  ghost predicate PicksOut<E(!new)>(part: seq<E>, whole: seq<E>, at: seq<nat>) {
    && |at| == |part|
    && (forall i, j :: 0 <= i < j < |at| ==> at[i] < at[j])
    && (forall i :: 0 <= i < |at| ==> at[i] < |whole| && whole[at[i]] == part[i])
  }

  /** The queue is the last events submitted; what left it is seen or dropped; and what is seen is
      what left it, in order, at increasing positions. */
  ghost predicate Accounted<E(!new)>(s: State<E>, events: seq<E>, at: seq<nat>) {
    && |s.queue| <= |events|
    && var head := |events| - |s.queue|;
       && s.queue == events[head..]
       && PicksOut(s.seen, events[..head], at)
       && |s.seen| + s.dropped == head
  }

  /** The positions seen: an event is taken when all before it have been seen or dropped. */
  function SeenAt<E>(ops: seq<Op<E>>, maxsize: int): seq<nat> {
    if ops == [] then []
    else
      var s := Run(ops[..|ops| - 1], maxsize);
      SeenAt(ops[..|ops| - 1], maxsize) + (if ops[|ops| - 1].Take? && s.queue != [] then [|s.seen| + s.dropped] else [])
  }

  lemma LastOp<E>(ops: seq<Op<E>>, maxsize: int)
    requires ops != []
    ensures var before, op := ops[..|ops| - 1], ops[|ops| - 1];
            var s := Run(before, maxsize);
            && Run(ops, maxsize) == Step(s, op, maxsize)
            && Events(ops) == Events(before) + (if op.Submit? then [op.event] else [])
            && SeenAt(ops, maxsize) == SeenAt(before, maxsize) +
                 (if op.Take? && s.queue != [] then [|s.seen| + s.dropped] else [])
  {
    hide Step;
  }

  lemma PicksOutOfMore<E(!new)>(part: seq<E>, whole: seq<E>, at: seq<nat>, longer: seq<E>)
    requires PicksOut(part, whole, at) && whole <= longer
    ensures PicksOut(part, longer, at)
  {
  }

  lemma SubmitAccounts<E(!new)>(s: State<E>, events: seq<E>, at: seq<nat>, e: E, maxsize: int)
    requires Accounted(s, events, at)
    ensures Accounted(Submitted(s, e, maxsize), events + [e], at)
  {
    var s' := Submitted(s, e, maxsize);
    var head, head' := |events| - |s.queue|, |events| + 1 - |s'.queue|;
    assert events[..head] <= (events + [e])[..head'];
    PicksOutOfMore(s.seen, events[..head], at, (events + [e])[..head']);
    assert s'.queue == (events + [e])[head'..];
  }

  lemma TakeAccounts<E(!new)>(s: State<E>, events: seq<E>, at: seq<nat>)
    requires Accounted(s, events, at) && s.queue != []
    ensures Accounted(Taken(s), events, at + [|s.seen| + s.dropped])
  {
    var head := |events| - |s.queue|;
    assert events[head..][0] == events[head];
    PicksOutOfMore(s.seen, events[..head], at, events[..head + 1]);
    assert PicksOut(Taken(s).seen, events[..head + 1], at + [head]);
  }

  lemma StepAccounts<E(!new)>(s: State<E>, events: seq<E>, at: seq<nat>, op: Op<E>, maxsize: int)
    requires Accounted(s, events, at)
    ensures Accounted(Step(s, op, maxsize), events + (if op.Submit? then [op.event] else []),
                      at + (if op.Take? && s.queue != [] then [|s.seen| + s.dropped] else []))
    ensures maxsize > 0 && |s.queue| <= maxsize ==> |Step(s, op, maxsize).queue| <= maxsize
  {
    match op
    case Submit(e) =>
      SubmitAccounts(s, events, at, e, maxsize);
      assert at + [] == at;
    case Take =>
      assert events + [] == events && at + [] == at;
      if s.queue != [] {
        TakeAccounts(s, events, at);
      }
  }

  lemma NothingYet<E(!new)>(maxsize: int)
    ensures Accounted(Run<E>([], maxsize), Events<E>([]), SeenAt<E>([], maxsize)) && |Run<E>([], maxsize).queue| == 0
  {
  }

  /** At every reachable state the queue is the last events submitted and within its bound, every event
      is seen, dropped or queued, and the observer sees an in-order selection of the events. */
  lemma {:induction false} EverythingAccounted<E(!new)>(ops: seq<Op<E>>, maxsize: int)
    ensures Accounted(Run(ops, maxsize), Events(ops), SeenAt(ops, maxsize))
    ensures maxsize > 0 ==> |Run(ops, maxsize).queue| <= maxsize
  {
    hide Accounted, Run, Events, SeenAt, Step;
    if ops == [] {
      NothingYet<E>(maxsize);
    } else {
      var before := ops[..|ops| - 1];
      EverythingAccounted(before, maxsize);
      LastOp(ops, maxsize);
      StepAccounts(Run(before, maxsize), Events(before), SeenAt(before, maxsize), ops[|ops| - 1], maxsize);
    }
  }

  /** Submitted = taken + dropped + queued. */
  lemma {:induction false} EventsAreCounted<E(!new)>(ops: seq<Op<E>>, maxsize: int)
    ensures var s := Run(ops, maxsize); |Events(ops)| == |s.seen| + s.dropped + |s.queue|
  {
    hide Run, Events, SeenAt;
    EverythingAccounted(ops, maxsize);
  }

  // ---------------------------------------------------------------- bursts

  function Burst<E>(events: seq<E>): seq<Op<E>> {
    seq(|events|, i requires 0 <= i < |events| => Submit(events[i]))
  }

  function Max(a: int, b: int): int {
    if a > b then a else b
  }

  /** A burst with nothing taken drops exactly what exceeds the bound, and keeps the latest. */
  lemma {:induction false} BurstDrops<E>(s: State<E>, events: seq<E>, maxsize: int)
    requires maxsize > 0 && |s.queue| <= maxsize
    ensures var s', over := RunFrom(s, Burst(events), maxsize), Max(0, |s.queue| + |events| - maxsize);
            && s'.dropped == s.dropped + over
            && s'.queue == (s.queue + events)[over..]
            && s'.seen == s.seen
  {
    if events == [] {
      assert s.queue + events == s.queue;
    } else {
      var n := |events| - 1;
      assert Burst(events)[..n] == Burst(events[..n]);
      BurstDrops(s, events[..n], maxsize);
      var over := Max(0, |s.queue| + n - maxsize);
      var all := s.queue + events;
      assert all == (s.queue + events[..n]) + [events[n]];
      assert all[over..] == (s.queue + events[..n])[over..] + [events[n]];
    }
  }

  /** Without a bound nothing is ever dropped. */
  lemma {:induction false} UnboundedDropsNothing<E>(ops: seq<Op<E>>, maxsize: int)
    requires maxsize <= 0
    ensures Run(ops, maxsize).dropped == 0
  {
    if ops != [] {
      UnboundedDropsNothing(ops[..|ops| - 1], maxsize);
    }
  }

  // ---------------------------------------------------------------- many workers

  datatype BusOp<E> = Emit(event: E) | TakeBy(worker: nat)

  /** The bus on values: emitting submits to every worker, in turn. */
  function BusStep<E>(ss: seq<State<E>>, op: BusOp<E>, maxsizes: seq<int>): (ss': seq<State<E>>)
    requires |maxsizes| == |ss|
    ensures |ss'| == |ss|
  {
    match op
    case Emit(e) => seq(|ss|, i requires 0 <= i < |ss| => Submitted(ss[i], e, maxsizes[i]))
    case TakeBy(w) => if w < |ss| then ss[w := Taken(ss[w])] else ss
  }

  function BusRun<E>(ops: seq<BusOp<E>>, maxsizes: seq<int>): (ss: seq<State<E>>)
    ensures |ss| == |maxsizes|
  {
    if ops == [] then seq(|maxsizes|, i => State([], 0, []))
    else BusStep(BusRun(ops[..|ops| - 1], maxsizes), ops[|ops| - 1], maxsizes)
  }

  /** What worker `w` takes part in. */
  function Own<E>(ops: seq<BusOp<E>>, w: nat): seq<Op<E>> {
    if ops == [] then []
    else
      Own(ops[..|ops| - 1], w) +
      (match ops[|ops| - 1]
       case Emit(e) => [Submit(e)]
       case TakeBy(v) => if v == w then [Take] else [])
  }

  /** A worker's history is the run of its own operations: other workers, slow or stuck, and their
      bounds make no difference to it. */
  lemma {:induction false} WorkersAreIndependent<E>(ops: seq<BusOp<E>>, maxsizes: seq<int>, w: nat)
    requires w < |maxsizes|
    ensures BusRun(ops, maxsizes)[w] == Run(Own(ops, w), maxsizes[w])
  {
    if ops != [] {
      var before, op := ops[..|ops| - 1], ops[|ops| - 1];
      WorkersAreIndependent(before, maxsizes, w);
      var own, own' := Own(before, w), Own(ops, w);
      if |own'| > |own| {
        assert own'[..|own'| - 1] == own;
      } else {
        assert own' == own;
      }
    }
  }
}
