/** The Kafka observer: publish, flush the dead-letter buffer, buffer on failure. */
module Kafka {
  import opened Common

  const CAPACITY: nat := 1000

  /** A keyed payload. */
  datatype Record = Record(key: string, payload: string)

  /** What Kafka acknowledged, in order; what waits in the buffer; what the buffer pushed out. */
  datatype State<R> = State(topic: seq<R>, dlq: seq<R>, evicted: seq<R>)

  // ---------------------------------------------------------------- one event on values

  /** The first send from number `n` on that fails, or `end`; `up(n)` tells whether send `n` succeeds. */
  function NextFailure(n: nat, end: nat, up: nat -> bool): (k: nat)
    requires n <= end
    ensures n <= k <= end
    ensures forall i: nat :: n <= i < k ==> up(i)
    ensures k < end ==> !up(k)
    decreases end - n
  {
    if n < end && up(n) then NextFailure(n + 1, end, up) else n
  }

  /** How many buffered records a flush sends: send 0 of a call is its own record. */
  function Flushed(size: nat, up: nat -> bool): (k: nat)
    ensures k <= size
    ensures k == size <==> forall i: nat :: 1 <= i <= size ==> up(i)
  {
    NextFailure(1, size + 1, up) - 1
  }

  /** Appends; beyond the capacity the oldest record goes. */
  function Buffer<R>(s: State<R>, r: R): State<R> {
    if |s.dlq| < CAPACITY then s.(dlq := s.dlq + [r])
    else s.(dlq := s.dlq[1..] + [r], evicted := s.evicted + [s.dlq[0]])
  }

  /** The own record first, then the buffer's head for as long as sends succeed. Any failure buffers
      the own record, sent or not. */
  function Publish<R>(s: State<R>, r: R, up: nat -> bool): State<R> {
    if !up(0) then Buffer(s, r)
    else
      var k := Flushed(|s.dlq|, up);
      var sent := s.(topic := s.topic + [r] + s.dlq[..k], dlq := s.dlq[k..]);
      if k < |s.dlq| then Buffer(sent, r) else sent
  }

  // ---------------------------------------------------------------- the observer

  class KafkaObserver {
    var started: bool
    var dlq: seq<Record>
    var topic: seq<Record>
    ghost var evicted: seq<Record>

    ghost function Value(): State<Record>
      reads this
    {
      State(topic, dlq, evicted)
    }

    constructor ()
      ensures !started && Value() == State([], [], [])
    {
      started, dlq, topic, evicted := false, [], [], [];
    }

    method Start()
      modifies this
      ensures started && Value() == old(Value())
    {
      started := true;
    }

    /** Sends buffered records from the head on until one fails or none is left. */
    method Flush(up: nat -> bool) returns (ok: bool)
      modifies this`dlq, this`topic
      ensures var k := Flushed(|old(dlq)|, up);
              && ok == (k == |old(dlq)|)
              && dlq == old(dlq)[k..] && topic == old(topic) + old(dlq)[..k]
    {
      var n: nat := 1;
      ok := true;
      while ok && dlq != []
        invariant 1 <= n <= |old(dlq)| + 1
        invariant NextFailure(1, |old(dlq)| + 1, up) == NextFailure(n, |old(dlq)| + 1, up)
        invariant ok || (n <= |old(dlq)| && !up(n))
        invariant dlq == old(dlq)[n - 1..] && topic == old(topic) + old(dlq)[..n - 1]
        decreases ok, |dlq|
      {
        ok := up(n);
        if ok {
          topic := topic + [dlq[0]];
          dlq := dlq[1..];
          n := n + 1;
        }
      }
    }

    method Store(r: Record)
      requires |dlq| <= CAPACITY
      modifies this`dlq, this`evicted
      ensures Value() == Buffer(old(Value()), r) && |dlq| <= CAPACITY
    {
      dlq := dlq + [r];
      if |dlq| > CAPACITY {
        evicted := evicted + [dlq[0]];
        dlq := dlq[1..];
      }
    }

    /** `envelope` is what the event frames to, if anything. */
    method OnEvent(envelope: Option<Record>, up: nat -> bool)
      requires |dlq| <= CAPACITY
      modifies this
      ensures started == old(started) && |dlq| <= CAPACITY
      ensures Value() == if started && envelope.Some? then Publish(old(Value()), envelope.value, up) else old(Value())
    {
      hide Flushed, Buffer;
      if !started || envelope.None? {
        return;
      }
      var ok := up(0);
      if ok {
        topic := topic + [envelope.value];
        ok := Flush(up);
      }
      if !ok {
        Store(envelope.value);
      }
    }
  }

  // ---------------------------------------------------------------- runs

  /** One handled event: a record to publish, or nothing to do, and the fate of its sends. */
  datatype Call<R> = Call(envelope: Option<R>, up: nat -> bool)

  function Handle<R>(s: State<R>, c: Call<R>): State<R> {
    if c.envelope.Some? then Publish(s, c.envelope.value, c.up) else s
  }

  function Run<R>(cs: seq<Call<R>>): State<R> {
    if cs == [] then State([], [], []) else Handle(Run(cs[..|cs| - 1]), cs[|cs| - 1])
  }

  function Received<R>(cs: seq<Call<R>>): seq<R> {
    if cs == [] then []
    else Received(cs[..|cs| - 1]) + (if cs[|cs| - 1].envelope.Some? then [cs[|cs| - 1].envelope.value] else [])
  }

  /** The call's own send succeeded and a later one of the same call failed. */
  predicate FlushFails<R>(s: State<R>, c: Call<R>) {
    c.envelope.Some? && c.up(0) && Flushed(|s.dlq|, c.up) < |s.dlq|
  }

  predicate Fails<R>(s: State<R>, c: Call<R>) {
    c.envelope.Some? && (!c.up(0) || FlushFails(s, c))
  }

  /** The records published once by a call whose flush then failed: these are buffered all the same. */
  function Doubled<R>(cs: seq<Call<R>>): seq<R> {
    if cs == [] then []
    else
      var c := cs[|cs| - 1];
      Doubled(cs[..|cs| - 1]) + (if FlushFails(Run(cs[..|cs| - 1]), c) then [c.envelope.value] else [])
  }

  function Failures<R>(cs: seq<Call<R>>): nat {
    if cs == [] then 0
    else Failures(cs[..|cs| - 1]) + (if Fails(Run(cs[..|cs| - 1]), cs[|cs| - 1]) then 1 else 0)
  }

  ghost function Everywhere<R>(s: State<R>): multiset<R> {
    multiset(s.topic) + multiset(s.dlq) + multiset(s.evicted)
  }

  lemma BufferKeeps<R>(s: State<R>, r: R)
    requires |s.dlq| <= CAPACITY
    ensures Everywhere(Buffer(s, r)) == Everywhere(s) + multiset{r}
    ensures |Buffer(s, r).dlq| <= CAPACITY
  {
    if |s.dlq| == CAPACITY {
      assert s.dlq == [s.dlq[0]] + s.dlq[1..];
    }
  }

  lemma FlushKeeps<R>(s: State<R>, r: R, k: nat)
    requires k <= |s.dlq|
    ensures Everywhere(s.(topic := s.topic + [r] + s.dlq[..k], dlq := s.dlq[k..])) == Everywhere(s) + multiset{r}
  {
    assert s.dlq == s.dlq[..k] + s.dlq[k..];
  }

  lemma PublishKeeps<R>(s: State<R>, c: Call<R>)
    requires |s.dlq| <= CAPACITY && c.envelope.Some?
    ensures Everywhere(Handle(s, c)) ==
      Everywhere(s) + multiset{c.envelope.value} + (if FlushFails(s, c) then multiset{c.envelope.value} else multiset{})
    ensures |Handle(s, c).dlq| <= CAPACITY
  {
    hide Everywhere, Buffer;
    var r := c.envelope.value;
    if !c.up(0) {
      BufferKeeps(s, r);
    } else {
      var k := Flushed(|s.dlq|, c.up);
      FlushKeeps(s, r, k);
      BufferKeeps(s.(topic := s.topic + [r] + s.dlq[..k], dlq := s.dlq[k..]), r);
    }
  }

  /** Conservation, over every run of sends that may fail: published, buffered and pushed-out records
      are, counting copies, the received ones and one more of each whose own send succeeded but whose
      flush failed. The buffer never exceeds its capacity. */
  lemma {:induction false} Conservation<R>(cs: seq<Call<R>>)
    ensures Everywhere(Run(cs)) == multiset(Received(cs)) + multiset(Doubled(cs))
    ensures |Run(cs).dlq| <= 1000
  {
    if cs != [] {
      hide Everywhere, Handle;
      var before, c := cs[..|cs| - 1], cs[|cs| - 1];
      Conservation(before);
      if c.envelope.Some? {
        PublishKeeps(Run(before), c);
      } else {
        HandlesNothing(Run(before), c);
      }
    }
  }

  lemma HandlesNothing<R>(s: State<R>, c: Call<R>)
    requires c.envelope.None?
    ensures Handle(s, c) == s
  {
  }

  /** In counts. */
  lemma {:induction false} ConservedCount<R>(cs: seq<Call<R>>)
    ensures |Run(cs).topic| + |Run(cs).dlq| + |Run(cs).evicted| == |Received(cs)| + |Doubled(cs)|
  {
    Conservation(cs);
    var s := Run(cs);
    assert |Everywhere(s)| == |s.topic| + |s.dlq| + |s.evicted|;
    assert |multiset(Received(cs)) + multiset(Doubled(cs))| == |Received(cs)| + |Doubled(cs)|;
  }

  /** Nothing is lost without trace, and nothing is invented. */
  lemma {:induction false} EveryEventSomewhere<R>(cs: seq<Call<R>>, r: R)
    ensures r in Received(cs) <==> r in Run(cs).topic || r in Run(cs).dlq || r in Run(cs).evicted
  {
    Conservation(cs);
    DoubledWereReceived(cs);
    assert r in Everywhere(Run(cs)) <==> r in multiset(Received(cs)) + multiset(Doubled(cs));
  }

  lemma {:induction false} DoubledWereReceived<R>(cs: seq<Call<R>>)
    ensures forall r :: r in Doubled(cs) ==> r in Received(cs)
  {
    if cs != [] {
      DoubledWereReceived(cs[..|cs| - 1]);
    }
  }

  /** One call without a failure leaves the buffer empty, its records published in order after the
      call's own; and only such a call does, or one that had nothing to buffer. */
  lemma {:induction false} RecoveryIff<R>(s: State<R>, c: Call<R>)
    requires c.envelope.Some? && |s.dlq| <= CAPACITY
    ensures Handle(s, c).dlq == [] <==> !Fails(s, c)
    ensures !Fails(s, c) ==> Handle(s, c).topic == s.topic + [c.envelope.value] + s.dlq
    ensures !Fails(s, c) <==> forall n: nat :: n <= |s.dlq| ==> c.up(n)
  {
    if !Fails(s, c) {
      assert s.dlq[..|s.dlq|] == s.dlq;
    }
  }

  // ---------------------------------------------------------------- order

  predicate Increasing(s: seq<nat>) {
    forall i, j :: 0 <= i < j < |s| ==> s[i] < s[j]
  }

  /** Calls numbered as they arrive. */
  predicate Numbered(cs: seq<Call<nat>>) {
    forall i :: 0 <= i < |cs| ==> cs[i].envelope.None? || cs[i].envelope.value == i
  }

  lemma OneMoreIncreasing(s: seq<nat>, r: nat)
    requires Increasing(s) && forall x :: x in s ==> x < r
    ensures Increasing(s + [r])
  {
    assert forall i :: 0 <= i < |s| ==> s[i] in s;
  }

  lemma BufferInOrder(s: State<nat>, r: nat)
    requires |s.dlq| <= CAPACITY && Increasing(s.evicted + s.dlq)
    requires forall x :: x in s.evicted + s.dlq ==> x < r
    ensures var s' := Buffer(s, r);
            Increasing(s'.evicted + s'.dlq) && forall x :: x in s'.evicted + s'.dlq ==> x <= r
  {
    var s' := Buffer(s, r);
    OneMoreIncreasing(s.evicted + s.dlq, r);
    assert s'.evicted + s'.dlq == s.evicted + s.dlq + [r];
  }

  lemma FlushInOrder(s: State<nat>, k: nat)
    requires k <= |s.dlq| && Increasing(s.evicted + s.dlq)
    ensures Increasing(s.evicted + s.dlq[k..])
    ensures forall x :: x in s.evicted + s.dlq[k..] ==> x in s.evicted + s.dlq
  {
    var a, b := s.evicted + s.dlq, s.evicted + s.dlq[k..];
    forall i | 0 <= i < |b| ensures b[i] == a[if i < |s.evicted| then i else i + k] {
    }
  }

  /** The buffer holds events in the order they arrived, every one of them newer than all it pushed
      out, and none twice. */
  lemma {:induction false} BufferIsInOrder(cs: seq<Call<nat>>)
    requires Numbered(cs)
    ensures Increasing(Run(cs).evicted + Run(cs).dlq)
    ensures forall x :: x in Run(cs).evicted + Run(cs).dlq ==> x < |cs|
  {
    if cs != [] {
      hide Increasing, Buffer;
      var before, c := cs[..|cs| - 1], cs[|cs| - 1];
      BufferIsInOrder(before);
      Conservation(before);
      var s := Run(before);
      if c.envelope.Some? {
        var k := if c.up(0) then Flushed(|s.dlq|, c.up) else 0;
        FlushInOrder(s, k);
        var sent := State(if c.up(0) then s.topic + [c.envelope.value] + s.dlq[..k] else s.topic, s.dlq[k..],
                          s.evicted);
        BufferInOrder(sent, c.envelope.value);
      }
    } else {
      assert Run(cs).evicted + Run(cs).dlq == [];
    }
  }

  // ---------------------------------------------------------------- what is pushed out

  /** A call pushes a record out exactly when the buffer is full and the call's own send or the first
      send of its flush fails; what goes is then the oldest record, and one only. */
  lemma EvictsIff<R>(s: State<R>, c: Call<R>)
    requires |s.dlq| <= CAPACITY
    ensures Handle(s, c).evicted != s.evicted <==>
      c.envelope.Some? && |s.dlq| == CAPACITY && (!c.up(0) || !c.up(1))
    ensures Handle(s, c).evicted != s.evicted ==> Handle(s, c).evicted == s.evicted + [s.dlq[0]]
  {
  }

  /** Every one of these calls has a record whose own send fails. */
  predicate Outage<R>(cs: seq<Call<R>>) {
    forall i :: 0 <= i < |cs| ==> cs[i].envelope.Some? && !cs[i].up(0)
  }

  function After<R>(s: State<R>, cs: seq<Call<R>>): State<R> {
    if cs == [] then s else Handle(After(s, cs[..|cs| - 1]), cs[|cs| - 1])
  }

  lemma {:induction false} RunsCompose<R>(before: seq<Call<R>>, cs: seq<Call<R>>)
    ensures Run(before + cs) == After(Run(before), cs)
  {
    if cs == [] {
      assert before + cs == before;
    } else {
      var all, n := before + cs, |cs| - 1;
      RunsCompose(before, cs[..n]);
      assert all[..|all| - 1] == before + cs[..n] && all[|all| - 1] == cs[n];
    }
  }

  function Max(a: int, b: int): int {
    if a > b then a else b
  }

  /** Of `all`, the first `over` have been pushed out since `s`, and the rest are buffered. */
  ghost predicate Spilled<R(!new)>(s: State<R>, s': State<R>, all: seq<R>, over: nat) {
    && over <= |all|
    && s'.topic == s.topic
    && s'.evicted == s.evicted + all[..over]
    && s'.dlq == all[over..]
  }

  lemma SpillStep<R(!new)>(s: State<R>, s': State<R>, all: seq<R>, over: nat, c: Call<R>)
    requires Spilled(s, s', all, over) && |s'.dlq| <= CAPACITY && c.envelope.Some? && !c.up(0)
    ensures Spilled(s, Handle(s', c), all + [c.envelope.value], if |s'.dlq| == CAPACITY then over + 1 else over)
  {
    var r := c.envelope.value;
    assert (all + [r])[..over] == all[..over] && (all + [r])[over..] == all[over..] + [r];
    if |s'.dlq| == CAPACITY {
      assert (all + [r])[..over + 1] == all[..over] + [all[over]];
      assert (all + [r])[over + 1..] == all[over..][1..] + [r];
    }
  }

  lemma ReceivedStep<R>(cs: seq<Call<R>>)
    requires cs != []
    ensures var n := |cs| - 1;
            Received(cs) == Received(cs[..n]) + (if cs[n].envelope.Some? then [cs[n].envelope.value] else [])
  {
  }

  /** An outage of m calls publishes nothing, pushes out exactly what exceeds the capacity, oldest first,
      and leaves the latest records in the buffer. */
  lemma {:induction false} OutageEvicts<R(!new)>(s: State<R>, cs: seq<Call<R>>)
    requires |s.dlq| <= CAPACITY && Outage(cs)
    ensures |Received(cs)| == |cs|
    ensures Spilled(s, After(s, cs), s.dlq + Received(cs), Max(0, |s.dlq| + |cs| - CAPACITY))
  {
    if cs == [] {
      assert s.dlq + Received(cs) == s.dlq;
    } else {
      var n := |cs| - 1;
      OutageEvicts(s, cs[..n]);
      ReceivedStep(cs);
      hide Received, Handle;
      var all, r := s.dlq + Received(cs[..n]), cs[n].envelope.value;
      SpillStep(s, After(s, cs[..n]), all, Max(0, |s.dlq| + n - CAPACITY), cs[n]);
      assert s.dlq + Received(cs) == all + [r];
    }
  }

  /** From the start: an outage loses the records that exceed the capacity, none exactly when it is no
      longer than that. */
  lemma {:induction false} OutageLosesIff<R(!new)>(cs: seq<Call<R>>)
    requires Outage(cs)
    ensures var over := Max(0, |cs| - 1000);
            && over <= |Received(cs)| == |cs|
            && Run(cs).evicted == Received(cs)[..over]
            && Run(cs).dlq == Received(cs)[over..]
            && Run(cs).topic == []
    ensures Run(cs).evicted != [] <==> |cs| > 1000
  {
    RunsCompose([], cs);
    OutageEvicts(State([], [], []), cs);
    hide After, Received, Outage;
    assert [] + cs == cs && [] + Received(cs) == Received(cs);
  }

  function Down<R>(r: R): Call<R> {
    Call(Some(r), n => false)
  }

  /** A run that loses a record which was never published: one call more than the capacity while Kafka
      is down. */
  lemma OutageLosesRecord<R(!new)>(r: R)
    ensures var cs := seq(CAPACITY + 1, i => Down(r));
            Run(cs).evicted == [r] && Run(cs).topic == [] && |Run(cs).dlq| == CAPACITY
  {
    var cs := seq(CAPACITY + 1, i => Down(r));
    assert cs[0] == Down(r);
    ReceivedFirst(cs);
    hide Run, Received;
    OutageLosesIff(cs);
  }

  lemma {:induction false} ReceivedFirst<R>(cs: seq<Call<R>>)
    requires cs != [] && cs[0].envelope.Some?
    ensures Received(cs) != [] && Received(cs)[0] == cs[0].envelope.value
  {
    if |cs| > 1 {
      ReceivedFirst(cs[..|cs| - 1]);
    }
  }

  /** Nothing is pushed out before the capacity's worth of calls has failed beyond it. */
  lemma {:induction false} EvictionNeedsFailures<R>(cs: seq<Call<R>>)
    ensures |Run(cs).dlq| + |Run(cs).evicted| <= Failures(cs)
    ensures Run(cs).evicted != [] ==> |Run(cs).evicted| + CAPACITY <= Failures(cs)
  {
    if cs != [] {
      EvictionNeedsFailures(cs[..|cs| - 1]);
    }
  }
}
