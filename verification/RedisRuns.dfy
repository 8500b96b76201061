/** Every interleaving of any number of replicas' commands: what a fixed window admits. */
module RedisRuns {
  import opened RedisLimiter

  /** What the first `m` increments that passed asked of a counter. */
  function Admitted(s: State, k: Key, m: nat): int
    requires m <= |s.log|
  {
    if m == 0 then 0
    else Admitted(s, k, m - 1) +
         (if s.log[m - 1].bump.key == k && m - 1 in s.passed && s.passed[m - 1] then s.log[m - 1].bump.n else 0)
  }

  /** Requests let through without an error that had to pass the counter. */
  function AllowedWith(s: State, k: Key): set<nat> {
    set pid | pid in s.done && s.done[pid].allowed && s.done[pid].clean
              && exists b :: b in s.done[pid].bumps && b.key == k
  }

  /** The limit in force on a counter, over all requests of a run. */
  predicate LimitedTo(events: seq<Event>, k: Key, most: int) {
    forall i, b ::
      (&& 0 <= i < |events| && events[i].Start? && events[i].read >= 0.0
       && b in Bumps(events[i].req, WindowOf(events[i].read)) && b.key == k) ==> b.limit <= most
  }

  predicate Asking(log: seq<Entry>) {
    forall i :: 0 <= i < |log| ==> BumpOk(log[i].bump, log[i].read)
  }

  /** Only request `pid` moves, forwards, and nothing is incremented. */
  ghost predicate OnlyMoves(s: State, s': State, pid: nat, todo: seq<Bump>) {
    && s'.log == s.log
    && (forall q :: q != pid ==> (q in s'.procs <==> q in s.procs))
    && (forall q :: q != pid && q in s.procs ==> s'.procs[q] == s.procs[q])
    && (pid in s'.procs ==> forall b :: b in s'.procs[pid].todo ==> b in todo)
  }

  lemma JudgeOnlyMoves(s: State, pid: nat, p: Proc, entry: nat)
    requires p.todo != [] && entry < |s.log|
    ensures OnlyMoves(s, Judge(s, pid, p, entry), pid, p.todo)
  {
    assert forall b :: b in p.todo[1..] ==> b in p.todo;
  }

  lemma SkipOnlyMoves(s: State, pid: nat, p: Proc)
    requires p.todo != []
    ensures OnlyMoves(s, Skip(s, pid, p), pid, p.todo)
  {
    SkippedIsSuffix(p.todo, p.todo[0].scope);
  }

  /** A command increments at most its own bump, and moves only its own request. */
  lemma CommandMoves(s: State, pid: nat, at: real, reply: Reply)
    requires Enabled(s, Command(pid, at, reply))
    ensures var s', p := Apply(s, Command(pid, at, reply)), s.procs[pid];
            OnlyMoves(s, s', pid, p.todo) || OnlyMoves(Increment(s, pid, p.read, p.todo[0], at), s', pid, p.todo)
  {
    hide Incremented, ExpirySet, Judge, Skip;
    var p := s.procs[pid];
    var b := p.todo[0];
    var i, x := Increment(s, pid, p.read, b, at), s.(counters := ExpirySet(s.counters, b.key, at));
    SkipOnlyMoves(s, pid, p);
    if p.phase.Incr? {
      SkipOnlyMoves(i, pid, p);
      JudgeOnlyMoves(i, pid, p, |s.log|);
    } else {
      SkipOnlyMoves(x, pid, p);
      JudgeOnlyMoves(x, pid, p, p.phase.entry);
    }
  }

  /** One command adds at most an increment for its own bump, moves only its own request, and
      moves that one forwards. */
  lemma CommandEffect(s: State, pid: nat, at: real, reply: Reply)
    requires Enabled(s, Command(pid, at, reply))
    ensures var s', p := Apply(s, Command(pid, at, reply)), s.procs[pid];
            && (s'.log == s.log ||
                (|s'.log| == |s.log| + 1 && s'.log[..|s.log|] == s.log && s'.log[|s.log|].bump == p.todo[0]))
            && (forall q :: q != pid ==> (q in s'.procs <==> q in s.procs))
            && (forall q :: q != pid && q in s.procs ==> s'.procs[q] == s.procs[q])
            && (pid in s'.procs ==> forall b :: b in s'.procs[pid].todo ==> b in p.todo)
  {
    hide Incremented, Apply;
    CommandMoves(s, pid, at, reply);
  }

  /** Every increment of a counter, made or still to make, is held against at most `most`. */
  ghost predicate WithinLimit(s: State, k: Key, most: int) {
    && (forall i :: 0 <= i < |s.log| && s.log[i].bump.key == k ==> s.log[i].bump.limit <= most)
    && (forall pid, b :: pid in s.procs && b in s.procs[pid].todo && b.key == k ==> b.limit <= most)
  }

  lemma CommandStaysWithinLimit(s: State, pid: nat, at: real, reply: Reply, k: Key, most: int)
    requires Enabled(s, Command(pid, at, reply)) && WithinLimit(s, k, most)
    ensures WithinLimit(Apply(s, Command(pid, at, reply)), k, most)
  {
    hide Apply;
    CommandEffect(s, pid, at, reply);
    var s' := Apply(s, Command(pid, at, reply));
    assert s.procs[pid].todo[0] in s.procs[pid].todo;
    assert forall i :: 0 <= i < |s.log| ==> s'.log[i] == s'.log[..|s.log|][i];
  }

  lemma StepStaysWithinLimit(s: State, e: Event, k: Key, most: int)
    requires Enabled(s, e) && WithinLimit(s, k, most)
    requires e.Start? ==> forall b :: b in Bumps(e.req, WindowOf(e.read)) && b.key == k ==> b.limit <= most
    ensures WithinLimit(Apply(s, e), k, most)
  {
    hide Bumps, Incremented, ExpirySet;
    match e
    case Start(_, _, _) =>
    case Command(pid, at, reply) =>
      hide Apply, WithinLimit;
      CommandStaysWithinLimit(s, pid, at, reply, k, most);
  }

  lemma {:induction false} RunStaysWithinLimit(s: State, events: seq<Event>, k: Key, most: int)
    requires Possible(s, events) && WithinLimit(s, k, most) && LimitedTo(events, k, most)
    ensures WithinLimit(Run(s, events), k, most)
    decreases |events|
  {
    hide Apply, WithinLimit;
    if events != [] {
      StepStaysWithinLimit(s, events[0], k, most);
      RunStaysWithinLimit(Apply(s, events[0]), events[1..], k, most);
    }
  }

  /** What has passed so far never exceeds the limit, because it never exceeds the running total
      at the last increment that passed. */
  lemma {:induction false} AdmittedFits(s: State, k: Key, m: nat, most: int)
    requires LogExact(s.log) && PassedExact(s) && WithinLimit(s, k, most) && most >= 0 && m <= |s.log|
    ensures Admitted(s, k, m) <= most && Admitted(s, k, m) <= Bumped(s.log[..m], k)
  {
    if m > 0 {
      AdmittedFits(s, k, m - 1, most);
      var e := s.log[m - 1];
      assert s.log[..m] == s.log[..m - 1] + [e];
      BumpedStep(s.log[..m - 1], e, k);
      assert BumpOk(e.bump, e.read) && e.value == Bumped(s.log[..m], e.bump.key);
      hide LogExact, Bumped, BumpOk;
      if e.bump.key == k && m - 1 in s.passed && s.passed[m - 1] {
        assert e.value <= e.bump.limit <= most;
      }
    }
  }

  /** The first of a request's bumps that names the counter. */
  function BumpFor(bs: seq<Bump>, k: Key): (b: Bump)
    requires exists b :: b in bs && b.key == k
    ensures b in bs && b.key == k
  {
    if bs[0].key == k then bs[0] else BumpFor(bs[1..], k)
  }

  /** What each request let through asked of the counter. */
  ghost function Asks(s: State, k: Key): map<nat, int> {
    map pid | pid in AllowedWith(s, k) :: BumpFor(s.done[pid].bumps, k).n
  }

  ghost function Sum(asks: map<nat, int>): int {
    if asks == map[] then 0
    else
      var pid :| pid in asks;
      asks[pid] + Sum(asks - {pid})
  }

  /** The order of summing does not matter. */
  lemma {:induction false} SumWithout(asks: map<nat, int>, pid: nat)
    requires pid in asks
    ensures Sum(asks) == asks[pid] + Sum(asks - {pid})
    decreases |asks|
  {
    var p :| p in asks && Sum(asks) == asks[p] + Sum(asks - {p});
    if p != pid {
      SumWithout(asks - {p}, pid);
      SumWithout(asks - {pid}, p);
      assert asks - {p} - {pid} == asks - {pid} - {p};
    }
  }

  /** Each of these requests has an increment among the first `m` that passed, of what it asked. */
  ghost predicate Backed(s: State, k: Key, asks: map<nat, int>, m: nat) {
    m <= |s.log| && forall pid :: pid in asks ==> exists i :: 0 <= i < m && BackedBy(s, k, pid, asks[pid], i)
  }

  predicate BackedBy(s: State, k: Key, pid: nat, n: int, i: int) {
    && 0 <= i < |s.log| && i in s.passed && s.passed[i]
    && s.log[i].pid == pid && s.log[i].bump.key == k && s.log[i].bump.n == n
  }

  lemma {:induction false} AsksAtMostAdmitted(s: State, k: Key, asks: map<nat, int>, m: nat)
    requires Asking(s.log) && Backed(s, k, asks, m)
    ensures Sum(asks) <= Admitted(s, k, m)
  {
    hide Sum, BackedBy;
    if m == 0 {
      assert asks == map[];
      SumOfNone();
    } else {
      var pid, n := s.log[m - 1].pid, s.log[m - 1].bump.n;
      if pid in asks && BackedBy(s, k, pid, asks[pid], m - 1) {
        OthersBackedEarlier(s, k, asks, m, pid);
        AsksAtMostAdmitted(s, k, asks - {pid}, m - 1);
        SumWithout(asks, pid);
        LastIsAdmitted(s, k, pid, asks[pid], m);
      } else {
        NoneBackedLast(s, k, asks, m);
        AsksAtMostAdmitted(s, k, asks, m - 1);
      }
    }
  }

  lemma SumOfNone()
    ensures Sum(map[]) == 0
  {
  }

  lemma LastIsAdmitted(s: State, k: Key, pid: nat, n: int, m: nat)
    requires 0 < m <= |s.log| && BackedBy(s, k, pid, n, m - 1)
    ensures Admitted(s, k, m) == Admitted(s, k, m - 1) + n
  {
  }

  lemma OthersBackedEarlier(s: State, k: Key, asks: map<nat, int>, m: nat, pid: nat)
    requires Backed(s, k, asks, m) && m > 0 && s.log[m - 1].pid == pid
    ensures Backed(s, k, asks - {pid}, m - 1)
  {
    var rest := asks - {pid};
    forall q | q in rest ensures exists i :: 0 <= i < m - 1 && BackedBy(s, k, q, rest[q], i) {
      var i :| 0 <= i < m && BackedBy(s, k, q, asks[q], i);
      assert i != m - 1 && BackedBy(s, k, q, rest[q], i);
    }
  }

  lemma NoneBackedLast(s: State, k: Key, asks: map<nat, int>, m: nat)
    requires Backed(s, k, asks, m) && m > 0
    requires var pid := s.log[m - 1].pid; pid !in asks || !BackedBy(s, k, pid, asks[pid], m - 1)
    ensures Backed(s, k, asks, m - 1)
  {
    forall q | q in asks ensures exists i :: 0 <= i < m - 1 && BackedBy(s, k, q, asks[q], i) {
      var i :| 0 <= i < m && BackedBy(s, k, q, asks[q], i);
      assert i != m - 1;
    }
  }

  lemma AllowedAreBacked(s: State, k: Key)
    requires Inv(s)
    ensures Backed(s, k, Asks(s, k), |s.log|)
  {
    hide CountersExact, LogExact, PassedExact, ProcOk, BackedBy, BumpFor;
    forall pid | pid in AllowedWith(s, k)
      ensures exists i :: 0 <= i < |s.log| && BackedBy(s, k, pid, Asks(s, k)[pid], i)
    {
      OneIsBacked(s, k, pid);
      var i :| 0 <= i < |s.log| && BackedBy(s, k, pid, BumpFor(s.done[pid].bumps, k).n, i);
      assert BackedBy(s, k, pid, Asks(s, k)[pid], i);
    }
  }

  lemma OneIsBacked(s: State, k: Key, pid: nat)
    requires pid in AllowedWith(s, k) && VerdictOk(s, pid, s.done[pid])
    ensures exists i :: 0 <= i < |s.log| && BackedBy(s, k, pid, BumpFor(s.done[pid].bumps, k).n, i)
  {
    var b := BumpFor(s.done[pid].bumps, k);
    assert HasPassed(s, pid, b);
    var i :| i in s.passed && i < |s.log| && s.passed[i] && s.log[i].pid == pid && s.log[i].bump == b;
    assert BackedBy(s, k, pid, b.n, i);
  }

  /** Redis window safety: under every interleaving in which each command for a minute reaches the
      server within its 90 seconds, the increments that pass a counter total at most its limit; and so
      do the amounts asked by the requests let through it without an error, and hence their number. */
  lemma {:induction false} WindowSafety(events: seq<Event>, k: Key, most: int)
    requires Possible(INITIAL, events) && LimitedTo(events, k, most) && most >= 0
    ensures var s := Run(INITIAL, events);
            && Admitted(s, k, |s.log|) <= most
            && Sum(Asks(s, k)) <= most
            && |AllowedWith(s, k)| <= most
  {
    hide Possible, Run, LimitedTo, Admitted, Sum, AllowedWith;
    hide WithinLimit, CountersExact, ProcOk, VerdictOk, BumpOk, Bumped;
    NothingMade(k, most);
    RunKeepsInv(INITIAL, events);
    RunStaysWithinLimit(INITIAL, events, k, most);
    var s := Run(INITIAL, events);
    AdmittedFits(s, k, |s.log|, most);
    IncrementsAsk(s);
    AllowedAreBacked(s, k);
    AsksAtMostAdmitted(s, k, Asks(s, k), |s.log|);
    AllowedAtMostAsked(s, k);
  }

  lemma NothingMade(k: Key, most: int)
    ensures WithinLimit(INITIAL, k, most) && Inv(INITIAL)
  {
  }

  lemma IncrementsAsk(s: State)
    requires Inv(s)
    ensures Asking(s.log)
  {
  }

  lemma BackedNaturally(s: State, k: Key, pid: nat, n: int, i: int)
    requires LogExact(s.log) && BackedBy(s, k, pid, n, i)
    ensures n >= 1
  {
    hide Bumped;
  }

  /** Every request let through asked for at least one. */
  lemma AllAskNaturally(s: State, k: Key)
    requires Inv(s)
    ensures forall pid :: pid in Asks(s, k) ==> Asks(s, k)[pid] >= 1
  {
    hide BumpFor, BackedBy, CountersExact, PassedExact, ProcOk, VerdictOk, LogExact;
    AllowedAreBacked(s, k);
    forall pid | pid in Asks(s, k) ensures Asks(s, k)[pid] >= 1 {
      var i :| 0 <= i < |s.log| && BackedBy(s, k, pid, Asks(s, k)[pid], i);
      BackedNaturally(s, k, pid, Asks(s, k)[pid], i);
    }
  }

  /** So they are at most as many as they ask for. */
  lemma AllowedAtMostAsked(s: State, k: Key)
    requires Inv(s)
    ensures |AllowedWith(s, k)| <= Sum(Asks(s, k))
  {
    hide Inv, Sum, BumpFor;
    AllAskNaturally(s, k);
    assert Asks(s, k).Keys == AllowedWith(s, k);
    CountAtMostSum(Asks(s, k));
  }

  lemma {:induction false} CountAtMostSum(asks: map<nat, int>)
    requires forall pid :: pid in asks ==> asks[pid] >= 1
    ensures |asks.Keys| <= Sum(asks)
    decreases |asks|
  {
    if asks != map[] {
      var pid :| pid in asks && Sum(asks) == asks[pid] + Sum(asks - {pid});
      assert (asks - {pid}).Keys == asks.Keys - {pid};
      CountAtMostSum(asks - {pid});
    }
  }

  /** A comparison is decided by the order of increments alone: an increment passes exactly when
      it and all before it fit; a refused request really met the full counter it names, and if none of
      its commands failed, passed all counters before that one. */
  lemma VerdictsAreExact(events: seq<Event>)
    requires Possible(INITIAL, events)
    ensures var s := Run(INITIAL, events);
            && (forall i :: i in s.passed ==>
                  && i < |s.log|
                  && (s.passed[i] <==> Bumped(s.log[..i + 1], s.log[i].bump.key) <= s.log[i].bump.limit))
            && (forall pid :: pid in s.done ==> (s.done[pid].allowed <==> s.done[pid].refused.None?))
            && (forall pid :: pid in s.done && s.done[pid].refused.Some? ==>
                  var b := s.done[pid].refused.value;
                  HasFailed(s, pid, b) && (s.done[pid].clean ==> FirstToFail(s, pid, s.done[pid].bumps, b)))
            && (forall pid :: pid in s.done && s.done[pid].allowed && s.done[pid].clean ==>
                  AllPassed(s, pid, s.done[pid].bumps))
  {
    RunKeepsInv(INITIAL, events);
  }

  // ---------------------------------------------------------------- any sixty seconds

  /** What the requests whose clock reading lies in `[from, from + 60)` were granted in a scope. */
  function AdmittedSince(s: State, ident: string, dim: Dim, from: real, m: nat): int
    requires m <= |s.log|
  {
    if m == 0 then 0
    else
      var e := s.log[m - 1];
      AdmittedSince(s, ident, dim, from, m - 1) +
      (if e.bump.key.ident == ident && e.bump.key.dim == dim && from <= e.read < from + 60.0
          && m - 1 in s.passed && s.passed[m - 1] then e.bump.n else 0)
  }

  lemma {:induction false} SixtySecondsMeetTwoWindows(s: State, ident: string, dim: Dim, from: real, m: nat)
    requires Asking(s.log) && m <= |s.log| && from >= 0.0
    ensures AdmittedSince(s, ident, dim, from, m)
         <= Admitted(s, Key(ident, WindowOf(from), dim), m) + Admitted(s, Key(ident, WindowOf(from) + 1, dim), m)
  {
    if m > 0 {
      SixtySecondsMeetTwoWindows(s, ident, dim, from, m - 1);
      var e := s.log[m - 1];
      assert BumpOk(e.bump, e.read);
      if from <= e.read < from + 60.0 {
        OneWindowLater(from, e.read);
      }
    }
  }

  lemma OneWindowLater(from: real, read: real)
    requires 0.0 <= from <= read < from + 60.0
    ensures WindowOf(read) == WindowOf(from) || WindowOf(read) == WindowOf(from) + 1
  {
  }

  /** At most twice the limit in any sixty seconds of clock readings. */
  lemma AtMostTwiceTheLimit(events: seq<Event>, ident: string, dim: Dim, from: real, most: int)
    requires Possible(INITIAL, events) && most >= 0 && from >= 0.0
    requires forall w :: LimitedTo(events, Key(ident, w, dim), most)
    ensures var s := Run(INITIAL, events); AdmittedSince(s, ident, dim, from, |s.log|) <= 2 * most
  {
    RunKeepsInv(INITIAL, events);
    var s := Run(INITIAL, events);
    WindowSafety(events, Key(ident, WindowOf(from), dim), most);
    WindowSafety(events, Key(ident, WindowOf(from) + 1, dim), most);
    SixtySecondsMeetTwoWindows(s, ident, dim, from, |s.log|);
  }

  // ---------------------------------------------------------------- the first increment

  lemma {:induction false} TouchedIsPositive(log: seq<Entry>, k: Key)
    requires forall i :: 0 <= i < |log| ==> log[i].bump.n >= 1
    ensures Touched(log, k) ==> Bumped(log, k) >= 1
    ensures Bumped(log, k) >= 0
  {
    if log != [] {
      var rest := log[..|log| - 1];
      TouchedIsPositive(rest, k);
      BumpedStep(rest, log[|log| - 1], k);
      assert rest + [log[|log| - 1]] == log;
    }
  }

  /** Comparing the reply with the amount asked for detects exactly the first increment. */
  lemma FirstIncrementDetected(s: State, pid: nat, read: real, b: Bump, at: real)
    requires Inv(s) && BumpOk(b, read) && InTime(b.key, at)
    ensures Increment(s, pid, read, b, at).log[|s.log|].value == b.n <==> !Touched(s.log, b.key)
  {
    IncrementIsExact(s, pid, read, b, at);
    BumpedStep(s.log, Increment(s, pid, read, b, at).log[|s.log|], b.key);
    forall i | 0 <= i < |s.log| ensures s.log[i].bump.n >= 1 {
      assert BumpOk(s.log[i].bump, s.log[i].read);
    }
    TouchedIsPositive(s.log, b.key);
    if !Touched(s.log, b.key) {
      UntouchedIsZero(s.log, b.key);
    }
  }

  /** No counter is left behind without an expiry: one that has none yet belongs to a request
      about to send it. */
  ghost predicate NoLeak(s: State) {
    forall k :: k in s.counters && s.counters[k].expireAt.None? ==> Expiring(s, k)
  }

  ghost predicate Expiring(s: State, k: Key) {
    exists pid :: pid in s.procs && s.procs[pid].phase.Expire?
                  && s.procs[pid].todo != [] && s.procs[pid].todo[0].key == k
  }

  /** What an answered command may do to the counters. */
  ghost predicate CountersMove(s: State, s': State, pid: nat)
    requires pid in s.procs && s.procs[pid].todo != []
  {
    var p := s.procs[pid];
    var k := p.todo[0].key;
    && (forall l :: l in s'.counters && l != k ==> l in s.counters && s'.counters[l] == s.counters[l])
    && (p.phase.Incr? && !Touched(s.log, k) ==> Expiring(s', k))
    && (p.phase.Incr? && Touched(s.log, k) ==>
          k in s.counters && k in s'.counters && s'.counters[k].expireAt == s.counters[k].expireAt)
    && (p.phase.Expire? && k in s'.counters ==> s'.counters[k].expireAt.Some?)
  }

  lemma IncrementMovesCounters(s: State, pid: nat, at: real)
    requires Inv(s) && pid in s.procs && s.procs[pid].todo != [] && s.procs[pid].phase.Incr?
    requires InTime(s.procs[pid].todo[0].key, at)
    ensures var b := s.procs[pid].todo[0];
            var s' := Increment(s, pid, s.procs[pid].read, b, at);
            && (forall l :: l in s'.counters && l != b.key ==> l in s.counters && s'.counters[l] == s.counters[l])
            && (Touched(s.log, b.key) ==>
                  && b.key in s.counters && b.key in s'.counters
                  && s'.counters[b.key].expireAt == s.counters[b.key].expireAt)
            && (s'.log[|s.log|].value == b.n <==> !Touched(s.log, b.key))
  {
    hide LogExact, PassedExact, AllPassed, VerdictOk, Accounted, Bumped, Touched;
    var p := s.procs[pid];
    assert ProcOk(s, pid, p);
    assert BumpOk(p.todo[0], p.read);
    FirstIncrementDetected(s, pid, p.read, p.todo[0], at);
  }

  lemma CountersAfterAnswer(s: State, pid: nat, at: real)
    requires Enabled(s, Command(pid, at, Answered))
    ensures var s', p := Apply(s, Command(pid, at, Answered)), s.procs[pid];
            var b := p.todo[0];
            var inc := Increment(s, pid, p.read, b, at);
            && s'.counters == (if p.phase.Incr? then inc.counters else ExpirySet(s.counters, b.key, at))
            && (p.phase.Incr? && inc.log[|s.log|].value == b.n ==>
                  pid in s'.procs && s'.procs[pid].phase.Expire? && s'.procs[pid].todo == p.todo)
  {
    hide Incremented, ExpirySet, Launched;
  }

  lemma AnsweredMovesCounters(s: State, pid: nat, at: real)
    requires Inv(s) && Enabled(s, Command(pid, at, Answered)) && Timely(s, Command(pid, at, Answered))
    ensures CountersMove(s, Apply(s, Command(pid, at, Answered)), pid)
  {
    hide Inv, Apply, Increment, Touched;
    CountersAfterAnswer(s, pid, at);
    if s.procs[pid].phase.Incr? {
      IncrementMovesCounters(s, pid, at);
    }
  }

  lemma StartDoesNotLeak(s: State, e: Event)
    requires Enabled(s, e) && NoLeak(s) && e.Start?
    ensures NoLeak(Apply(s, e))
  {
    hide Bumps;
    var s' := Apply(s, e);
    forall k | k in s'.counters && s'.counters[k].expireAt.None? ensures Expiring(s', k) {
      var q :| q in s.procs && s.procs[q].phase.Expire? && s.procs[q].todo != [] && s.procs[q].todo[0].key == k;
      assert q in s'.procs && s'.procs[q] == s.procs[q];
    }
  }

  lemma StepDoesNotLeak(s: State, e: Event)
    requires Inv(s) && Enabled(s, e) && Timely(s, e) && NoLeak(s)
    requires e.Command? ==> e.reply.Answered?
    ensures NoLeak(Apply(s, e))
  {
    hide Inv, Apply, Timely, NoLeak;
    match e
    case Start(_, _, _) => StartDoesNotLeak(s, e);
    case Command(pid, at, _) => CommandDoesNotLeak(s, pid, at);
  }

  lemma CommandDoesNotLeak(s: State, pid: nat, at: real)
    requires Inv(s) && Enabled(s, Command(pid, at, Answered)) && Timely(s, Command(pid, at, Answered)) && NoLeak(s)
    ensures NoLeak(Apply(s, Command(pid, at, Answered)))
  {
    hide Inv, Apply, Touched;
    AnsweredMovesCounters(s, pid, at);
    CommandEffect(s, pid, at, Answered);
    var s', p := Apply(s, Command(pid, at, Answered)), s.procs[pid];
    hide Enabled, Timely, Expiring;
    forall k | k in s'.counters && s'.counters[k].expireAt.None? ensures Expiring(s', k) {
      if k != p.todo[0].key || (p.phase.Incr? && Touched(s.log, k)) {
        StillExpiring(s, s', pid, k);
      }
    }
  }

  lemma StillExpiring(s: State, s': State, pid: nat, k: Key)
    requires Expiring(s, k) && pid in s.procs
    requires forall q :: q != pid && q in s.procs ==> q in s'.procs && s'.procs[q] == s.procs[q]
    requires s.procs[pid].todo != [] && s.procs[pid].todo[0].key == k ==> s.procs[pid].phase.Incr?
    ensures Expiring(s', k)
  {
    var q :| q in s.procs && s.procs[q].phase.Expire? && s.procs[q].todo != [] && s.procs[q].todo[0].key == k;
    assert q in s'.procs && s'.procs[q] == s.procs[q];
  }

  lemma {:induction false} RunDoesNotLeak(s: State, events: seq<Event>)
    requires Inv(s) && NoLeak(s) && Possible(s, events)
    requires forall i :: 0 <= i < |events| && events[i].Command? ==> events[i].reply.Answered?
    ensures NoLeak(Run(s, events))
    decreases |events|
  {
    hide Apply, NoLeak, Inv;
    if events != [] {
      StepKeepsInv(s, events[0]);
      StepDoesNotLeak(s, events[0]);
      RunDoesNotLeak(Apply(s, events[0]), events[1..]);
    }
  }

  /** In a run without errors, once every request has its verdict every counter has an expiry, in time
      for its minute and at most three minutes after it began. */
  lemma {:induction false} EveryCounterExpires(events: seq<Event>)
    requires Possible(INITIAL, events) && Run(INITIAL, events).procs == map[]
    requires forall i :: 0 <= i < |events| && events[i].Command? ==> events[i].reply.Answered?
    ensures var counters := Run(INITIAL, events).counters;
            forall k :: k in counters ==>
              && counters[k].expireAt.Some?
              && 60.0 * k.window as real + 90.0 <= counters[k].expireAt.value < 60.0 * k.window as real + 180.0
  {
    hide Possible, Run;
    RunKeepsInv(INITIAL, events);
    RunDoesNotLeak(INITIAL, events);
  }
}
