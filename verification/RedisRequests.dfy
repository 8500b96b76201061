/** What the shared counters mean for requests: token estimates and numbers of those let through. */
module RedisRequests {
  import opened Common
  import opened RedisLimiter
  import opened RedisRuns

  // ---------------------------------------------------------------- where a request comes from

  /** The request that started under `pid`, and its clock reading. */
  function StartOf(events: seq<Event>, pid: nat): Option<(Request, real)> {
    if events == [] then None
    else
      match events[|events| - 1]
      case Start(p, req, read) => if p == pid then Some((req, read)) else StartOf(events[..|events| - 1], pid)
      case Command(_, _, _) => StartOf(events[..|events| - 1], pid)
  }

  lemma StartStep(events: seq<Event>, e: Event, pid: nat)
    ensures StartOf(events + [e], pid) ==
      if e.Start? && e.pid == pid then Some((e.req, e.read)) else StartOf(events, pid)
  {
    assert (events + [e])[..|events|] == events;
  }

  /** These are the bumps of the request that started under `pid`. */
  ghost predicate RootedAt(past: seq<Event>, pid: nat, bumps: seq<Bump>) {
    var o := StartOf(past, pid);
    o.Some? && o.value.1 >= 0.0 && bumps == Bumps(o.value.0, WindowOf(o.value.1))
  }

  ghost predicate Rooted(s: State, past: seq<Event>) {
    && (forall pid :: pid in s.procs ==> RootedAt(past, pid, s.procs[pid].bumps))
    && (forall pid :: pid in s.done ==> RootedAt(past, pid, s.done[pid].bumps))
  }

  /** Of request `pid` only the owner moves on, with the bumps it had. */
  ghost predicate KeepsBumps(s: State, s': State, pid: nat, bumps: seq<Bump>) {
    && (forall q :: q in s'.procs ==> if q == pid then s'.procs[q].bumps == bumps
                                      else q in s.procs && s'.procs[q] == s.procs[q])
    && (forall q :: q in s'.done ==>
          (q == pid && s'.done[q].bumps == bumps) || (q in s.done && s'.done[q] == s.done[q]))
  }

  lemma ContinueKeepsBumps(s: State, pid: nat, p: Proc)
    ensures KeepsBumps(s, Continue(s, pid, p), pid, p.bumps)
  {
  }

  lemma JudgeKeepsBumps(s: State, pid: nat, p: Proc, entry: nat)
    requires p.todo != [] && entry < |s.log|
    ensures KeepsBumps(s, Judge(s, pid, p, entry), pid, p.bumps)
  {
  }

  lemma CommandKeepsBumps(s: State, pid: nat, at: real, reply: Reply)
    requires Enabled(s, Command(pid, at, reply))
    ensures KeepsBumps(s, Apply(s, Command(pid, at, reply)), pid, s.procs[pid].bumps)
  {
    hide Incremented, ExpirySet, Judge, Continue, AfterScope;
    var p := s.procs[pid];
    var b := p.todo[0];
    var i, x := Increment(s, pid, p.read, b, at), s.(counters := ExpirySet(s.counters, b.key, at));
    var skipped := p.(todo := AfterScope(p.todo, b.scope), clean := false);
    ContinueKeepsBumps(s, pid, skipped);
    if p.phase.Incr? {
      ContinueKeepsBumps(i, pid, skipped);
      JudgeKeepsBumps(i, pid, p, |s.log|);
    } else {
      ContinueKeepsBumps(x, pid, skipped);
      JudgeKeepsBumps(x, pid, p, p.phase.entry);
    }
  }

  lemma StepKeepsRooted(s: State, past: seq<Event>, e: Event)
    requires Rooted(s, past) && Enabled(s, e)
    ensures Rooted(Apply(s, e), past + [e])
  {
    hide Bumps, StartOf, Continue;
    forall pid ensures StartOf(past + [e], pid) ==
      (if e.Start? && e.pid == pid then Some((e.req, e.read)) else StartOf(past, pid))
    {
      StartStep(past, e, pid);
    }
    match e
    case Start(pid, req, read) =>
      ContinueKeepsBumps(s, pid, Launched(req, read));
    case Command(pid, at, reply) =>
      CommandKeepsBumps(s, pid, at, reply);
      hide Apply;
  }

  lemma {:induction false} RunKeepsRooted(s: State, past: seq<Event>, events: seq<Event>)
    requires Rooted(s, past) && Possible(s, events)
    ensures Rooted(Run(s, events), past + events)
    decreases |events|
  {
    hide Rooted, Apply, Enabled, Timely;
    if events == [] {
      assert past + events == past;
    } else {
      StepKeepsRooted(s, past, events[0]);
      RunKeepsRooted(Apply(s, events[0]), past + [events[0]], events[1..]);
      assert past + [events[0]] + events[1..] == past + events;
    }
  }

  lemma RunIsRooted(events: seq<Event>)
    requires Possible(INITIAL, events)
    ensures Rooted(Run(INITIAL, events), events)
  {
    RunKeepsRooted(INITIAL, [], events);
    assert [] + events == events;
  }

  // ---------------------------------------------------------------- limits and estimates, by request

  /** The limit a request's scope puts on a counter, if it does. */
  function LimitFor(r: Request, scope: ScopeKind, k: Key): Option<int> {
    var o := Configured(r, scope);
    if o.None? || o.value.0 != k.ident then None
    else
      var l := if k.dim.Requests? then o.value.1.rpm else o.value.1.tpm;
      if l.Some? && l.value != 0 then l else None
  }

  predicate MustPass(r: Request, read: real, k: Key) {
    read >= 0.0 && WindowOf(read) == k.window && exists scope :: LimitFor(r, scope, k).Some?
  }

  predicate LimitsAtMost(events: seq<Event>, k: Key, most: int) {
    forall i, scope ::
      (&& 0 <= i < |events| && events[i].Start? && events[i].read >= 0.0
       && LimitFor(events[i].req, scope, k).Some?) ==> LimitFor(events[i].req, scope, k).value <= most
  }

  /** What the requests let through a counter without an error had estimated: tokens for a token
      counter, one each for a request counter. */
  ghost function LetThrough(events: seq<Event>, k: Key): map<nat, int>
    requires Possible(INITIAL, events)
  {
    var s := Run(INITIAL, events);
    map pid | pid in s.done && s.done[pid].allowed && s.done[pid].clean && Subject(events, pid, k) ::
      if k.dim.Requests? then 1 else StartOf(events, pid).value.0.estTokens
  }

  predicate Subject(events: seq<Event>, pid: nat, k: Key) {
    var o := StartOf(events, pid);
    o.Some? && MustPass(o.value.0, o.value.1, k)
  }

  /** A request that is subject to a counter bumps it, by at least its estimate. */
  lemma SubjectBumps(r: Request, read: real, k: Key)
    requires MustPass(r, read, k)
    ensures exists b :: b in Bumps(r, WindowOf(read)) && b.key == k
  {
    hide Bumps, Configured;
    var scope :| LimitFor(r, scope, k).Some?;
    var n := if k.dim.Requests? then 1 else if r.estTokens > 1 then r.estTokens else 1;
    var b := Bump(scope, k, LimitFor(r, scope, k).value, n);
    BumpsAreTheLimits(r, WindowOf(read), b);
  }

  lemma BumpedByEstimate(r: Request, w: nat, b: Bump)
    requires b in Bumps(r, w)
    ensures b.n >= 1 && (b.key.dim.Tokens? ==> b.n >= r.estTokens)
    ensures LimitFor(r, b.scope, b.key) == Some(b.limit)
  {
    hide Bumps;
    BumpsAreTheLimits(r, w, b);
  }

  lemma LimitsCarryOver(events: seq<Event>, k: Key, most: int)
    requires LimitsAtMost(events, k, most)
    ensures LimitedTo(events, k, most)
  {
    hide Bumps, LimitFor;
    forall i, b | (&& 0 <= i < |events| && events[i].Start? && events[i].read >= 0.0
                   && b in Bumps(events[i].req, WindowOf(events[i].read)) && b.key == k)
      ensures b.limit <= most
    {
      BumpedByEstimate(events[i].req, WindowOf(events[i].read), b);
    }
  }

  lemma {:induction false} SumAtMost(a: map<nat, int>, b: map<nat, int>)
    requires forall p :: p in b ==> b[p] >= 0
    requires forall p :: p in a ==> p in b && a[p] <= b[p]
    ensures Sum(a) <= Sum(b)
    decreases |b|
  {
    if b == map[] {
      assert a == map[];
    } else {
      var p :| p in b && Sum(b) == b[p] + Sum(b - {p});
      if p in a {
        SumWithout(a, p);
        SumAtMost(a - {p}, b - {p});
      } else {
        SumAtMost(a, b - {p});
      }
    }
  }

  lemma OneAsksItsEstimate(events: seq<Event>, k: Key, s: State, pid: nat)
    requires Rooted(s, events) && pid in s.done && s.done[pid].allowed && s.done[pid].clean && Subject(events, pid, k)
    ensures pid in AllowedWith(s, k)
    ensures var n := BumpFor(s.done[pid].bumps, k).n;
            n >= 1 && (k.dim.Tokens? ==> n >= StartOf(events, pid).value.0.estTokens)
  {
    hide Bumps, StartOf, MustPass, BumpFor;
    var o := StartOf(events, pid).value;
    assert RootedAt(events, pid, s.done[pid].bumps);
    SubjectBumps(o.0, o.1, k);
    BumpedByEstimate(o.0, WindowOf(o.1), BumpFor(s.done[pid].bumps, k));
  }

  /** Token safety: under every interleaving in which each command for a minute reaches the server in
      its 90 seconds, the token estimates of the requests let through a token counter without an error
      total at most its limit, and the requests let through a request counter number at most its limit. */
  lemma {:induction false} EstimatesWithinLimit(events: seq<Event>, k: Key, most: int)
    requires Possible(INITIAL, events) && LimitsAtMost(events, k, most) && most >= 0
    ensures Sum(LetThrough(events, k)) <= most
  {
    hide Possible, Run, LimitsAtMost, LimitedTo, Sum, AllowedWith, Rooted, Subject, BumpFor, Inv;
    LimitsCarryOver(events, k, most);
    WindowSafety(events, k, most);
    RunIsRooted(events);
    var s, let := Run(INITIAL, events), LetThrough(events, k);
    forall pid | pid in let ensures pid in Asks(s, k) && let[pid] <= Asks(s, k)[pid] {
      OneAsksItsEstimate(events, k, s, pid);
    }
    NothingMade(k, most);
    RunKeepsInv(INITIAL, events);
    AllAskNaturally(s, k);
    SumAtMost(let, Asks(s, k));
  }

  /** A running total is at least its last increment. */
  lemma TotalCoversLast(log: seq<Entry>, i: nat)
    requires i < |log| && forall j :: 0 <= j < |log| ==> log[j].bump.n >= 1
    ensures Bumped(log[..i + 1], log[i].bump.key) >= log[i].bump.n
  {
    assert log[..i + 1] == log[..i] + [log[i]];
    BumpedStep(log[..i], log[i], log[i].bump.key);
    TouchedIsPositive(log[..i], log[i].bump.key);
  }

  /** A request that estimates more tokens than a limit configured for it is never let through without
      an error. */
  lemma {:induction false} OverLimitIsRefused(events: seq<Event>, pid: nat, scope: ScopeKind, limit: int)
    requires Possible(INITIAL, events)
    requires var o := StartOf(events, pid);
             && o.Some? && Configured(o.value.0, scope).Some?
             && Configured(o.value.0, scope).value.1.tpm == Some(limit) && limit != 0
             && o.value.0.estTokens > limit
    ensures var s := Run(INITIAL, events);
            pid in s.done && s.done[pid].clean ==> !s.done[pid].allowed
  {
    hide Possible, Run, Bumps, StartOf, CountersExact, ProcOk, HasFailed;
    NothingMade(Key("", 0, Tokens), 0);
    RunKeepsInv(INITIAL, events);
    RunIsRooted(events);
    var s := Run(INITIAL, events);
    if pid in s.done && s.done[pid].clean && s.done[pid].allowed {
      var (r, read) := StartOf(events, pid).value;
      assert RootedAt(events, pid, s.done[pid].bumps);
      var n := if r.estTokens > 1 then r.estTokens else 1;
      var b := Bump(scope, Key(Configured(r, scope).value.0, WindowOf(read), Tokens), limit, n);
      hide Configured;
      BumpsAreTheLimits(r, WindowOf(read), b);
      PassedFits(s, pid, b);
    }
  }

  lemma PassedFits(s: State, pid: nat, b: Bump)
    requires LogExact(s.log) && PassedExact(s) && HasPassed(s, pid, b)
    ensures b.n <= b.limit
  {
    hide Bumped;
    var i :| i in s.passed && i < |s.log| && s.passed[i] && s.log[i].pid == pid && s.log[i].bump == b;
    TotalCoversLast(s.log, i);
  }
}
