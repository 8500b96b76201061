/** What an execution guarantees: how many calls, when it succeeds and from where, that its events
    form a chain, and what a provider that only fails has to bear. */
module FallbackRuns {
  import opened Common
  import opened Breaker
  import opened Fallback

  // ---------------------------------------------------------------- termination and the calls made

  function CallCount(acts: seq<Act>): nat {
    if acts == [] then 0
    else CallCount(acts[..|acts| - 1]) + (if acts[|acts| - 1].Call? then 1 else 0)
  }

  lemma {:induction false} CallCountConcat(a: seq<Act>, b: seq<Act>)
    ensures CallCount(a + b) == CallCount(a) + CallCount(b)
  {
    if b == [] {
      assert a + b == a;
    } else {
      assert (a + b)[..|a + b| - 1] == a + b[..|b| - 1];
      CallCountConcat(a, b[..|b| - 1]);
    }
  }

  lemma {:induction false} AllCallsCount(acts: seq<Act>)
    requires forall a :: a in acts ==> a.Call?
    ensures CallCount(acts) == |acts|
  {
    if acts != [] {
      AllCallsCount(acts[..|acts| - 1]);
    }
  }

  function Allowance(maxRetries: int): nat {
    if maxRetries < 0 then 0 else maxRetries + 1
  }

  lemma TargetCallCount(ts: seq<Target>, i: nat, m: Breakers, p: Policy, env: Env)
    requires i < |ts|
    ensures CallCount(TargetActs(ts, i, m, p, env)) <= Allowance(p.maxRetries)
  {
    var n := Attempts(env, i, p.maxRetries);
    CallsAreThere(i, 1, n);
    AllCallsCount(Calls(i, 1, n));
    CallCountConcat([Enter(i)], Calls(i, 1, n));
    assert CallCount([Enter(i)]) == 0 && CallCount([Skip(i)]) == 0 by {
      assert [Enter(i)][..0] == [] && [Skip(i)][..0] == [];
    }
    if p.maxRetries >= 0 {
      LastAttemptInRange(env, i, 1, p.maxRetries);
    }
  }

  /** An execution makes at most `max_retries + 1` engine calls per target. */
  lemma {:induction false} CallsBounded(ts: seq<Target>, i: nat, m: Breakers, p: Policy, env: Env)
    requires i <= |ts|
    ensures CallCount(ActsFrom(ts, i, m, p, env)) <= (|ts| - i) * Allowance(p.maxRetries)
    decreases |ts| - i
  {
    hide TargetActs, BreakersAfter, CallCount, Serves;
    if i < |ts| {
      var here := TargetActs(ts, i, m, p, env);
      TargetCallCount(ts, i, m, p, env);
      var m' := BreakersAfter(m, p, ts, env, here);
      CallsBounded(ts, i + 1, m', p, env);
      CallCountConcat(here, ActsFrom(ts, i + 1, m', p, env));
      OneMore(|ts| - i - 1, Allowance(p.maxRetries));
    } else {
      NoCalls();
    }
  }

  lemma NoCalls()
    ensures CallCount([]) == 0
  {
  }

  lemma OneMore(n: nat, allowance: nat)
    ensures (n + 1) * allowance == n * allowance + allowance && n * allowance >= 0
  {
  }

  // ---------------------------------------------------------------- when an execution succeeds

  /** The target answers well at some allowed attempt, and every earlier attempt was worth retrying. */
  ghost predicate SucceedsWithin(env: Env, i: nat, maxRetries: int) {
    exists k: nat :: 1 <= k <= maxRetries + 1 && SucceedsAt(env, i, k)
  }

  predicate SucceedsAt(env: Env, i: nat, k: nat) {
    env.Reply(i, k).Ok() && forall j: nat :: 1 <= j < k ==> Retried(env, i, j)
  }

  predicate Retried(env: Env, i: nat, j: nat) {
    !env.Reply(i, j).Ok() && env.Reply(i, j).Retryable()
  }

  lemma {:induction false} LastAttemptIsLast(env: Env, i: nat, k: nat, maxRetries: int)
    requires k <= maxRetries + 1
    ensures var n := LastAttempt(env, i, k, maxRetries);
            && k <= n <= maxRetries + 1
            && (forall j :: k <= j < n ==> Retried(env, i, j))
            && (Retried(env, i, n) ==> n == maxRetries + 1)
    decreases maxRetries + 1 - k
  {
    if Retried(env, i, k) && k <= maxRetries {
      LastAttemptIsLast(env, i, k + 1, maxRetries);
    }
  }

  /** Retrying stops at the first success. */
  lemma {:induction false} RetryingReaches(env: Env, i: nat, j: nat, k: nat, maxRetries: int)
    requires j <= k <= maxRetries + 1 && env.Reply(i, k).Ok()
    requires forall l: nat :: j <= l < k ==> Retried(env, i, l)
    ensures LastAttempt(env, i, j, maxRetries) == k
    decreases k - j
  {
    if j < k {
      assert Retried(env, i, j);
      RetryingReaches(env, i, j + 1, k, maxRetries);
    }
  }

  lemma ServesIff(env: Env, i: nat, maxRetries: int)
    ensures Serves(env, i, maxRetries) <==> SucceedsWithin(env, i, maxRetries)
  {
    if maxRetries >= 0 {
      LastAttemptIsLast(env, i, 1, maxRetries);
      if Serves(env, i, maxRetries) {
        assert SucceedsAt(env, i, Attempts(env, i, maxRetries));
      }
      if SucceedsWithin(env, i, maxRetries) {
        var k: nat :| 1 <= k <= maxRetries + 1 && SucceedsAt(env, i, k);
        RetryingReaches(env, i, 1, k, maxRetries);
      }
    }
  }

  ghost predicate Distinct(ts: seq<Target>) {
    forall i, j :: 0 <= i < j < |ts| ==> ts[i].provider != ts[j].provider
  }

  lemma KeysDiffer(p: Policy, t: Target, u: Target)
    ensures p.KeyOf(t) == p.KeyOf(u) <==> t.provider == u.provider
  {
    var pre := p.ws + ":";
    assert p.KeyOf(t)[|pre|..] == t.provider && p.KeyOf(u)[|pre|..] == u.provider;
  }

  /** Acts at other providers leave a provider's breaker alone. */
  lemma {:induction false} OtherBreakersUntouched(m: Breakers, p: Policy, ts: seq<Target>, env: Env, acts: seq<Act>,
                                                  key: string)
    requires InRange(acts, ts) && forall a :: a in acts ==> p.KeyOf(ts[a.i]) != key
    ensures Lookup(BreakersAfter(m, p, ts, env, acts), key) == Lookup(m, key)
  {
    if acts != [] {
      OtherBreakersUntouched(m, p, ts, env, acts[..|acts| - 1], key);
    }
  }

  lemma TargetActsAreOfTheTarget(ts: seq<Target>, i: nat, m: Breakers, p: Policy, env: Env)
    requires i < |ts|
    ensures forall a :: a in TargetActs(ts, i, m, p, env) ==> a.i == i
  {
    CallsAreThere(i, 1, Attempts(env, i, p.maxRetries));
  }

  /** Closed at its own question, in the breakers the execution started from, and answering well. */
  ghost predicate CanServe(ts: seq<Target>, m0: Breakers, p: Policy, env: Env, i: nat)
    requires i < |ts|
  {
    !OpenFor(m0, p, ts[i], env.askedAt(i)) && SucceedsWithin(env, i, p.maxRetries)
  }

  ghost predicate SameAhead(ts: seq<Target>, i: nat, m0: Breakers, m: Breakers, p: Policy) {
    forall j :: i <= j < |ts| ==> Lookup(m, p.KeyOf(ts[j])) == Lookup(m0, p.KeyOf(ts[j]))
  }

  lemma StaysSameAhead(ts: seq<Target>, i: nat, m0: Breakers, m: Breakers, p: Policy, env: Env)
    requires i < |ts| && Distinct(ts) && SameAhead(ts, i, m0, m, p)
    ensures SameAhead(ts, i + 1, m0, BreakersAfter(m, p, ts, env, TargetActs(ts, i, m, p, env)), p)
  {
    hide TargetActs;
    TargetActsAreOfTheTarget(ts, i, m, p, env);
    forall j | i + 1 <= j < |ts|
      ensures Lookup(BreakersAfter(m, p, ts, env, TargetActs(ts, i, m, p, env)), p.KeyOf(ts[j]))
          == Lookup(m0, p.KeyOf(ts[j]))
    {
      KeysDiffer(p, ts[i], ts[j]);
      OtherBreakersUntouched(m, p, ts, env, TargetActs(ts, i, m, p, env), p.KeyOf(ts[j]));
    }
  }

  lemma {:induction false} ServedFrom(ts: seq<Target>, i: nat, m0: Breakers, m: Breakers, p: Policy, env: Env)
    requires i <= |ts| && Distinct(ts) && SameAhead(ts, i, m0, m, p)
    ensures var acts := ActsFrom(ts, i, m, p, env);
            && (Succeeded(env, acts) <==> exists j :: i <= j < |ts| && CanServe(ts, m0, p, env, j))
            && (Succeeded(env, acts) ==>
                  var s := acts[|acts| - 1].i;
                  && i <= s < |ts| && CanServe(ts, m0, p, env, s)
                  && acts[|acts| - 1].k == Attempts(env, s, p.maxRetries)
                  && forall j :: i <= j < s ==> !CanServe(ts, m0, p, env, j))
    decreases |ts| - i
  {
    hide TargetActs, BreakersAfter, SucceedsWithin, Serves, Attempts;
    if i < |ts| {
      var here := TargetActs(ts, i, m, p, env);
      TargetEnds(ts, i, m, p, env);
      ServesIff(env, i, p.maxRetries);
      assert Succeeded(env, here) <==> CanServe(ts, m0, p, env, i);
      if !Succeeded(env, here) {
        StaysSameAhead(ts, i, m0, m, p, env);
        var m' := BreakersAfter(m, p, ts, env, here);
        ServedFrom(ts, i + 1, m0, m', p, env);
        var rest := ActsFrom(ts, i + 1, m', p, env);
        assert rest == [] ==> here + rest == here;
        assert rest != [] ==> (here + rest)[|here + rest| - 1] == rest[|rest| - 1];
      }
    }
  }

  /** Fallback completeness: with distinct providers an execution succeeds exactly when some target
      whose breaker is closed answers well within its attempts, and then the first such serves. */
  lemma Completeness(ts: seq<Target>, m0: Breakers, p: Policy, env: Env)
    requires Distinct(ts)
    ensures var acts := ActsFrom(ts, 0, m0, p, env);
            && (Succeeded(env, acts) <==> exists j :: 0 <= j < |ts| && CanServe(ts, m0, p, env, j))
            && (Succeeded(env, acts) ==>
                  var s := acts[|acts| - 1].i;
                  && s < |ts| && CanServe(ts, m0, p, env, s)
                  && ResultOf(ts, env, acts).target == ts[s]
                  && ResultOf(ts, env, acts).result == env.Reply(s, Attempts(env, s, p.maxRetries))
                  && forall j :: 0 <= j < s ==> !CanServe(ts, m0, p, env, j))
  {
    hide CanServe, ActsFrom, Attempts;
    ServedFrom(ts, 0, m0, m0, p, env);
  }

  // ---------------------------------------------------------------- the weighted pick

  /** The pick matters when there is more than one target and some weight is not 1. */
  predicate Moves<T>(ts: seq<T>, weights: seq<real>, pick: nat) {
    |ts| > 1 && pick != 0 && exists w :: w in weights && w != 1.0
  }

  /** The weighted primary: the picked target moves to the front when weights are in play. */
  function Reordered<T>(ts: seq<T>, weights: seq<real>, pick: nat): seq<T>
    requires pick < |ts|
  {
    if Moves(ts, weights, pick) then [ts[pick]] + (ts[..pick] + ts[pick + 1..]) else ts
  }

  /** The target list is updated in place: popped at the pick, inserted at the front. */
  method Reorder<T>(targets: seq<T>, weights: seq<real>, pick: nat) returns (ordered: seq<T>)
    requires pick < |targets|
    ensures ordered == Reordered(targets, weights, pick)
  {
    ordered := targets;
    if Moves(targets, weights, pick) {
      var popped := ordered[pick];
      ordered := ordered[..pick] + ordered[pick + 1..];
      ordered := [popped] + ordered;
    }
  }

  /** Where the target at position `j` of the reordered list was before, and the other way round. */
  function Origin(moved: bool, pick: nat, j: nat): nat {
    if !moved then j else if j == 0 then pick else if j <= pick then j - 1 else j
  }

  function Destination(moved: bool, pick: nat, i: nat): nat {
    if !moved then i else if i == pick then 0 else if i < pick then i + 1 else i
  }

  /** The pick only moves one target: positions are permuted, and the others keep their order. */
  lemma PickIsPermutation<T>(ts: seq<T>, weights: seq<real>, pick: nat)
    requires pick < |ts|
    ensures var moved, ts' := Moves(ts, weights, pick), Reordered(ts, weights, pick);
            && |ts'| == |ts|
            && (forall j: nat :: j < |ts| ==> Origin(moved, pick, j) < |ts| && ts'[j] == ts[Origin(moved, pick, j)])
            && (forall i: nat :: i < |ts| ==>
                  Destination(moved, pick, i) < |ts| && Origin(moved, pick, Destination(moved, pick, i)) == i)
            && (forall j: nat, k: nat :: 0 < j < k < |ts| ==> Origin(moved, pick, j) < Origin(moved, pick, k))
            && multiset(ts') == multiset(ts)
  {
    assert ts == ts[..pick] + ([ts[pick]] + ts[pick + 1..]);
  }

  /** Target `j` under `env'` answers each attempt as target `i` does under `env`. */
  ghost predicate SameAnswers(env: Env, i: nat, env': Env, j: nat) {
    forall k: nat :: env'.outcome(j, k) == env.outcome(i, k)
  }

  /** Every target of the picked order answers as it does in the given one, and no breaker changes
      between open and closed merely because it is asked at another moment. */
  ghost predicate SameConditions(ts: seq<Target>, moved: bool, pick: nat, m0: Breakers, p: Policy, env: Env,
                                 env': Env) {
    forall j: nat :: j < |ts| ==>
      && SameAnswers(env, Origin(moved, pick, j), env', j)
      && Origin(moved, pick, j) < |ts|
      && (OpenFor(m0, p, ts[Origin(moved, pick, j)], env'.askedAt(j)) <==>
          OpenFor(m0, p, ts[Origin(moved, pick, j)], env.askedAt(Origin(moved, pick, j))))
  }

  lemma PickServesAlike(ts: seq<Target>, weights: seq<real>, pick: nat, m0: Breakers, p: Policy, env: Env, env': Env,
                        j: nat)
    requires pick < |ts| && j < |ts| && SameConditions(ts, Moves(ts, weights, pick), pick, m0, p, env, env')
    ensures var ts', i := Reordered(ts, weights, pick), Origin(Moves(ts, weights, pick), pick, j);
            && |ts'| == |ts| && i < |ts|
            && (CanServe(ts', m0, p, env', j) <==> CanServe(ts, m0, p, env, i))
  {
    PickIsPermutation(ts, weights, pick);
    hide Reordered, Origin, OpenFor, SameAnswers, Moves, SucceedsWithin;
    SameAnswersServeAlike(env, env', Origin(Moves(ts, weights, pick), pick, j), j, p.maxRetries);
  }

  /** Success does not depend on which target the weighted pick moved to the front: the run
      succeeds or fails alike under the same conditions. */
  lemma {:induction false} SuccessIgnoresThePick(ts: seq<Target>, weights: seq<real>, pick: nat, m0: Breakers,
                                                 p: Policy,
                                                 env: Env, env': Env)
    requires Distinct(ts) && pick < |ts| && SameConditions(ts, Moves(ts, weights, pick), pick, m0, p, env, env')
    ensures Succeeded(env', ActsFrom(Reordered(ts, weights, pick), 0, m0, p, env'))
       <==> Succeeded(env, ActsFrom(ts, 0, m0, p, env))
  {
    hide CanServe, ActsFrom, Succeeded, Distinct, Reordered, Origin, Destination, SameConditions, Moves;
    var ts', moved := Reordered(ts, weights, pick), Moves(ts, weights, pick);
    PickIsPermutation(ts, weights, pick);
    PickKeepsDistinct(ts, weights, pick);
    ServedFrom(ts, 0, m0, m0, p, env);
    ServedFrom(ts', 0, m0, m0, p, env');
    if Succeeded(env, ActsFrom(ts, 0, m0, p, env)) {
      var i: nat :| i < |ts| && CanServe(ts, m0, p, env, i);
      PickServesAlike(ts, weights, pick, m0, p, env, env', Destination(moved, pick, i));
    }
    if Succeeded(env', ActsFrom(ts', 0, m0, p, env')) {
      var j: nat :| j < |ts| && CanServe(ts', m0, p, env', j);
      PickServesAlike(ts, weights, pick, m0, p, env, env', j);
    }
  }

  lemma SameAnswersServeAlike(env: Env, env': Env, i: nat, j: nat, maxRetries: int)
    requires SameAnswers(env, i, env', j)
    ensures SucceedsWithin(env', j, maxRetries) <==> SucceedsWithin(env, i, maxRetries)
  {
    assert forall k: nat :: env'.Reply(j, k) == env.Reply(i, k);
    forall k: nat ensures SucceedsAt(env', j, k) <==> SucceedsAt(env, i, k) {
      assert forall l: nat :: Retried(env', j, l) <==> Retried(env, i, l);
    }
  }

  lemma PickKeepsDistinct(ts: seq<Target>, weights: seq<real>, pick: nat)
    requires Distinct(ts) && pick < |ts|
    ensures Distinct(Reordered(ts, weights, pick))
  {
  }

  // ---------------------------------------------------------------- the fallback chain

  /** The providers entered, in order. */
  function Entered(ts: seq<Target>, acts: seq<Act>): seq<string>
    requires InRange(acts, ts)
  {
    if acts == [] then []
    else Entered(ts, acts[..|acts| - 1]) + (if acts[|acts| - 1].Enter? then [ts[acts[|acts| - 1].i].provider] else [])
  }

  function PrimaryFailures(events: seq<FallbackEvent>): seq<FallbackEvent> {
    if events == [] then []
    else PrimaryFailures(events[..|events| - 1]) +
         (if events[|events| - 1].reason.PrimaryFailed? then [events[|events| - 1]] else [])
  }

  lemma PrimaryFailuresStep(events: seq<FallbackEvent>, ev: FallbackEvent)
    ensures PrimaryFailures(events + [ev]) == PrimaryFailures(events) + (if ev.reason.PrimaryFailed? then [ev] else [])
  {
    assert (events + [ev])[..|events|] == events;
  }

  /** Each provider of a list linked to the next. */
  function Links(entered: seq<string>): seq<FallbackEvent> {
    if |entered| <= 1 then []
    else Links(entered[..|entered| - 1]) +
         [FallbackEvent(entered[|entered| - 2], entered[|entered| - 1], PrimaryFailed)]
  }

  lemma {:induction false} LinksLeaveNoGap(entered: seq<string>)
    ensures |Links(entered)| == if entered == [] then 0 else |entered| - 1
    ensures forall j :: 0 <= j < |Links(entered)| ==>
              Links(entered)[j] == FallbackEvent(entered[j], entered[j + 1], PrimaryFailed)
  {
    if |entered| > 1 {
      LinksLeaveNoGap(entered[..|entered| - 1]);
    }
  }

  ghost predicate AllNamed(ts: seq<Target>) {
    forall i :: 0 <= i < |ts| ==> ts[i].provider != ""
  }

  ghost predicate Linked(failures: seq<FallbackEvent>, entered: seq<string>, previous: Option<string>) {
    && failures == Links(entered)
    && previous == (if entered == [] then None else Some(entered[|entered| - 1]))
    && (Truthy(previous) <==> entered != [])
  }

  lemma LinkedStep(failures: seq<FallbackEvent>, entered: seq<string>, previous: Option<string>, ts: seq<Target>,
                   a: Act)
    requires Linked(failures, entered, previous) && a.i < |ts| && ts[a.i].provider != ""
    ensures Linked(failures + (if a.Enter? then EventOf(ts, previous, a) else []),
                   entered + (if a.Enter? then [ts[a.i].provider] else []),
                   if a.Enter? then Some(ts[a.i].provider) else previous)
  {
    if a.Enter? {
      LinksStep(entered, ts[a.i].provider);
    } else {
      assert entered + [] == entered;
    }
  }

  lemma {:induction false} PrimaryFailuresAreLinks(ts: seq<Target>, acts: seq<Act>)
    requires InRange(acts, ts) && AllNamed(ts)
    ensures Linked(PrimaryFailures(Events(ts, acts)), Entered(ts, acts), Previous(ts, acts))
  {
    if acts != [] {
      hide Linked;
      var before, a := acts[..|acts| - 1], acts[|acts| - 1];
      PrimaryFailuresAreLinks(ts, before);
      assert acts == before + [a];
      ChainStep(ts, before, a);
      LinkedStep(PrimaryFailures(Events(ts, before)), Entered(ts, before), Previous(ts, before), ts, a);
    }
  }

  lemma LinksStep(entered: seq<string>, next: string)
    ensures Links(entered + [next]) == Links(entered) +
      (if entered == [] then [] else [FallbackEvent(entered[|entered| - 1], next, PrimaryFailed)])
  {
    assert (entered + [next])[..|entered|] == entered;
  }

  /** Fallback chain: when every provider has a name, the "primary failed" events link each entered
      provider to the next one entered, without a gap. */
  lemma PrimaryFailuresChain(ts: seq<Target>, acts: seq<Act>)
    requires InRange(acts, ts) && AllNamed(ts)
    ensures var chain, entered := PrimaryFailures(Events(ts, acts)), Entered(ts, acts);
            && |chain| == (if entered == [] then 0 else |entered| - 1)
            && (forall j :: 0 <= j < |chain| ==> chain[j] == FallbackEvent(entered[j], entered[j + 1], PrimaryFailed))
  {
    PrimaryFailuresAreLinks(ts, acts);
    LinksLeaveNoGap(Entered(ts, acts));
  }

  lemma ChainStep(ts: seq<Target>, before: seq<Act>, a: Act)
    requires InRange(before, ts) && a.i < |ts|
    ensures InRange(before + [a], ts)
    ensures Previous(ts, before + [a]) == if a.Enter? then Some(ts[a.i].provider) else Previous(ts, before)
    ensures Entered(ts, before + [a]) == Entered(ts, before) + (if a.Enter? then [ts[a.i].provider] else [])
    ensures PrimaryFailures(Events(ts, before + [a])) == PrimaryFailures(Events(ts, before)) +
              (if a.Enter? then EventOf(ts, Previous(ts, before), a) else [])
  {
    assert (before + [a])[..|before|] == before;
    var more := EventOf(ts, Previous(ts, before), a);
    if more == [] {
      assert Events(ts, before) + more == Events(ts, before);
    } else {
      assert more == [more[0]];
      PrimaryFailuresStep(Events(ts, before), more[0]);
    }
  }

  // ---------------------------------------------------------------- the attempts

  /** A skip, or a call that failed. */
  predicate Failure(env: Env, a: Act) {
    a.Skip? || (a.Call? && !env.Reply(a.i, a.k).Ok())
  }

  function FailuresAt(env: Env, acts: seq<Act>): seq<nat> {
    if acts == [] then []
    else FailuresAt(env, acts[..|acts| - 1]) + (if Failure(env, acts[|acts| - 1]) then [|acts| - 1] else [])
  }

  /** A record tells its act's target and, of a failed call, its number, status, error type and message. */
  predicate Tells(ts: seq<Target>, env: Env, a: Act, r: AttemptRecord) {
    && a.i < |ts| && Failure(env, a)
    && r.provider == ts[a.i].provider && r.modelId == ts[a.i].modelId
    && (r.SkippedRecord? <==> a.Skip?)
    && (a.Call? ==>
         var reply := env.Reply(a.i, a.k);
         && r.FailedRecord? && r.attempt == a.k && r.status == reply.status
         && r.errorType == reply.ErrorType() && r.message == reply.Message())
  }

  ghost predicate Listed(ts: seq<Target>, env: Env, acts: seq<Act>, at: seq<nat>, records: seq<AttemptRecord>) {
    && |records| == |at|
    && (forall j :: 0 <= j < |at| ==> at[j] < |acts| && Tells(ts, env, acts[at[j]], records[j]))
    && (forall i, j :: 0 <= i < j < |at| ==> at[i] < at[j])
    && (forall i :: 0 <= i < |acts| && Failure(env, acts[i]) ==> i in at)
  }

  lemma ListedStep(ts: seq<Target>, env: Env, acts: seq<Act>, at: seq<nat>, records: seq<AttemptRecord>, a: Act)
    requires Listed(ts, env, acts, at, records) && a.i < |ts|
    ensures Listed(ts, env, acts + [a], at + (if Failure(env, a) then [|acts|] else []), records + RecordOf(ts, env, a))
  {
    hide Failure;
    var at', records' := at + (if Failure(env, a) then [|acts|] else []), records + RecordOf(ts, env, a);
    RecordTells(ts, env, a);
    assert forall j :: 0 <= j < |at| ==> at'[j] == at[j] && records'[j] == records[j];
    if Failure(env, a) {
      assert at'[|at|] == |acts|;
    }
    forall i | 0 <= i < |acts + [a]| && Failure(env, (acts + [a])[i]) ensures i in at' {
      if i < |acts| {
        assert i in at;
      }
    }
  }

  lemma RecordTells(ts: seq<Target>, env: Env, a: Act)
    requires a.i < |ts|
    ensures if Failure(env, a) then |RecordOf(ts, env, a)| == 1 && Tells(ts, env, a, RecordOf(ts, env, a)[0])
            else RecordOf(ts, env, a) == []
  {
  }

  lemma LastListed(ts: seq<Target>, env: Env, acts: seq<Act>)
    requires InRange(acts, ts) && acts != []
    ensures var n := |acts| - 1;
            && InRange(acts[..n], ts) && acts[n].i < |ts|
            && FailuresAt(env, acts) == FailuresAt(env, acts[..n]) + (if Failure(env, acts[n]) then [n] else [])
            && Records(ts, env, acts) == Records(ts, env, acts[..n]) + RecordOf(ts, env, acts[n])
  {
    hide Failure, RecordOf;
    assert acts[|acts| - 1] in acts;
  }

  lemma NothingListed(ts: seq<Target>, env: Env)
    ensures Listed(ts, env, [], FailuresAt(env, []), Records(ts, env, []))
  {
  }

  /** The attempts of a result are exactly the failures and skips, each told once, in order. */
  lemma {:induction false} AttemptsAreTheFailures(ts: seq<Target>, env: Env, acts: seq<Act>)
    requires InRange(acts, ts)
    ensures Listed(ts, env, acts, FailuresAt(env, acts), Records(ts, env, acts))
  {
    hide Listed, Failure, RecordOf, FailuresAt, Records, InRange;
    if acts == [] {
      NothingListed(ts, env);
    } else {
      var n := |acts| - 1;
      LastListed(ts, env, acts);
      AttemptsAreTheFailures(ts, env, acts[..n]);
      ListedStep(ts, env, acts[..n], FailuresAt(env, acts[..n]), Records(ts, env, acts[..n]), acts[n]);
      assert acts == acts[..n] + [acts[n]];
    }
  }

  // ---------------------------------------------------------------- the load on a dead provider

  function Spans(env: Env, i: nat, k: nat, n: nat): seq<Span>
    decreases n + 1 - k
  {
    if k > n then [] else [Span(env.startedAt(i, k), env.notedAt(i, k))] + Spans(env, i, k + 1, n)
  }

  function VisitOf(ts: seq<Target>, i: nat, m: Breakers, p: Policy, env: Env): Visit
    requires i < |ts|
  {
    Visit(env.askedAt(i),
          if OpenFor(m, p, ts[i], env.askedAt(i)) then [] else Spans(env, i, 1, Attempts(env, i, p.maxRetries)))
  }

  /** The visits an execution pays to one breaker, from target `i` on. */
  function VisitsFrom(ts: seq<Target>, i: nat, m: Breakers, p: Policy, env: Env, key: string): seq<Visit>
    requires i <= |ts|
    decreases |ts| - i
  {
    if i == |ts| then []
    else
      var here := TargetActs(ts, i, m, p, env);
      var mine := if p.KeyOf(ts[i]) == key then [VisitOf(ts, i, m, p, env)] else [];
      if here[0].Enter? && Serves(env, i, p.maxRetries) then mine
      else mine + VisitsFrom(ts, i + 1, BreakersAfter(m, p, ts, env, here), p, env, key)
  }

  /** No call to a target of this breaker ever succeeds. */
  ghost predicate OnlyFails(ts: seq<Target>, p: Policy, env: Env, key: string) {
    forall i: nat, k: nat :: i < |ts| && p.KeyOf(ts[i]) == key ==> !env.Reply(i, k).Ok()
  }

  lemma {:induction false} CallsTrackSpans(ts: seq<Target>, i: nat, k: nat, n: nat, m: Breakers, p: Policy, env: Env)
    requires i < |ts| && OnlyFails(ts, p, env, p.KeyOf(ts[i]))
    ensures InRange(Calls(i, k, n), ts)
    ensures Lookup(BreakersAfter(m, p, ts, env, Calls(i, k, n)), p.KeyOf(ts[i]))
         == AfterCalls(Lookup(m, p.KeyOf(ts[i])), Spans(env, i, k, n), p.threshold)
    decreases n + 1 - k
  {
    CallsAreThere(i, k, n);
    if k <= n {
      OneAct(m, p, ts, env, Call(i, k));
      hide BreakersAfter;
      var m' := Applied(m, p, ts, env, Call(i, k));
      CallsTrackSpans(ts, i, k + 1, n, m', p, env);
      BreakersConcat(m, p, ts, env, [Call(i, k)], Calls(i, k + 1, n));
      assert Spans(env, i, k, n)[1..] == Spans(env, i, k + 1, n);
      assert !env.Reply(i, k).Ok();
    } else {
      OneAct(m, p, ts, env, Call(i, k));
    }
  }

  lemma OneAct(m: Breakers, p: Policy, ts: seq<Target>, env: Env, a: Act)
    requires a.i < |ts|
    ensures BreakersAfter(m, p, ts, env, []) == m
    ensures BreakersAfter(m, p, ts, env, [a]) == Applied(m, p, ts, env, a)
    ensures !a.Call? ==>
      Lookup(Applied(m, p, ts, env, a), p.KeyOf(ts[a.i])) ==
      Asked(Lookup(m, p.KeyOf(ts[a.i])), p.cooldown, env.askedAt(a.i))
  {
    assert [a][..0] == [];
  }

  lemma {:induction false} SpanCount(env: Env, i: nat, k: nat, n: nat)
    ensures |Spans(env, i, k, n)| == if k > n then 0 else n + 1 - k
    decreases n + 1 - k
  {
    if k <= n {
      SpanCount(env, i, k + 1, n);
    }
  }

  /** A visit moves the breaker exactly as the load analysis says. */
  lemma TargetTracksVisit(ts: seq<Target>, i: nat, m: Breakers, p: Policy, env: Env)
    requires i < |ts| && OnlyFails(ts, p, env, p.KeyOf(ts[i])) && p.maxRetries >= 0
    ensures var v, key := VisitOf(ts, i, m, p, env), p.KeyOf(ts[i]);
            && Lookup(BreakersAfter(m, p, ts, env, TargetActs(ts, i, m, p, env)), key)
               == AfterCalls(Asked(Lookup(m, key), p.cooldown, v.asked), v.calls, p.threshold)
            && |v.calls| <= p.maxRetries + 1
            && (IsOpen(Lookup(m, key), p.cooldown, v.asked) ==> v.calls == [])
  {
    var n := Attempts(env, i, p.maxRetries);
    LastAttemptInRange(env, i, 1, p.maxRetries);
    SpanCount(env, i, 1, n);
    CallsAreThere(i, 1, n);
    var first := if OpenFor(m, p, ts[i], env.askedAt(i)) then Skip(i) else Enter(i);
    OneAct(m, p, ts, env, first);
    hide BreakersAfter, Applied, Calls, Spans, Attempts;
    var m' := BreakersAfter(m, p, ts, env, [first]);
    assert Lookup(m', p.KeyOf(ts[i])) == Asked(Lookup(m, p.KeyOf(ts[i])), p.cooldown, env.askedAt(i));
    if first.Enter? {
      BreakersConcat(m, p, ts, env, [first], Calls(i, 1, n));
      CallsTrackSpans(ts, i, 1, n, m', p, env);
    }
  }

  lemma VisitAppended(vs: seq<Visit>, v: Visit, threshold: int, cooldown: real, maxRetries: nat)
    requires Respects(vs, threshold, cooldown, maxRetries) && |v.calls| <= maxRetries + 1
    requires IsOpen(AfterVisits(vs, threshold, cooldown), cooldown, v.asked) ==> v.calls == []
    ensures Respects(vs + [v], threshold, cooldown, maxRetries)
    ensures AfterVisits(vs + [v], threshold, cooldown)
         == AfterCalls(Asked(AfterVisits(vs, threshold, cooldown), cooldown, v.asked), v.calls, threshold)
  {
    var all := vs + [v];
    assert all[..|vs|] == vs;
    assert forall i :: 0 <= i < |vs| ==> all[i] == vs[i] && all[..i] == vs[..i];
  }

  lemma {:induction false} VisitsTrack(ts: seq<Target>, i: nat, m: Breakers, p: Policy, env: Env, key: string,
                                       vs: seq<Visit>)
    requires i <= |ts| && OnlyFails(ts, p, env, key) && p.maxRetries >= 0
    requires Lookup(m, key) == AfterVisits(vs, p.threshold, p.cooldown)
    requires Respects(vs, p.threshold, p.cooldown, p.maxRetries)
    ensures var vs' := vs + VisitsFrom(ts, i, m, p, env, key);
            && Lookup(BreakersAfter(m, p, ts, env, ActsFrom(ts, i, m, p, env)), key)
                == AfterVisits(vs', p.threshold, p.cooldown)
            && Respects(vs', p.threshold, p.cooldown, p.maxRetries)
    decreases |ts| - i
  {
    hide TargetActs, AfterVisits, Respects, Serves, VisitOf, AfterCalls, Asked, IsOpen, BreakersAfter;
    if i == |ts| {
      assert vs + [] == vs;
      NothingYet(ts, m, p, env);
    } else {
      TargetEnds(ts, i, m, p, env);
      var here := TargetActs(ts, i, m, p, env);
      var m' := BreakersAfter(m, p, ts, env, here);
      var mine := if p.KeyOf(ts[i]) == key then [VisitOf(ts, i, m, p, env)] else [];
      if p.KeyOf(ts[i]) == key {
        TargetTracksVisit(ts, i, m, p, env);
        VisitAppended(vs, VisitOf(ts, i, m, p, env), p.threshold, p.cooldown, p.maxRetries);
      } else {
        TargetActsAreOfTheTarget(ts, i, m, p, env);
        OtherBreakersUntouched(m, p, ts, env, here, key);
        assert vs + mine == vs;
      }
      if !(here[0].Enter? && Serves(env, i, p.maxRetries)) {
        VisitsTrack(ts, i + 1, m', p, env, key, vs + mine);
        BreakersConcat(m, p, ts, env, here, ActsFrom(ts, i + 1, m', p, env));
        assert vs + (mine + VisitsFrom(ts, i + 1, m', p, env, key))
            == vs + mine + VisitsFrom(ts, i + 1, m', p, env, key);
      }
    }
  }

  datatype Execution = Execution(ts: seq<Target>, p: Policy, env: Env)

  /** The breakers after a number of executions, one at a time. */
  function BreakersOf(es: seq<Execution>): Breakers {
    if es == [] then map[]
    else
      var m, e := BreakersOf(es[..|es| - 1]), es[|es| - 1];
      BreakersAfter(m, e.p, e.ts, e.env, ActsFrom(e.ts, 0, m, e.p, e.env))
  }

  function VisitsOf(es: seq<Execution>, key: string): seq<Visit> {
    if es == [] then []
    else
      var e := es[|es| - 1];
      VisitsOf(es[..|es| - 1], key) + VisitsFrom(e.ts, 0, BreakersOf(es[..|es| - 1]), e.p, e.env, key)
  }

  ghost predicate Uniform(es: seq<Execution>, key: string, threshold: int, cooldown: real, maxRetries: nat) {
    forall i :: 0 <= i < |es| ==>
      && es[i].p.threshold == threshold && es[i].p.cooldown == cooldown && es[i].p.maxRetries == maxRetries
      && OnlyFails(es[i].ts, es[i].p, es[i].env, key)
  }

  lemma {:induction false} ExecutionsTrackVisits(es: seq<Execution>, key: string, threshold: int, cooldown: real,
                                                 maxRetries: nat)
    requires Uniform(es, key, threshold, cooldown, maxRetries)
    ensures Lookup(BreakersOf(es), key) == AfterVisits(VisitsOf(es, key), threshold, cooldown)
    ensures Respects(VisitsOf(es, key), threshold, cooldown, maxRetries)
  {
    if es != [] {
      hide Respects, AfterVisits, ActsFrom, BreakersAfter, VisitsFrom, OnlyFails;
      var rest, e := es[..|es| - 1], es[|es| - 1];
      ExecutionsTrackVisits(rest, key, threshold, cooldown, maxRetries);
      VisitsTrack(e.ts, 0, BreakersOf(rest), e.p, e.env, key, VisitsOf(rest, key));
    }
  }

  /** Breaker load bound for executions run one at a time: whatever else their target lists hold, a
      provider that only fails is called in any interval of length `T > 0` at most
      `(threshold + maxRetries) * ceil(T / cooldown)` times. */
  lemma DeadProviderLoad(es: seq<Execution>, key: string, threshold: nat, cooldown: real, maxRetries: nat, from: real,
                         to: real)
    requires Uniform(es, key, threshold, cooldown, maxRetries)
    requires threshold >= 1 && cooldown > 0.0 && from < to && InOrder(VisitsOf(es, key))
    ensures Load(VisitsOf(es, key), from, to) <= (threshold + maxRetries) * Ceil((to - from) / cooldown)
  {
    hide *;
    ExecutionsTrackVisits(es, key, threshold, cooldown, maxRetries);
    LoadBound(VisitsOf(es, key), threshold, cooldown, maxRetries, from, to);
  }
}
