/** Retries, breaker skips and provider fallback over an ordered target list.

    What the engine answers and what the clock reads are inputs, indexed by the target's position
    and the attempt's number. The run of an execution is the list of its acts; every output of
    `Execute` is a function of that list. */
module Fallback {
  import opened Common
  import opened Breaker

  datatype Target = Target(provider: string, modelId: string)

  // ---------------------------------------------------------------- engine outcomes

  /** The `error` field of a result body. */
  datatype ErrorField =
    | NoError
    | ErrorObject(kind: Option<string>, message: Option<string>)
    | OtherError

  datatype EngineResult = EngineResult(status: int, error: ErrorField, content: string) {
    predicate Ok() {
      status == 200 && error.NoError?
    }

    function ErrorType(): string {
      match error
      case ErrorObject(Some(kind), _) => kind
      case _ => "upstream_error"
    }

    function Message(): string {
      var m := match error
               case ErrorObject(_, Some(message)) => message
               case _ => "";
      if |m| <= 300 then m else m[..300]
    }

    predicate Retryable() {
      ErrorType() in {"upstream_error", "timeout", "rate_limit_exceeded"} ||
      status in {429, 500, 502, 503, 504, 529}
    }
  }

  datatype Outcome = Answered(result: EngineResult) | TimedOut(message: string) | Raised(message: string)

  function Normal(o: Outcome): EngineResult {
    match o
    case Answered(r) => r
    case TimedOut(m) => EngineResult(504, ErrorObject(Some("timeout"), Some(m)), "")
    case Raised(m) => EngineResult(502, ErrorObject(Some("upstream_error"), Some(m)), "")
  }

  /** Timeouts and exceptions are always worth a retry. */
  lemma TransportFailuresAreRetryable(m: string)
    ensures Normal(TimedOut(m)).Retryable() && Normal(Raised(m)).Retryable()
    ensures !Normal(TimedOut(m)).Ok() && !Normal(Raised(m)).Ok()
  {
  }

  datatype Env = Env(outcome: (nat, nat) -> Outcome, askedAt: nat -> real,
                     startedAt: (nat, nat) -> real, notedAt: (nat, nat) -> real) {
    function Reply(i: nat, k: nat): EngineResult {
      Normal(outcome(i, k))
    }
  }

  datatype Policy = Policy(ws: string, threshold: int, cooldown: real, maxRetries: int) {
    function KeyOf(t: Target): string {
      Key(ws, t.provider)
    }
  }

  // ---------------------------------------------------------------- the run of one execution

  /** A breaker found open, a breaker found closed, one engine call. */
  datatype Act = Skip(i: nat) | Enter(i: nat) | Call(i: nat, k: nat)

  /** The last attempt made on a target entered at attempt `k`. */
  function LastAttempt(env: Env, i: nat, k: nat, maxRetries: int): nat
    decreases maxRetries + 1 - k
  {
    var r := env.Reply(i, k);
    if !r.Ok() && r.Retryable() && k <= maxRetries then LastAttempt(env, i, k + 1, maxRetries) else k
  }

  /** The calls `k..n` to one target. */
  function Calls(i: nat, k: nat, n: nat): seq<Act>
    decreases n + 1 - k
  {
    if k > n then [] else [Call(i, k)] + Calls(i, k + 1, n)
  }

  /** How many calls an entered target gets. */
  function Attempts(env: Env, i: nat, maxRetries: int): nat {
    if maxRetries < 0 then 0 else LastAttempt(env, i, 1, maxRetries)
  }

  predicate Serves(env: Env, i: nat, maxRetries: int) {
    maxRetries >= 0 && env.Reply(i, Attempts(env, i, maxRetries)).Ok()
  }

  predicate OpenFor(m: Breakers, p: Policy, t: Target, at: real) {
    IsOpen(Lookup(m, p.KeyOf(t)), p.cooldown, at)
  }

  function Applied(m: Breakers, p: Policy, ts: seq<Target>, env: Env, act: Act): Breakers
    requires act.i < |ts|
  {
    var key := p.KeyOf(ts[act.i]);
    match act
    case Skip(i) => AskedAll(m, key, p.cooldown, env.askedAt(i))
    case Enter(i) => AskedAll(m, key, p.cooldown, env.askedAt(i))
    case Call(i, k) => m[key := Noted(Lookup(m, key), p.threshold, env.Reply(i, k).Ok(), env.notedAt(i, k))]
  }

  predicate InRange(acts: seq<Act>, ts: seq<Target>) {
    forall a :: a in acts ==> a.i < |ts|
  }

  /** The breakers as the fold of the questions asked and outcomes noted. */
  function BreakersAfter(m: Breakers, p: Policy, ts: seq<Target>, env: Env, acts: seq<Act>): Breakers
    requires InRange(acts, ts)
  {
    if acts == [] then m
    else Applied(BreakersAfter(m, p, ts, env, acts[..|acts| - 1]), p, ts, env, acts[|acts| - 1])
  }

  lemma {:induction false} CallsAreThere(i: nat, k: nat, n: nat)
    ensures forall a :: a in Calls(i, k, n) <==> a.Call? && a.i == i && k <= a.k <= n
    ensures |Calls(i, k, n)| == if k > n then 0 else n + 1 - k
    ensures forall j :: 0 <= j < |Calls(i, k, n)| ==> Calls(i, k, n)[j] == Call(i, k + j)
    decreases n + 1 - k
  {
    if k <= n {
      CallsAreThere(i, k + 1, n);
    }
  }

  /** What happens at one target. */
  function TargetActs(ts: seq<Target>, i: nat, m: Breakers, p: Policy, env: Env): (acts: seq<Act>)
    requires i < |ts|
    ensures InRange(acts, ts)
  {
    CallsAreThere(i, 1, Attempts(env, i, p.maxRetries));
    if OpenFor(m, p, ts[i], env.askedAt(i)) then [Skip(i)]
    else [Enter(i)] + Calls(i, 1, Attempts(env, i, p.maxRetries))
  }

  /** The acts of an execution from target `i` on, with breakers `m`. */
  function ActsFrom(ts: seq<Target>, i: nat, m: Breakers, p: Policy, env: Env): (acts: seq<Act>)
    requires i <= |ts|
    ensures InRange(acts, ts)
    decreases |ts| - i
  {
    if i == |ts| then []
    else
      var here := TargetActs(ts, i, m, p, env);
      if here[0].Enter? && Serves(env, i, p.maxRetries) then here
      else here + ActsFrom(ts, i + 1, BreakersAfter(m, p, ts, env, here), p, env)
  }

  // ---------------------------------------------------------------- outputs as functions of the acts

  datatype AttemptRecord =
    | SkippedRecord(provider: string, modelId: string)
    | FailedRecord(provider: string, modelId: string, attempt: nat, status: int, errorType: string, message: string)

  datatype Reason = CircuitOpenSkip | PrimaryFailed
  datatype FallbackEvent = FallbackEvent(from: string, to: string, reason: Reason)

  datatype FallbackResult =
    | FallbackResult(result: EngineResult, target: Target, attempt: nat,
                     fallbacks: seq<FallbackEvent>, attempts: seq<AttemptRecord>)
    | IndexError

  function RecordOf(ts: seq<Target>, env: Env, a: Act): seq<AttemptRecord>
    requires a.i < |ts|
  {
    match a
    case Skip(i) => [SkippedRecord(ts[i].provider, ts[i].modelId)]
    case Enter(_) => []
    case Call(i, k) =>
      var r := env.Reply(i, k);
      if r.Ok() then []
      else [FailedRecord(ts[i].provider, ts[i].modelId, k, r.status, r.ErrorType(), r.Message())]
  }

  /** One record for every skip and every failed call, in order. */
  function Records(ts: seq<Target>, env: Env, acts: seq<Act>): seq<AttemptRecord>
    requires InRange(acts, ts)
  {
    if acts == [] then []
    else Records(ts, env, acts[..|acts| - 1]) + RecordOf(ts, env, acts[|acts| - 1])
  }

  /** The provider of the target entered last. */
  function Previous(ts: seq<Target>, acts: seq<Act>): Option<string>
    requires InRange(acts, ts)
  {
    if acts == [] then None
    else if acts[|acts| - 1].Enter? then Some(ts[acts[|acts| - 1].i].provider)
    else Previous(ts, acts[..|acts| - 1])
  }

  function EventOf(ts: seq<Target>, previous: Option<string>, a: Act): seq<FallbackEvent>
    requires a.i < |ts|
  {
    if a.Call? || !Truthy(previous) then []
    else [FallbackEvent(previous.value, ts[a.i].provider, if a.Skip? then CircuitOpenSkip else PrimaryFailed)]
  }

  /** One event for every skip or entry that follows an entry. */
  function Events(ts: seq<Target>, acts: seq<Act>): seq<FallbackEvent>
    requires InRange(acts, ts)
  {
    if acts == [] then []
    else
      var before := acts[..|acts| - 1];
      Events(ts, before) + EventOf(ts, Previous(ts, before), acts[|acts| - 1])
  }

  /** The most recent reply, if any call was made. */
  function LastReply(env: Env, acts: seq<Act>): Option<EngineResult> {
    if acts == [] then None
    else match acts[|acts| - 1]
         case Call(i, k) => Some(env.Reply(i, k))
         case _ => LastReply(env, acts[..|acts| - 1])
  }

  const ALL_FAILED := EngineResult(502, ErrorObject(Some("upstream_error"), Some("all targets failed")), "")

  predicate Succeeded(env: Env, acts: seq<Act>) {
    acts != [] && acts[|acts| - 1].Call? && env.Reply(acts[|acts| - 1].i, acts[|acts| - 1].k).Ok()
  }

  function ResultOf(ts: seq<Target>, env: Env, acts: seq<Act>): FallbackResult
    requires InRange(acts, ts)
  {
    if Succeeded(env, acts) then
      var a := acts[|acts| - 1];
      FallbackResult(env.Reply(a.i, a.k), ts[a.i], a.k, Events(ts, acts), Records(ts, env, acts))
    else if ts == [] then IndexError
    else
      var last := LastReply(env, acts);
      FallbackResult(if last.Some? then last.value else ALL_FAILED, ts[|ts| - 1], 1,
                     Events(ts, acts), Records(ts, env, acts))
  }

  // ---------------------------------------------------------------- the loop

  lemma ActsStep(ts: seq<Target>, env: Env, m: Breakers, p: Policy, acts: seq<Act>, a: Act)
    requires InRange(acts, ts) && a.i < |ts|
    ensures InRange(acts + [a], ts)
    ensures BreakersAfter(m, p, ts, env, acts + [a]) == Applied(BreakersAfter(m, p, ts, env, acts), p, ts, env, a)
    ensures Previous(ts, acts + [a]) == if a.Enter? then Some(ts[a.i].provider) else Previous(ts, acts)
    ensures LastReply(env, acts + [a]) == if a.Call? then Some(env.Reply(a.i, a.k)) else LastReply(env, acts)
  {
    assert (acts + [a])[..|acts|] == acts;
  }

  lemma OutputsStep(ts: seq<Target>, env: Env, acts: seq<Act>, a: Act)
    requires InRange(acts, ts) && a.i < |ts|
    ensures InRange(acts + [a], ts)
    ensures Events(ts, acts + [a]) == Events(ts, acts) + EventOf(ts, Previous(ts, acts), a)
    ensures Records(ts, env, acts + [a]) == Records(ts, env, acts) + RecordOf(ts, env, a)
  {
    assert (acts + [a])[..|acts|] == acts;
  }

  lemma {:induction false} BreakersConcat(m: Breakers, p: Policy, ts: seq<Target>, env: Env, a: seq<Act>, b: seq<Act>)
    requires InRange(a, ts) && InRange(b, ts)
    ensures InRange(a + b, ts)
    ensures BreakersAfter(m, p, ts, env, a + b) == BreakersAfter(BreakersAfter(m, p, ts, env, a), p, ts, env, b)
  {
    if b == [] {
      assert a + b == a;
    } else {
      var rest := b[..|b| - 1];
      assert (a + b)[..|a + b| - 1] == a + rest;
      BreakersConcat(m, p, ts, env, a, rest);
    }
  }

  lemma {:induction false} CallsSnoc(i: nat, k: nat, n: nat)
    requires k <= n + 1
    ensures Calls(i, k, n + 1) == Calls(i, k, n) + [Call(i, n + 1)]
    decreases n + 1 - k
  {
    if k <= n {
      CallsSnoc(i, k + 1, n);
      assert [Call(i, k)] + (Calls(i, k + 1, n) + [Call(i, n + 1)])
          == ([Call(i, k)] + Calls(i, k + 1, n)) + [Call(i, n + 1)];
    } else {
      assert Calls(i, n + 1, n) == [];
      assert Calls(i, n + 2, n + 1) == [];
    }
  }

  lemma {:induction false} LastAttemptInRange(env: Env, i: nat, k: nat, maxRetries: int)
    requires k <= maxRetries + 1
    ensures k <= LastAttempt(env, i, k, maxRetries) <= maxRetries + 1
    decreases maxRetries + 1 - k
  {
    var r := env.Reply(i, k);
    if !r.Ok() && r.Retryable() && k <= maxRetries {
      LastAttemptInRange(env, i, k + 1, maxRetries);
    }
  }

  /** Everything the loop has built so far, as functions of the acts so far. */
  ghost predicate Built(br: CircuitBreaker, m0: Breakers, p: Policy, ts: seq<Target>, env: Env, acts: seq<Act>,
                        attempts: seq<AttemptRecord>, last: Option<EngineResult>)
    reads br
  {
    && InRange(acts, ts)
    && br.threshold == p.threshold && br.cooldown == p.cooldown
    && br.breakers == BreakersAfter(m0, p, ts, env, acts)
    && attempts == Records(ts, env, acts)
    && last == LastReply(env, acts)
  }

  /** One engine call and the note of its outcome. */
  method CallOnce(br: CircuitBreaker, ghost m0: Breakers, p: Policy, ts: seq<Target>, i: nat, k: nat, env: Env,
                  attempts: seq<AttemptRecord>, last: Option<EngineResult>, ghost acts: seq<Act>)
    returns (result: EngineResult, attempts': seq<AttemptRecord>, last': Option<EngineResult>)
    requires i < |ts| && Built(br, m0, p, ts, env, acts, attempts, last)
    modifies br`breakers
    ensures result == env.Reply(i, k)
    ensures Built(br, m0, p, ts, env, acts + [Call(i, k)], attempts', last')
  {
    ActsStep(ts, env, m0, p, acts, Call(i, k));
    OutputsStep(ts, env, acts, Call(i, k));
    result := Normal(env.outcome(i, k));
    attempts', last' := attempts, Some(result);
    if !result.Ok() {
      attempts' := attempts + [FailedRecord(ts[i].provider, ts[i].modelId, k, result.status,
                                            result.ErrorType(), result.Message())];
    }
    br.Record(p.ws, ts[i].provider, result.Ok(), env.notedAt(i, k));
  }

  /** The retry loop on one target whose breaker was found closed. */
  method TryTarget(br: CircuitBreaker, ghost m0: Breakers, p: Policy, ts: seq<Target>, i: nat, env: Env,
                   attempts0: seq<AttemptRecord>, last0: Option<EngineResult>, ghost acts: seq<Act>)
    returns (won: Option<EngineResult>, attempt: nat, attempts: seq<AttemptRecord>, last: Option<EngineResult>)
    requires i < |ts| && Built(br, m0, p, ts, env, acts, attempts0, last0)
    modifies br`breakers
    ensures attempt == Attempts(env, i, p.maxRetries)
    ensures Built(br, m0, p, ts, env, acts + Calls(i, 1, attempt), attempts, last)
    ensures won.Some? <==> Serves(env, i, p.maxRetries)
    ensures won.Some? ==> won.value == env.Reply(i, attempt)
  {
    hide Records, BreakersAfter, LastReply, RecordOf;
    won, attempt, attempts, last := None, 0, attempts0, last0;
    assert acts + Calls(i, 1, 0) == acts;
    while attempt <= p.maxRetries
      invariant p.maxRetries >= 0 ==> attempt <= p.maxRetries
      invariant p.maxRetries < 0 ==> attempt == 0
      invariant Built(br, m0, p, ts, env, acts + Calls(i, 1, attempt), attempts, last)
      invariant p.maxRetries >= 0 ==>
        LastAttempt(env, i, 1, p.maxRetries) == LastAttempt(env, i, attempt + 1, p.maxRetries)
      decreases p.maxRetries - attempt
    {
      CallsSnoc(i, 1, attempt);
      assert acts + Calls(i, 1, attempt + 1) == acts + Calls(i, 1, attempt) + [Call(i, attempt + 1)];
      var result;
      result, attempts, last := CallOnce(br, m0, p, ts, i, attempt + 1, env, attempts, last,
                                         acts + Calls(i, 1, attempt));
      attempt := attempt + 1;
      if result.Ok() {
        won := Some(result);
        return;
      }
      if !(result.Retryable() && attempt <= p.maxRetries) {
        return;
      }
    }
  }

  /** Calls cause no fallback event, and are not entries. */
  lemma {:induction false} CallsAreQuiet(ts: seq<Target>, acts: seq<Act>, i: nat, n: nat)
    requires InRange(acts, ts) && i < |ts|
    ensures InRange(acts + Calls(i, 1, n), ts)
    ensures Events(ts, acts + Calls(i, 1, n)) == Events(ts, acts)
    ensures Previous(ts, acts + Calls(i, 1, n)) == Previous(ts, acts)
  {
    hide Events, Previous, InRange, Calls;
    if n == 0 {
      NoCallsYet(i);
      assert acts + [] == acts;
    } else {
      var before := acts + Calls(i, 1, n - 1);
      CallsAreQuiet(ts, acts, i, n - 1);
      CallsSnoc(i, 1, n - 1);
      assert acts + Calls(i, 1, n) == before + [Call(i, n)];
      CallStep(ts, before, Call(i, n));
    }
  }

  lemma NoCallsYet(i: nat)
    ensures Calls(i, 1, 0) == []
  {
  }

  lemma CallStep(ts: seq<Target>, acts: seq<Act>, a: Act)
    requires InRange(acts, ts) && a.i < |ts| && a.Call?
    ensures InRange(acts + [a], ts)
    ensures Events(ts, acts + [a]) == Events(ts, acts)
    ensures Previous(ts, acts + [a]) == Previous(ts, acts)
  {
    assert (acts + [a])[..|acts|] == acts;
  }

  lemma EntryStep(ts: seq<Target>, env: Env, m: Breakers, p: Policy, acts: seq<Act>, a: Act)
    requires InRange(acts, ts) && a.i < |ts| && !a.Call?
    ensures InRange(acts + [a], ts)
    ensures BreakersAfter(m, p, ts, env, acts + [a]) == Applied(BreakersAfter(m, p, ts, env, acts), p, ts, env, a)
    ensures Previous(ts, acts + [a]) == if a.Enter? then Some(ts[a.i].provider) else Previous(ts, acts)
    ensures LastReply(env, acts + [a]) == LastReply(env, acts)
    ensures Events(ts, acts + [a]) == Events(ts, acts) + EventOf(ts, Previous(ts, acts), a)
    ensures Records(ts, env, acts + [a]) == Records(ts, env, acts) + RecordOf(ts, env, a)
  {
    ActsStep(ts, env, m, p, acts, a);
    OutputsStep(ts, env, acts, a);
  }

  /** One turn of the outer loop: skip the target, or enter it and retry. */
  method VisitTarget(br: CircuitBreaker, ghost m0: Breakers, p: Policy, ts: seq<Target>, i: nat, env: Env,
                     fallbacks0: seq<FallbackEvent>, attempts0: seq<AttemptRecord>,
                     last0: Option<EngineResult>, previous0: Option<string>, ghost acts: seq<Act>)
    returns (won: Option<(EngineResult, nat)>, fallbacks: seq<FallbackEvent>, attempts: seq<AttemptRecord>,
             last: Option<EngineResult>, previous: Option<string>)
    requires i < |ts| && Built(br, m0, p, ts, env, acts, attempts0, last0)
    requires fallbacks0 == Events(ts, acts) && previous0 == Previous(ts, acts)
    modifies br`breakers
    ensures var all := acts + TargetActs(ts, i, old(br.breakers), p, env);
            && Built(br, m0, p, ts, env, all, attempts, last)
            && fallbacks == Events(ts, all) && previous == Previous(ts, all)
    ensures won.Some? <==> !OpenFor(old(br.breakers), p, ts[i], env.askedAt(i)) && Serves(env, i, p.maxRetries)
    ensures won.Some? ==> won.value == (env.Reply(i, Attempts(env, i, p.maxRetries)), Attempts(env, i, p.maxRetries))
  {
    hide Events, Records, Previous, BreakersAfter, LastReply, Calls, Attempts;
    won, fallbacks, attempts, last, previous := None, fallbacks0, attempts0, last0, previous0;
    var open := br.Ask(p.ws, ts[i].provider, env.askedAt(i));
    if open {
      EntryStep(ts, env, m0, p, acts, Skip(i));
      if Truthy(previous) {
        fallbacks := fallbacks + [FallbackEvent(previous.value, ts[i].provider, CircuitOpenSkip)];
      }
      attempts := attempts + [SkippedRecord(ts[i].provider, ts[i].modelId)];
      return;
    }
    EntryStep(ts, env, m0, p, acts, Enter(i));
    if Truthy(previous) {
      fallbacks := fallbacks + [FallbackEvent(previous.value, ts[i].provider, PrimaryFailed)];
    }
    var result, attempt;
    result, attempt, attempts, last := TryTarget(br, m0, p, ts, i, env, attempts, last, acts + [Enter(i)]);
    CallsAreQuiet(ts, acts + [Enter(i)], i, attempt);
    assert acts + [Enter(i)] + Calls(i, 1, attempt) == acts + ([Enter(i)] + Calls(i, 1, attempt));
    previous := Some(ts[i].provider);
    if result.Some? {
      won := Some((result.value, attempt));
    }
  }

  /** What a target that does not serve leaves behind: nothing, a skip, or a failed call last. */
  lemma TargetEnds(ts: seq<Target>, i: nat, m: Breakers, p: Policy, env: Env)
    requires i < |ts|
    ensures var here := TargetActs(ts, i, m, p, env);
            && here != []
            && (here[0].Enter? <==> !OpenFor(m, p, ts[i], env.askedAt(i)))
            && (Succeeded(env, here) <==> here[0].Enter? && Serves(env, i, p.maxRetries))
            && (Succeeded(env, here) ==> here[|here| - 1] == Call(i, Attempts(env, i, p.maxRetries)))
  {
    var n := Attempts(env, i, p.maxRetries);
    CallsAreThere(i, 1, n);
    if p.maxRetries >= 0 {
      LastAttemptInRange(env, i, 1, p.maxRetries);
    }
  }

  /** The acts from a target on are its own, and if it does not serve, those of the rest. */
  lemma TurnUnfolds(ts: seq<Target>, i: nat, m: Breakers, p: Policy, env: Env)
    requires i < |ts|
    ensures var here := TargetActs(ts, i, m, p, env);
            ActsFrom(ts, i, m, p, env) ==
            if Succeeded(env, here) then here
            else here + ActsFrom(ts, i + 1, BreakersAfter(m, p, ts, env, here), p, env)
  {
    hide TargetActs, Applied, Attempts, Serves, OpenFor, BreakersAfter;
    TargetEnds(ts, i, m, p, env);
  }

  /** Whether an execution has succeeded shows in the acts at the last target. */
  lemma SuccessShowsLast(env: Env, acts: seq<Act>, here: seq<Act>)
    requires here != []
    ensures (acts + here)[|acts + here| - 1] == here[|here| - 1]
    ensures Succeeded(env, acts + here) == Succeeded(env, here)
  {
  }

  /** One turn of the loop consumes one target's acts. */
  lemma TurnStep(ts: seq<Target>, i: nat, m0: Breakers, m: Breakers, p: Policy, env: Env, acts: seq<Act>,
                 whole: seq<Act>)
    requires i < |ts| && InRange(acts, ts) && m == BreakersAfter(m0, p, ts, env, acts)
    requires acts + ActsFrom(ts, i, m, p, env) == whole
    ensures var here := TargetActs(ts, i, m, p, env);
            var all := acts + here;
            && Succeeded(env, all) == Succeeded(env, here)
            && (Succeeded(env, here) ==> all == whole)
            && (!Succeeded(env, here) ==>
                all + ActsFrom(ts, i + 1, BreakersAfter(m0, p, ts, env, all), p, env) == whole)
  {
    hide TargetActs, ActsFrom, Applied, Attempts, Serves, OpenFor, BreakersAfter, Succeeded, InRange;
    var here := TargetActs(ts, i, m, p, env);
    TargetEnds(ts, i, m, p, env);
    TurnUnfolds(ts, i, m, p, env);
    SuccessShowsLast(env, acts, here);
    BreakersConcat(m0, p, ts, env, acts, here);
    var rest := ActsFrom(ts, i + 1, BreakersAfter(m, p, ts, env, here), p, env);
    assert acts + (here + rest) == acts + here + rest;
  }

  /** Tries the targets in order, falling over to the next on failure. */
  method Execute(br: CircuitBreaker, ts: seq<Target>, ws: string, maxRetries: int, env: Env)
    returns (r: FallbackResult)
    modifies br`breakers
    ensures var p := Policy(ws, br.threshold, br.cooldown, maxRetries);
            var acts := ActsFrom(ts, 0, old(br.breakers), p, env);
            r == ResultOf(ts, env, acts) && br.breakers == BreakersAfter(old(br.breakers), p, ts, env, acts)
  {
    hide TargetActs, ActsFrom, Applied, Attempts, Serves, OpenFor, BreakersAfter, Events, Records, Previous, LastReply;
    ghost var m0, acts: seq<Act> := br.breakers, [];
    var p := Policy(ws, br.threshold, br.cooldown, maxRetries);
    var fallbacks: seq<FallbackEvent>, attempts: seq<AttemptRecord> := [], [];
    var last: Option<EngineResult>, previous: Option<string> := None, None;
    NothingYet(ts, m0, p, env);
    for i := 0 to |ts|
      invariant Built(br, m0, p, ts, env, acts, attempts, last)
      invariant fallbacks == Events(ts, acts) && previous == Previous(ts, acts)
      invariant !Succeeded(env, acts)
      invariant acts + ActsFrom(ts, i, br.breakers, p, env) == ActsFrom(ts, 0, m0, p, env)
    {
      TurnStep(ts, i, m0, br.breakers, p, env, acts, ActsFrom(ts, 0, m0, p, env));
      TargetEnds(ts, i, br.breakers, p, env);
      ghost var here := TargetActs(ts, i, br.breakers, p, env);
      SuccessShowsLast(env, acts, here);
      var won;
      won, fallbacks, attempts, last, previous :=
        VisitTarget(br, m0, p, ts, i, env, fallbacks, attempts, last, previous, acts);
      acts := acts + here;
      if won.Some? {
        return FallbackResult(won.value.0, ts[i], won.value.1, fallbacks, attempts);
      }
    }
    if ts == [] {
      NothingLeft(ts, acts, br.breakers, p, env);
      return IndexError;
    }
    NothingLeft(ts, acts, br.breakers, p, env);
    r := FallbackResult(if last.Some? then last.value else ALL_FAILED, ts[|ts| - 1], 1, fallbacks, attempts);
  }

  lemma NothingYet(ts: seq<Target>, m: Breakers, p: Policy, env: Env)
    ensures BreakersAfter(m, p, ts, env, []) == m && Events(ts, []) == [] && Records(ts, env, []) == []
    ensures Previous(ts, []) == None && LastReply(env, []) == None
    ensures [] + ActsFrom(ts, 0, m, p, env) == ActsFrom(ts, 0, m, p, env)
  {
  }

  lemma NothingLeft(ts: seq<Target>, acts: seq<Act>, m: Breakers, p: Policy, env: Env)
    ensures acts + ActsFrom(ts, |ts|, m, p, env) == acts
  {
  }
}
