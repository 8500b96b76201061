/** What an execution answers: the reply it hands back, the events it reports, and which failures it
    retries. */
module FallbackAnswers {
  import opened Common
  import opened Keys
  import opened Breaker
  import opened Fallback
  import opened FallbackRuns

  // ---------------------------------------------------------------- replies

  const SERVER_TROUBLE := {429, 500, 502, 503, 504, 529}

  /** A reply is a success only with status 200 and no error; another is retried exactly for a transient
      error type, a missing type, or a transient status. So a client error without such a type is final. */
  lemma RepliesAreClassified(r: EngineResult)
    ensures r.Ok() <==> r.status == 200 && r.error == NoError
    ensures r.Retryable() <==>
      || r.status in SERVER_TROUBLE
      || !(r.error.ErrorObject? && r.error.kind.Some?)
      || r.error.kind.value in {"upstream_error", "timeout", "rate_limit_exceeded"}
    ensures r.error == ErrorObject(Some("invalid_request_error"), None) && 400 <= r.status < 500 && r.status != 429 ==>
      !r.Retryable()
  {
  }

  /** The message of an attempt is the first 300 characters of the error's. */
  lemma MessageIsPrefix(r: EngineResult, message: string)
    requires r.error.ErrorObject? && r.error.message == Some(message)
    ensures r.Message() <= message && |r.Message()| == if |message| < 300 then |message| else 300
  {
  }

  // ---------------------------------------------------------------- the reply handed back

  predicate LastCallAt(acts: seq<Act>, j: nat) {
    j < |acts| && acts[j].Call? && forall l :: j < l < |acts| ==> !acts[l].Call?
  }

  predicate NoCall(acts: seq<Act>) {
    forall l :: 0 <= l < |acts| ==> !acts[l].Call?
  }

  lemma CallAtStep(acts: seq<Act>)
    requires acts != []
    ensures var n := |acts| - 1;
            && (NoCall(acts) <==> !acts[n].Call? && NoCall(acts[..n]))
            && forall j: nat :: LastCallAt(acts, j) <==>
                 (if acts[n].Call? then j == n else j < n && LastCallAt(acts[..n], j))
  {
    var n := |acts| - 1;
    assert forall l :: 0 <= l < n ==> acts[..n][l] == acts[l];
    if NoCall(acts[..n]) && !acts[n].Call? {
      assert forall l :: 0 <= l < |acts| ==> l == n || acts[l] == acts[..n][l];
    }
  }

  lemma {:induction false} LastReplyIsLastCall(env: Env, acts: seq<Act>)
    ensures NoCall(acts) ==> LastReply(env, acts).None?
    ensures forall j: nat :: LastCallAt(acts, j) ==> LastReply(env, acts) == Some(env.Reply(acts[j].i, acts[j].k))
  {
    hide LastReply, NoCall, LastCallAt;
    LastReplyStep(env, acts);
    if acts != [] {
      CallAtStep(acts);
      LastReplyIsLastCall(env, acts[..|acts| - 1]);
    } else {
      NoActs();
    }
  }

  lemma LastReplyStep(env: Env, acts: seq<Act>)
    ensures acts == [] ==> LastReply(env, acts).None?
    ensures acts != [] ==>
      var a := acts[|acts| - 1];
      LastReply(env, acts) == if a.Call? then Some(env.Reply(a.i, a.k)) else LastReply(env, acts[..|acts| - 1])
  {
  }

  lemma NoActs()
    ensures forall j: nat :: !LastCallAt([], j)
  {
  }

  /** The target entered gets at least one call, if any is allowed. */
  lemma TargetHasCall(ts: seq<Target>, i: nat, m: Breakers, p: Policy, env: Env)
    requires i < |ts| && p.maxRetries >= 0
    ensures var here, n := TargetActs(ts, i, m, p, env), Attempts(env, i, p.maxRetries);
            n >= 1 && AtOne(here, i, n)
  {
    LastAttemptIsLast(env, i, 1, p.maxRetries);
    CallsAreThere(i, 1, Attempts(env, i, p.maxRetries));
  }

  /** What the acts from target `i` on have to do with the last call in them. */
  ghost predicate WellEnded(acts: seq<Act>, i: nat, p: Policy, env: Env) {
    && (NoCall(acts) ==> forall l :: 0 <= l < |acts| ==> acts[l].Skip?)
    && (forall l :: 0 <= l < |acts| ==> acts[l].i >= i)
    && (forall j: nat :: LastCallAt(acts, j) ==> EndsAt(acts, j, p, env))
  }

  /** The call at `j` is the last allowed one on the last target entered. */
  predicate EndsAt(acts: seq<Act>, j: nat, p: Policy, env: Env) {
    && j < |acts| && acts[j].Call?
    && acts[j].k == Attempts(env, acts[j].i, p.maxRetries)
    && Enter(acts[j].i) in acts[..j]
    && (forall l :: 0 <= l < |acts| && acts[l].Enter? ==> acts[l].i <= acts[j].i)
  }

  /** The acts at one target: skipped, or entered and called. */
  predicate AtOne(here: seq<Act>, i: nat, n: nat) {
    || here == [Skip(i)]
    || (n >= 1 && |here| == n + 1 && here[0] == Enter(i) && here[n] == Call(i, n)
        && forall l :: 0 < l < |here| ==> here[l] == Call(i, l))
  }

  lemma LastCallOfBoth(here: seq<Act>, rest: seq<Act>, i: nat, n: nat, j: nat)
    requires AtOne(here, i, n) && LastCallAt(here + rest, j)
    ensures if j >= |here| then LastCallAt(rest, j - |here|)
            else NoCall(rest) && j == n && here[0] == Enter(i) && here[n] == Call(i, n)
  {
    var acts := here + rest;
    assert forall l :: 0 <= l < |rest| ==> rest[l] == acts[l + |here|];
    assert forall l :: 0 <= l < |here| ==> here[l] == acts[l];
    if j < |here| {
      assert here != [Skip(i)];
      assert acts[n].Call?;
    }
  }

  lemma NoCallInBoth(here: seq<Act>, rest: seq<Act>, i: nat, n: nat)
    requires AtOne(here, i, n) && NoCall(here + rest)
    ensures NoCall(rest) && here == [Skip(i)]
  {
    var acts := here + rest;
    assert forall l :: 0 <= l < |rest| ==> rest[l] == acts[l + |here|];
    assert forall l :: 0 <= l < |here| ==> here[l] == acts[l];
  }

  lemma WellEndedJoin(here: seq<Act>, rest: seq<Act>, i: nat, p: Policy, env: Env)
    requires WellEnded(rest, i + 1, p, env) && AtOne(here, i, Attempts(env, i, p.maxRetries))
    ensures WellEnded(here + rest, i, p, env)
  {
    hide LastCallAt, NoCall, Attempts;
    var acts, n := here + rest, Attempts(env, i, p.maxRetries);
    if NoCall(acts) {
      NoCallInBoth(here, rest, i, n);
    }
    forall j: nat | LastCallAt(acts, j) ensures EndsAt(acts, j, p, env) {
      LastCallOfBoth(here, rest, i, n, j);
      LastCallInRange(acts, j);
      if j >= |here| {
        EndsLater(here, rest, i, j - |here|, p, env);
      } else {
        EndsHere(here, rest, i, p, env);
      }
    }
  }

  lemma LastCallInRange(acts: seq<Act>, j: nat)
    requires LastCallAt(acts, j)
    ensures j < |acts|
  {
  }

  lemma EndsLater(here: seq<Act>, rest: seq<Act>, i: nat, j: nat, p: Policy, env: Env)
    requires AtOne(here, i, Attempts(env, i, p.maxRetries)) && j < |rest| && EndsAt(rest, j, p, env)
    requires forall l :: 0 <= l < |rest| ==> rest[l].i >= i + 1
    ensures EndsAt(here + rest, j + |here|, p, env)
  {
    hide Attempts;
    var acts := here + rest;
    assert acts[j + |here|] == rest[j];
    assert acts[..j + |here|] == here + rest[..j];
  }

  lemma EndsHere(here: seq<Act>, rest: seq<Act>, i: nat, p: Policy, env: Env)
    requires var n := Attempts(env, i, p.maxRetries);
             n >= 1 && |here| == n + 1 && here[0] == Enter(i) && here[n] == Call(i, n)
             && forall l :: 0 < l < |here| ==> here[l] == Call(i, l)
    requires forall l :: 0 <= l < |rest| ==> rest[l].Skip?
    ensures EndsAt(here + rest, Attempts(env, i, p.maxRetries), p, env)
  {
    var acts, n := here + rest, Attempts(env, i, p.maxRetries);
    hide Attempts;
    assert acts[n] == here[n] && acts[..n][0] == Enter(i);
  }

  lemma {:induction false} ActsAreWellEnded(ts: seq<Target>, i: nat, m: Breakers, p: Policy, env: Env)
    requires i <= |ts| && p.maxRetries >= 0
    ensures WellEnded(ActsFrom(ts, i, m, p, env), i, p, env)
    decreases |ts| - i
  {
    hide WellEnded, TargetActs;
    if i == |ts| {
      NothingEnded(i, p, env);
    } else {
      var here := TargetActs(ts, i, m, p, env);
      TargetHasCall(ts, i, m, p, env);
      NothingEnded(i + 1, p, env);
      if here[0].Enter? && Serves(env, i, p.maxRetries) {
        WellEndedJoin(here, [], i, p, env);
        assert here + [] == here;
      } else {
        var m' := BreakersAfter(m, p, ts, env, here);
        ActsAreWellEnded(ts, i + 1, m', p, env);
        WellEndedJoin(here, ActsFrom(ts, i + 1, m', p, env), i, p, env);
      }
    }
  }

  lemma NothingEnded(i: nat, p: Policy, env: Env)
    ensures WellEnded([], i, p, env)
  {
  }

  /** An execution that fails hands back the reply to its last call - the last allowed attempt on the last
      target it entered - and its own 502 only when it made no call, which is when every breaker was open or
      no attempt was allowed. It names the last target of the list. */
  lemma {:induction false} FailedAnswer(ts: seq<Target>, m0: Breakers, p: Policy, env: Env)
    requires ts != [] && !Succeeded(env, ActsFrom(ts, 0, m0, p, env))
    ensures var acts := ActsFrom(ts, 0, m0, p, env);
            var r := ResultOf(ts, env, acts);
            && r.FallbackResult? && r.target == ts[|ts| - 1] && r.attempt == 1
            && (NoCall(acts) <==> p.maxRetries < 0 || forall l :: 0 <= l < |acts| ==> acts[l].Skip?)
            && (NoCall(acts) ==>
                  r.result == EngineResult(502, ErrorObject(Some("upstream_error"), Some("all targets failed")), ""))
            && (forall j: nat :: LastCallAt(acts, j) ==>
                  r.result == env.Reply(acts[j].i, acts[j].k) && EndsAt(acts, j, p, env))
            && (NoCall(acts) || exists j: nat :: LastCallAt(acts, j))
  {
    hide ActsFrom, Events, Records, LastReply, EndsAt, Attempts;
    var acts := ActsFrom(ts, 0, m0, p, env);
    if p.maxRetries >= 0 {
      ActsAreWellEnded(ts, 0, m0, p, env);
    } else {
      NoAttemptsNoCall(ts, 0, m0, p, env);
    }
    LastReplyIsLastCall(env, acts);
    SomeCallIsLast(acts);
  }

  lemma {:induction false} NoAttemptsNoCall(ts: seq<Target>, i: nat, m: Breakers, p: Policy, env: Env)
    requires i <= |ts| && p.maxRetries < 0
    ensures NoCall(ActsFrom(ts, i, m, p, env))
    decreases |ts| - i
  {
    hide BreakersAfter;
    if i < |ts| {
      NoAttemptsNoCall(ts, i + 1, BreakersAfter(m, p, ts, env, TargetActs(ts, i, m, p, env)), p, env);
      assert Calls(i, 1, 0) == [];
    }
  }

  lemma {:induction false} SomeCallIsLast(acts: seq<Act>)
    ensures NoCall(acts) || exists j: nat :: LastCallAt(acts, j)
  {
    if acts != [] {
      var n := |acts| - 1;
      if acts[n].Call? {
        assert LastCallAt(acts, n);
      } else {
        SomeCallIsLast(acts[..n]);
        if j: nat :| LastCallAt(acts[..n], j) {
          assert LastCallAt(acts, j);
        }
      }
    }
  }

  lemma {:induction false} SuccessEndsInServingCall(ts: seq<Target>, i: nat, m: Breakers, p: Policy, env: Env)
    requires i <= |ts| && Succeeded(env, ActsFrom(ts, i, m, p, env))
    ensures var acts := ActsFrom(ts, i, m, p, env);
            var s := acts[|acts| - 1].i;
            p.maxRetries >= 0 && s < |ts| && acts[|acts| - 1] == Call(s, Attempts(env, s, p.maxRetries))
    decreases |ts| - i
  {
    hide TargetActs, BreakersAfter;
    if i < |ts| {
      var here := TargetActs(ts, i, m, p, env);
      TargetEnds(ts, i, m, p, env);
      if !(here[0].Enter? && Serves(env, i, p.maxRetries)) {
        var m' := BreakersAfter(m, p, ts, env, here);
        var rest := ActsFrom(ts, i + 1, m', p, env);
        if rest != [] {
          assert Succeeded(env, rest);
          SuccessEndsInServingCall(ts, i + 1, m', p, env);
        }
      }
    }
  }

  /** A success names the target that served, the attempt that succeeded - the first that did, all before
      it having failed in a way worth a retry - and hands back that attempt's reply. */
  lemma {:induction false} SuccessfulAnswer(ts: seq<Target>, m0: Breakers, p: Policy, env: Env)
    requires Succeeded(env, ActsFrom(ts, 0, m0, p, env))
    ensures var r := ResultOf(ts, env, ActsFrom(ts, 0, m0, p, env));
            && r.FallbackResult? && r.result.Ok()
            && exists s :: && 0 <= s < |ts| && r.target == ts[s] && r.result == env.Reply(s, r.attempt)
                           && 1 <= r.attempt <= p.maxRetries + 1
                           && forall k: nat :: 1 <= k < r.attempt ==> Retried(env, s, k)
  {
    hide ActsFrom, Events, Records;
    var acts := ActsFrom(ts, 0, m0, p, env);
    SuccessEndsInServingCall(ts, 0, m0, p, env);
    var s := acts[|acts| - 1].i;
    LastAttemptIsLast(env, s, 1, p.maxRetries);
    assert ResultOf(ts, env, acts).target == ts[s];
  }

  // ---------------------------------------------------------------- breakers of other workspaces

  /** Workspaces whose ids have no colon have no breaker in common. */
  lemma BreakersAreApart(ws: string, ws': string, provider: string, provider': string)
    requires NoColon(ws) && NoColon(ws')
    ensures Key(ws, provider) == Key(ws', provider') <==> ws == ws' && provider == provider'
  {
    if Key(ws, provider) == Key(ws', provider') {
      SplitAtColon(ws, provider, ws', provider');
    }
  }

  /** An execution for one workspace leaves every breaker of another as it was. */
  lemma {:induction false} OtherWorkspaceUntouched(m: Breakers, p: Policy, ts: seq<Target>, env: Env, acts: seq<Act>,
                                                   ws: string, provider: string)
    requires InRange(acts, ts) && NoColon(p.ws) && NoColon(ws) && ws != p.ws
    ensures Lookup(BreakersAfter(m, p, ts, env, acts), Key(ws, provider)) == Lookup(m, Key(ws, provider))
  {
    hide Key;
    forall a | a in acts ensures p.KeyOf(ts[a.i]) != Key(ws, provider) {
      BreakersAreApart(p.ws, ws, ts[a.i].provider, provider);
    }
    OtherBreakersUntouched(m, p, ts, env, acts, Key(ws, provider));
  }

  // ---------------------------------------------------------------- fallback events

  predicate LastEnterAt(acts: seq<Act>, l: nat, e: nat) {
    e < l <= |acts| && acts[e].Enter? && forall x :: e < x < l ==> !acts[x].Enter?
  }

  /** A skip or an entry after some target was entered. */
  predicate Reported(acts: seq<Act>, l: nat) {
    l < |acts| && !acts[l].Call? && exists e :: 0 <= e < l && acts[e].Enter?
  }

  /** An event leads from the provider entered last before the act to the act's own. */
  ghost predicate TellsOf(ts: seq<Target>, acts: seq<Act>, l: nat, ev: FallbackEvent)
    requires InRange(acts, ts)
  {
    && l < |acts| && !acts[l].Call? && acts[l] in acts
    && ev.to == ts[acts[l].i].provider
    && ev.reason == (if acts[l].Skip? then CircuitOpenSkip else PrimaryFailed)
    && exists e: nat :: LastEnterAt(acts, l, e) && acts[e] in acts && ev.from == ts[acts[e].i].provider
  }

  function ReportedAt(acts: seq<Act>): seq<nat> {
    if acts == [] then []
    else ReportedAt(acts[..|acts| - 1]) + (if Reported(acts, |acts| - 1) then [|acts| - 1] else [])
  }

  ghost predicate EventsListed(ts: seq<Target>, acts: seq<Act>, at: seq<nat>, events: seq<FallbackEvent>)
    requires InRange(acts, ts)
  {
    && |events| == |at|
    && (forall j :: 0 <= j < |at| ==> TellsOf(ts, acts, at[j], events[j]))
    && (forall i, j :: 0 <= i < j < |at| ==> at[i] < at[j])
    && (forall l: nat :: Reported(acts, l) ==> l in at)
  }

  lemma {:induction false} PreviousIsLastEntered(ts: seq<Target>, acts: seq<Act>)
    requires InRange(acts, ts)
    ensures Previous(ts, acts).None? ==> forall e :: 0 <= e < |acts| ==> !acts[e].Enter?
    ensures Previous(ts, acts).Some? ==>
      exists e: nat :: LastEnterAt(acts, |acts|, e) && acts[e] in acts
                       && Previous(ts, acts).value == ts[acts[e].i].provider
  {
    if acts != [] {
      var n := |acts| - 1;
      if acts[n].Enter? {
        assert LastEnterAt(acts, |acts|, n);
      } else {
        var before := acts[..n];
        PreviousIsLastEntered(ts, before);
        if Previous(ts, before).Some? {
          var e: nat :| LastEnterAt(before, n, e) && before[e] in before
                        && Previous(ts, before).value == ts[before[e].i].provider;
          assert LastEnterAt(acts, |acts|, e) && acts[e] == before[e];
        }
      }
    }
  }

  lemma EarlierStaysListed(ts: seq<Target>, before: seq<Act>, a: Act, at: seq<nat>, events: seq<FallbackEvent>)
    requires InRange(before, ts) && InRange(before + [a], ts) && EventsListed(ts, before, at, events)
    ensures forall j :: 0 <= j < |at| ==> at[j] < |before| && TellsOf(ts, before + [a], at[j], events[j])
    ensures forall l: nat :: Reported(before + [a], l) && l < |before| ==> l in at
  {
    var acts := before + [a];
    assert forall x :: 0 <= x < |before| ==> acts[x] == before[x];
    forall j | 0 <= j < |at| ensures at[j] < |before| && TellsOf(ts, acts, at[j], events[j]) {
      assert TellsOf(ts, before, at[j], events[j]);
      var e: nat :| LastEnterAt(before, at[j], e) && before[e] in before && events[j].from == ts[before[e].i].provider;
      assert LastEnterAt(acts, at[j], e) && acts[e] in acts;
    }
    forall l: nat | Reported(acts, l) && l < |before| ensures l in at {
      assert Reported(before, l);
    }
  }

  lemma NewIsListed(ts: seq<Target>, before: seq<Act>, a: Act)
    requires InRange(before, ts) && InRange(before + [a], ts) && a.i < |ts| && AllNamed(ts)
    ensures var more := EventOf(ts, Previous(ts, before), a);
            && (|more| == 1 <==> Reported(before + [a], |before|)) && |more| <= 1
            && (|more| == 1 ==> TellsOf(ts, before + [a], |before|, more[0]))
  {
    var acts := before + [a];
    assert forall x :: 0 <= x < |before| ==> acts[x] == before[x];
    PreviousIsLastEntered(ts, before);
    var previous := Previous(ts, before);
    if previous.Some? {
      var e: nat :| LastEnterAt(before, |before|, e) && before[e] in before
                    && previous.value == ts[before[e].i].provider;
      assert LastEnterAt(acts, |before|, e) && acts[e] in acts;
      assert previous.value != "";
    }
  }

  /** The fallback events are exactly the skips and entries that follow an entry, each told once and in
      order, from the provider entered last. */
  lemma {:induction false} EventsTellSkipsAndEntries(ts: seq<Target>, acts: seq<Act>)
    requires InRange(acts, ts) && AllNamed(ts)
    ensures EventsListed(ts, acts, ReportedAt(acts), Events(ts, acts))
  {
    if acts != [] {
      var n := |acts| - 1;
      var before, a := acts[..n], acts[n];
      assert acts == before + [a] && a in acts;
      EventsTellSkipsAndEntries(ts, before);
      LastReported(ts, acts);
      hide TellsOf, Reported, EventOf, Previous, Events, ReportedAt, EventsListed, InRange;
      ListedJoin(ts, before, a, ReportedAt(before), Events(ts, before));
    }
  }

  lemma LastReported(ts: seq<Target>, acts: seq<Act>)
    requires InRange(acts, ts) && acts != []
    ensures var n := |acts| - 1;
            && InRange(acts[..n], ts) && acts[n].i < |ts|
            && ReportedAt(acts) == ReportedAt(acts[..n]) + (if Reported(acts, n) then [n] else [])
            && Events(ts, acts) == Events(ts, acts[..n]) + EventOf(ts, Previous(ts, acts[..n]), acts[n])
  {
    hide Reported, EventOf, Previous;
    assert acts[|acts| - 1] in acts;
  }

  lemma ListedJoin(ts: seq<Target>, before: seq<Act>, a: Act, at: seq<nat>, events: seq<FallbackEvent>)
    requires InRange(before, ts) && InRange(before + [a], ts) && a.i < |ts| && AllNamed(ts)
    requires EventsListed(ts, before, at, events)
    ensures EventsListed(ts, before + [a], at + (if Reported(before + [a], |before|) then [|before|] else []),
                         events + EventOf(ts, Previous(ts, before), a))
  {
    hide TellsOf, Reported, EventOf, Previous, InRange;
    EarlierStaysListed(ts, before, a, at, events);
    NewIsListed(ts, before, a);
    ReportedInRange(before + [a]);
    var more := EventOf(ts, Previous(ts, before), a);
    assert |more| == 0 || more == [more[0]];
  }

  lemma ReportedInRange(acts: seq<Act>)
    ensures forall l: nat :: Reported(acts, l) ==> l < |acts|
  {
  }

  // ---------------------------------------------------------------- the weighted pick

  /** With more than one target and some weight other than one the picked target comes first; otherwise
      the list stays as it is. */
  lemma PickComesFirst<T>(ts: seq<T>, weights: seq<real>, pick: nat)
    requires pick < |ts|
    ensures |ts| > 1 && (exists w :: w in weights && w != 1.0) ==>
      Reordered(ts, weights, pick) != [] && Reordered(ts, weights, pick)[0] == ts[pick]
    ensures |ts| == 1 || (forall w :: w in weights ==> w == 1.0) ==> Reordered(ts, weights, pick) == ts
  {
  }
}
