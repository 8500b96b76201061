/** What the buckets mean for requests: the token estimates admitted, and when a request must be
    admitted. */
module RateLimitRequests {
  import opened Common
  import opened Keys
  import opened RateLimit
  import opened RateLimitRuns

  // ---------------------------------------------------------------- limits and estimates, by request

  /** The limit a request's scope puts on a slot, if it does. */
  function LimitOn(r: Request, scope: ScopeKind, slot: Slot): (l: Option<Limit>)
    ensures l.Some? ==> l.value.perMinute.Some?
  {
    var o := Configured(r, scope);
    if o.None? || o.value.0 != slot.key then None
    else
      var l := if slot.dim.Rpm? then o.value.1.rpm else o.value.1.tpm;
      if l.perMinute.Some? && l.perMinute.value != 0 then Some(l) else None
  }

  /** What a request takes of a slot: itself, or the tokens it estimates. */
  function Estimate(r: Request, slot: Slot): real {
    if slot.dim.Rpm? then 1.0 else r.estTokens as real
  }

  predicate Draws(r: Request, slot: Slot, from: real, to: real) {
    exists scope :: LimitOn(r, scope, slot).Some? && from <= LimitOn(r, scope, slot).value.takenAt <= to
  }

  predicate LimitsOf(reqs: seq<Request>, slot: Slot, most: int) {
    forall i, scope :: 0 <= i < |reqs| && LimitOn(reqs[i], scope, slot).Some? ==>
      0 < LimitOn(reqs[i], scope, slot).value.perMinute.value <= most
  }

  /** What the requests admitted in an interval had estimated for a slot. */
  function AdmittedEstimates(reqs: seq<Request>, slot: Slot, from: real, to: real): real {
    if reqs == [] then 0.0
    else
      var n := |reqs| - 1;
      AdmittedEstimates(reqs[..n], slot, from, to) +
      (if VerdictAt(RunOf(reqs), n).Admitted? && Draws(reqs[n], slot, from, to) then Estimate(reqs[n], slot) else 0.0)
  }

  /** A request that draws on a slot makes a check there, for at least its estimate. */
  lemma DrawIsChecked(r: Request, scope: ScopeKind, slot: Slot)
    requires LimitOn(r, scope, slot).Some?
    ensures var l := LimitOn(r, scope, slot).value;
            exists c :: && c in Checks(r) && c.scope == scope && c.slot == slot && c.limit == l.perMinute.value
                        && c.takenAt == l.takenAt && c.createdAt == l.createdAt && c.n >= Estimate(r, slot)
  {
    hide Checks, Configured;
    var l := LimitOn(r, scope, slot).value;
    var n := if slot.dim.Tpm? && r.estTokens > 1 then r.estTokens as real else 1.0;
    var c := Check(scope, slot, l.perMinute.value, n, l.createdAt, l.takenAt);
    ChecksAreTheLimits(r, c);
  }

  lemma CheckIsDrawn(r: Request, c: Check)
    requires c in Checks(r)
    ensures var o := LimitOn(r, c.scope, c.slot);
            && o.Some? && o.value.perMinute == Some(c.limit) && o.value.takenAt == c.takenAt
            && o.value.createdAt == c.createdAt
            && c.n >= 1.0 && c.n >= Estimate(r, c.slot) && (c.n == 1.0 || c.n == Estimate(r, c.slot))
  {
    hide Checks;
    ChecksAreTheLimits(r, c);
  }

  lemma {:induction false} WeightIsNatural(cs: seq<Check>, slot: Slot, from: real, to: real)
    requires forall c :: c in cs ==> c.n >= 0.0
    ensures Weight(cs, slot, from, to) >= 0.0
  {
    if cs != [] {
      WeightIsNatural(cs[1..], slot, from, to);
    }
  }

  lemma {:induction false} WeightCovers(cs: seq<Check>, c: Check, slot: Slot, from: real, to: real)
    requires c in cs && Within(c, slot, from, to) && forall d :: d in cs ==> d.n >= 0.0
    ensures Weight(cs, slot, from, to) >= c.n
  {
    if cs[0] == c {
      WeightIsNatural(cs[1..], slot, from, to);
    } else {
      WeightCovers(cs[1..], c, slot, from, to);
    }
  }

  lemma OneWeighsItsEstimate(r: Request, slot: Slot, from: real, to: real)
    requires Draws(r, slot, from, to)
    ensures Weight(Checks(r), slot, from, to) >= Estimate(r, slot)
  {
    hide Checks, LimitOn, Estimate, Weight;
    ChecksAsk(r);
    var scope :| LimitOn(r, scope, slot).Some? && from <= LimitOn(r, scope, slot).value.takenAt <= to;
    DrawIsChecked(r, scope, slot);
    var c :| c in Checks(r) && c.slot == slot && c.takenAt == LimitOn(r, scope, slot).value.takenAt
             && c.n >= Estimate(r, slot);
    WeightCovers(Checks(r), c, slot, from, to);
  }

  lemma RunOfPrefix(reqs: seq<Request>)
    requires reqs != []
    ensures var n := |reqs| - 1; RunOf(reqs)[..n] == RunOf(reqs[..n]) && RunOf(reqs)[n] == Checks(reqs[n])
  {
    hide Checks;
  }

  lemma {:induction false} EstimatesAtMostWeight(reqs: seq<Request>, slot: Slot, from: real, to: real)
    ensures AdmittedEstimates(reqs, slot, from, to) <= AdmittedWeight(RunOf(reqs), slot, from, to)
  {
    if reqs != [] {
      var n := |reqs| - 1;
      EstimatesAtMostWeight(reqs[..n], slot, from, to);
      RunOfPrefix(reqs);
      hide RunOf, Checks, Draws, Weight, Estimate, VerdictAt;
      if Draws(reqs[n], slot, from, to) {
        OneWeighsItsEstimate(reqs[n], slot, from, to);
      }
      ChecksAsk(reqs[n]);
      WeightIsNatural(Checks(reqs[n]), slot, from, to);
    }
  }

  lemma LimitsCarryOver(reqs: seq<Request>, slot: Slot, most: int)
    requires LimitsOf(reqs, slot, most)
    ensures LimitsWithin(RunOf(reqs), slot, most)
  {
    hide Checks, LimitOn, Estimate;
    forall i, c | 0 <= i < |reqs| && c in RunOf(reqs)[i] && c.slot == slot ensures 0 < c.limit <= most {
      CheckIsDrawn(reqs[i], c);
    }
  }

  /** The interval bound on token estimates: in every run what the requests admitted in an interval had
      estimated for a slot is at most one capacity, what a minute's limit earns in that time, and one
      fresh capacity for each change of the limit. */
  lemma {:induction false} EstimateBound(reqs: seq<Request>, slot: Slot, from: real, to: real, most: int)
    requires from <= to && most > 0 && ClockOrdered(RunOf(reqs)) && LimitsOf(reqs, slot, most)
    ensures AdmittedEstimates(reqs, slot, from, to)
         <= Buckets(most, 1 + Changes(History(RunOf(reqs)), slot, from, to)) + (to - from) * (most as real / 60.0)
  {
    hide RunOf, ClockOrdered, LimitsOf, LimitsWithin, Buckets, Changes, History, AdmittedEstimates, AdmittedWeight;
    LimitsCarryOver(reqs, slot, most);
    EstimatesAtMostWeight(reqs, slot, from, to);
    IntervalBound(reqs, slot, from, to, most);
  }

  /** Every request that uses the slot has the limit `limit` there. */
  predicate OneLimit(reqs: seq<Request>, slot: Slot, limit: int) {
    forall i, scope :: 0 <= i < |reqs| && LimitOn(reqs[i], scope, slot).Some? ==>
      LimitOn(reqs[i], scope, slot).value.perMinute.value == limit
  }

  lemma OneLimitCarriesOver(reqs: seq<Request>, slot: Slot, limit: int)
    requires OneLimit(reqs, slot, limit)
    ensures forall i, c :: 0 <= i < |reqs| && c in RunOf(reqs)[i] && c.slot == slot ==> c.limit == limit
  {
    hide Checks, LimitOn, Estimate;
    forall i, c | 0 <= i < |reqs| && c in RunOf(reqs)[i] && c.slot == slot ensures c.limit == limit {
      CheckIsDrawn(reqs[i], c);
    }
  }

  /** Under one limit `L` the estimates admitted in an interval of length `T` total at most `L + L * T / 60`. */
  lemma {:induction false} EstimateBoundOneLimit(reqs: seq<Request>, slot: Slot, from: real, to: real, limit: int)
    requires from <= to && limit > 0 && ClockOrdered(RunOf(reqs)) && OneLimit(reqs, slot, limit)
    ensures AdmittedEstimates(reqs, slot, from, to) <= limit as real + limit as real * (to - from) / 60.0
  {
    hide ClockOrdered, OneLimit, AdmittedEstimates, AdmittedWeight, Checks;
    OneLimitCarriesOver(reqs, slot, limit);
    EstimatesAtMostWeight(reqs, slot, from, to);
    IntervalBoundConstantLimit(reqs, slot, from, to, limit);
  }

  // ---------------------------------------------------------------- what is never admitted

  lemma {:induction false} OneTooBigRefuses(st: Store, cs: seq<Check>, c: Check)
    requires c in cs && c.n > c.limit as real
    ensures Serve(st, cs).1.Refused?
    decreases |cs|
  {
    if cs[0] == c {
      var b := BucketFor(Lookup(st, c.slot), c.limit, c.createdAt);
      assert b.capacity == c.limit as real;
      BeyondCapacityNever(b, c.n, c.takenAt);
      hide Taken;
    } else {
      hide Drawn;
      OneTooBigRefuses(st[cs[0].slot := Drawn(Lookup(st, cs[0].slot), cs[0]).0], cs[1..], c);
    }
  }

  /** A request that estimates more for a slot than its limit there is refused, at any time and whatever
      happened before. */
  lemma {:induction false} OverLimitIsRefused(st: Store, r: Request, scope: ScopeKind, slot: Slot)
    requires LimitOn(r, scope, slot).Some?
    requires Estimate(r, slot) > LimitOn(r, scope, slot).value.perMinute.value as real
    ensures Serve(st, Checks(r)).1.Refused?
  {
    hide Checks, Serve, LimitOn, Estimate;
    DrawIsChecked(r, scope, slot);
    var c :| c in Checks(r) && c.slot == slot && c.limit == LimitOn(r, scope, slot).value.perMinute.value
             && c.n >= Estimate(r, slot);
    OneTooBigRefuses(st, Checks(r), c);
  }

  // ---------------------------------------------------------------- what must be admitted

  /** The slot is unused, or was last used under another limit, or has rested for a minute. */
  predicate Full(st: Store, slot: Slot, limit: int, at: real) {
    slot in st && st[slot].capacity == limit as real ==>
      && st[slot].refillPerSec == st[slot].capacity / 60.0
      && 0.0 <= st[slot].tokens
      && st[slot].last + 60.0 <= at
  }

  /** Nothing stands in the way of a request: its clock runs forwards, it asks no slot for more than a
      positive limit, and every slot it uses is full. */
  ghost predicate Clear(st: Store, r: Request) {
    forall scope, slot :: LimitOn(r, scope, slot).Some? ==>
      ClearAt(st, LimitOn(r, scope, slot).value, Estimate(r, slot), slot)
  }

  predicate ClearAt(st: Store, l: Limit, n: real, slot: Slot)
    requires l.perMinute.Some?
  {
    && l.createdAt <= l.takenAt
    && 0 < l.perMinute.value && n <= l.perMinute.value as real
    && Full(st, slot, l.perMinute.value, l.takenAt)
  }

  lemma FullPasses(st: Store, c: Check)
    requires c.createdAt <= c.takenAt && 0 < c.limit && c.n <= c.limit as real && Full(st, c.slot, c.limit, c.takenAt)
    ensures Drawn(Lookup(st, c.slot), c).1
  {
    var b := BucketFor(Lookup(st, c.slot), c.limit, c.createdAt);
    assert b.capacity == c.limit as real && b.refillPerSec == b.capacity / 60.0;
    var dt := c.takenAt - b.last;
    assert dt * b.refillPerSec >= 0.0 by {
      NonNegative(dt, b.refillPerSec);
    }
    if slot :| slot == c.slot && slot in st && st[slot].capacity == c.limit as real {
      AMinuteFills(dt, b.refillPerSec, b.capacity);
    }
    hide BucketFor;
    assert Refilled(b, c.takenAt).tokens == b.capacity;
  }

  lemma NonNegative(x: real, y: real)
    requires x >= 0.0 && y >= 0.0
    ensures x * y >= 0.0
  {
  }

  lemma AMinuteFills(dt: real, rate: real, capacity: real)
    requires dt >= 60.0 && rate == capacity / 60.0 && capacity >= 0.0
    ensures dt * rate >= capacity
  {
    NonNegative(dt - 60.0, rate);
    assert (dt - 60.0) * rate == dt * rate - 60.0 * rate;
  }

  predicate ApartIn(cs: seq<Check>) {
    forall i, j :: 0 <= i < j < |cs| ==> cs[i].slot != cs[j].slot
  }

  lemma {:induction false} AllFullAdmits(st: Store, cs: seq<Check>)
    requires ApartIn(cs)
    requires forall i :: 0 <= i < |cs| ==> cs[i].createdAt <= cs[i].takenAt && 0 < cs[i].limit
    requires forall i :: 0 <= i < |cs| ==> cs[i].n <= cs[i].limit as real
    requires forall i :: 0 <= i < |cs| ==> Full(st, cs[i].slot, cs[i].limit, cs[i].takenAt)
    ensures Serve(st, cs).1.Admitted?
    decreases |cs|
  {
    hide Drawn, Wait;
    if cs != [] {
      FullPasses(st, cs[0]);
      AllFullAdmits(st[cs[0].slot := Drawn(Lookup(st, cs[0].slot), cs[0]).0], cs[1..]);
    }
  }

  /** A request draws on no slot twice. */
  lemma ChecksAreApart(r: Request)
    ensures ApartIn(Checks(r))
  {
    hide Checks, UserKey, WorkspaceKey, ClientKey, ModelKey;
    ChecksAreInOrder(r);
    var cs := Checks(r);
    var user, client := if Truthy(r.user) then r.user.value else "", if Truthy(r.client) then r.client.value else "";
    KindsDiffer(r.ws, user, client, r.alias);
    forall i, j | 0 <= i < j < |cs| ensures cs[i].slot != cs[j].slot {
      assert Before(cs[i], cs[j]);
      ChecksAreTheLimits(r, cs[i]);
      ChecksAreTheLimits(r, cs[j]);
    }
  }

  /** A request nothing stands in the way of is admitted. */
  lemma {:induction false} ClearIsAdmitted(st: Store, r: Request)
    requires Clear(st, r)
    ensures Serve(st, Checks(r)).1.Admitted?
  {
    hide Checks, Serve, LimitOn, Estimate, Full, ApartIn;
    var cs := Checks(r);
    ChecksAreApart(r);
    forall i | 0 <= i < |cs|
      ensures cs[i].createdAt <= cs[i].takenAt && 0 < cs[i].limit && cs[i].n <= cs[i].limit as real
      ensures Full(st, cs[i].slot, cs[i].limit, cs[i].takenAt)
    {
      CheckIsDrawn(r, cs[i]);
      assert ClearAt(st, LimitOn(r, cs[i].scope, cs[i].slot).value, Estimate(r, cs[i].slot), cs[i].slot);
    }
    AllFullAdmits(st, cs);
  }

  /** The limits of a request are positive and its clock runs forwards. */
  ghost predicate Sensible(r: Request) {
    forall scope, slot :: LimitOn(r, scope, slot).Some? ==>
      var l := LimitOn(r, scope, slot).value; l.createdAt <= l.takenAt && 0 < l.perMinute.value
  }

  /** A limiter that has just started admits a request exactly when it estimates no more than any of its
      limits. */
  lemma {:induction false} FirstIsAdmittedIff(r: Request)
    requires Sensible(r)
    ensures Serve(map[], Checks(r)).1.Admitted? <==>
      forall scope, slot :: LimitOn(r, scope, slot).Some? ==>
        Estimate(r, slot) <= LimitOn(r, scope, slot).value.perMinute.value as real
  {
    hide Checks, Serve, LimitOn, Estimate;
    if forall scope, slot :: LimitOn(r, scope, slot).Some? ==>
         Estimate(r, slot) <= LimitOn(r, scope, slot).value.perMinute.value as real
    {
      ClearIsAdmitted(map[], r);
    } else {
      var scope, slot :| LimitOn(r, scope, slot).Some?
                         && Estimate(r, slot) > LimitOn(r, scope, slot).value.perMinute.value as real;
      OverLimitIsRefused(map[], r, scope, slot);
    }
  }

  /** A change of limit gives a fresh capacity: after any run a request is admitted if each of its slots
      was last used under another limit. */
  lemma ChangedLimitAdmits(st: Store, r: Request)
    requires Sensible(r)
    requires forall scope, slot :: LimitOn(r, scope, slot).Some? ==>
               var limit := LimitOn(r, scope, slot).value.perMinute.value;
               Estimate(r, slot) <= limit as real && (slot in st ==> st[slot].capacity != limit as real)
    ensures Serve(st, Checks(r)).1.Admitted?
  {
    hide Checks, Serve, LimitOn, Estimate;
    ClearIsAdmitted(st, r);
  }

  // ---------------------------------------------------------------- after a run

  /** The last draw on a slot left its clock reading there. */
  lemma {:induction false} LastDraw(h: seq<Check>, slot: Slot)
    requires After(h, slot).Some?
    ensures exists i :: 0 <= i < |h| && h[i].slot == slot && h[i].takenAt == After(h, slot).value.last
  {
    var n := |h| - 1;
    if h[n].slot == slot {
      assert h[n].takenAt == After(h, slot).value.last;
    } else {
      LastDraw(h[..n], slot);
      var i :| 0 <= i < n && h[..n][i].slot == slot && h[..n][i].takenAt == After(h[..n], slot).value.last;
      assert h[i].slot == slot && h[i].takenAt == After(h, slot).value.last;
    }
  }

  /** Every draw of these requests on the slot was made by `until`. */
  predicate DrawnBy(reqs: seq<Request>, slot: Slot, until: real) {
    forall i, scope :: 0 <= i < |reqs| && LimitOn(reqs[i], scope, slot).Some? ==>
      LimitOn(reqs[i], scope, slot).value.takenAt <= until
  }

  lemma RestedIsFull(reqs: seq<Request>, slot: Slot, limit: int, at: real, most: int)
    requires ClockOrdered(RunOf(reqs)) && LimitsOf(reqs, slot, most) && DrawnBy(reqs, slot, at - 60.0)
    ensures Full(StoreAfter(RunOf(reqs)), slot, limit, at)
  {
    hide ClockOrdered, StoreAfter, History, LimitOn, Checks, Ordered;
    hide Bounded, LimitsWithin, AsksAreNatural, LastLimit, After;
    var rs := RunOf(reqs);
    var h := History(rs);
    LimitsCarryOver(reqs, slot, most);
    RequestsAskNaturally(reqs);
    HistoryIsOrdered(rs);
    HistoryIsBounded(rs, slot, most);
    BucketInvariant(h, slot, most);
    StoreIsItsHistory(rs);
    assert Lookup(StoreAfter(rs), slot) == After(h, slot);
    if After(h, slot).Some? {
      LastDraw(h, slot);
      var i :| 0 <= i < |h| && h[i].slot == slot && h[i].takenAt == After(h, slot).value.last;
      HistoryComesFromRequests(rs, i);
      var k :| 0 <= k < |rs| && h[i] in rs[k];
      CheckIsDrawn(reqs[k], h[i]);
    }
  }

  /** After any run a request is admitted if it estimates no more than its limits and nobody has drawn on
      its slots for a minute. */
  lemma {:induction false} RestedIsAdmitted(reqs: seq<Request>, r: Request, most: int)
    requires ClockOrdered(RunOf(reqs)) && Sensible(r)
    requires forall slot :: LimitsOf(reqs, slot, most)
    requires forall scope, slot :: LimitOn(r, scope, slot).Some? ==>
               var l := LimitOn(r, scope, slot).value;
               Estimate(r, slot) <= l.perMinute.value as real && DrawnBy(reqs, slot, l.takenAt - 60.0)
    ensures Serve(StoreAfter(RunOf(reqs)), Checks(r)).1.Admitted?
  {
    hide ClockOrdered, RunOf, StoreAfter, LimitOn, Checks, Serve, Estimate, DrawnBy, LimitsOf, Full;
    var st := StoreAfter(RunOf(reqs));
    forall scope, slot | LimitOn(r, scope, slot).Some?
      ensures ClearAt(st, LimitOn(r, scope, slot).value, Estimate(r, slot), slot)
    {
      var l := LimitOn(r, scope, slot).value;
      RestedIsFull(reqs, slot, l.perMinute.value, l.takenAt, most);
    }
    ClearIsAdmitted(st, r);
  }

  // ---------------------------------------------------------------- a burst

  /** A request of a workspace that is limited in requests per minute only. */
  function Plain(ws: string, limit: int, at: real): Request {
    var off := Limit(None, at, at);
    var none := Limits(off, off);
    Request(None, ws, None, "", none, Limits(Limit(Some(limit), at, at), off), none, none, 0)
  }

  function Burst(ws: string, limit: int, at: real, m: nat): seq<Request> {
    seq(m, i => Plain(ws, limit, at))
  }

  lemma PlainChecks(ws: string, limit: int, at: real)
    requires limit > 0
    ensures Checks(Plain(ws, limit, at)) == [Check(WorkspaceLevel, Slot(Rpm, WorkspaceKey(ws)), limit, 1.0, at, at)]
  {
    hide WorkspaceKey, ModelKey;
  }

  lemma DrawAtOnce(o: Option<BucketState>, c: Check, left: int)
    requires c.n == 1.0 && c.createdAt == c.takenAt && 0 <= left <= c.limit
    requires var b := BucketFor(o, c.limit, c.createdAt);
             b.capacity == c.limit as real && b.tokens == left as real && b.last == c.takenAt
    ensures var (b, ok) := Drawn(o, c);
            && ok == (left >= 1) && b.capacity == c.limit as real && b.last == c.takenAt
            && b.tokens == if left >= 1 then (left - 1) as real else 0.0
  {
    var b := BucketFor(o, c.limit, c.createdAt);
    hide BucketFor, Refilled;
    RefilledAtOnce(b, c.takenAt);
    WholeTokens(left);
    assert Taken(b, c.n, c.takenAt) ==
      if b.tokens >= 1.0 then (b.(tokens := b.tokens - 1.0, last := c.takenAt), true)
      else (b.(last := c.takenAt), false);
    hide Taken;
  }

  lemma WholeTokens(left: int)
    ensures left >= 1 <==> left as real >= 1.0
    ensures (left - 1) as real == left as real - 1.0
    ensures 0 <= left < 1 ==> left as real == 0.0
  {
  }

  lemma RefilledAtOnce(b: BucketState, at: real)
    requires b.last == at && b.tokens <= b.capacity
    ensures Refilled(b, at) == b
  {
    var earned := (at - b.last) * b.refillPerSec;
    ZeroTimes(at - b.last, b.refillPerSec);
    assert Refilled(b, at) == b.(tokens := Min(b.capacity, b.tokens + earned), last := at);
    hide Refilled;
    assert Min(b.capacity, b.tokens + earned) == b.tokens;
  }

  lemma ZeroTimes(x: real, y: real)
    requires x == 0.0
    ensures x * y == 0.0
  {
    assert 0.0 * y == 0.0;
  }

  /** The bucket the next request of a burst draws on, after `m` of them. */
  function NextBucketOf(ws: string, limit: int, at: real, m: nat): BucketState {
    BucketFor(Lookup(StoreAfter(RunOf(Burst(ws, limit, at, m))), Slot(Rpm, WorkspaceKey(ws))), limit, at)
  }

  lemma {:induction false} BurstLeaves(ws: string, limit: int, at: real, m: nat)
    requires limit > 0
    ensures var b := NextBucketOf(ws, limit, at, m);
            && b.capacity == limit as real && b.last == at
            && b.tokens == if m < limit then (limit - m) as real else 0.0
  {
    hide WorkspaceKey, Drawn, Checks;
    if m > 0 {
      BurstLeaves(ws, limit, at, m - 1);
      BurstStep(ws, limit, at, m - 1);
    }
  }

  lemma BurstStep(ws: string, limit: int, at: real, m: nat)
    requires limit > 0
    requires var b := NextBucketOf(ws, limit, at, m);
             && b.capacity == limit as real && b.last == at
             && b.tokens == if m < limit then (limit - m) as real else 0.0
    ensures var b := NextBucketOf(ws, limit, at, m + 1);
            && b.capacity == limit as real && b.last == at
            && b.tokens == if m + 1 < limit then (limit - m - 1) as real else 0.0
    ensures VerdictAt(RunOf(Burst(ws, limit, at, m + 1)), m).Admitted? <==> m < limit
  {
    hide WorkspaceKey, Drawn, Checks, Wait;
    var before, all := Burst(ws, limit, at, m), Burst(ws, limit, at, m + 1);
    var st := StoreAfter(RunOf(before));
    var c := Check(WorkspaceLevel, Slot(Rpm, WorkspaceKey(ws)), limit, 1.0, at, at);
    assert all[..m] == before && all[m] == Plain(ws, limit, at);
    RunOfPrefix(all);
    PlainChecks(ws, limit, at);
    DrawAtOnce(Lookup(st, c.slot), c, if m < limit then limit - m else 0);
    ServeOne(st, c);
  }

  /** Of a burst of requests at one instant on a new slot of limit `L`, exactly the first `L` are admitted. */
  lemma {:induction false} BurstAdmitsTheFirst(ws: string, limit: int, at: real, m: nat, i: nat)
    requires limit > 0 && i < m
    ensures VerdictAt(RunOf(Burst(ws, limit, at, m)), i).Admitted? <==> i < limit
  {
    hide WorkspaceKey, Checks, StoreAfter, BucketFor, Serve;
    BurstLeaves(ws, limit, at, i);
    BurstStep(ws, limit, at, i);
    var rs, some := RunOf(Burst(ws, limit, at, m)), RunOf(Burst(ws, limit, at, i + 1));
    assert rs[..i] == some[..i] && rs[i] == some[i];
  }
}
