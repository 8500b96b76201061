/** The circuit breaker: one failure counter per workspace and provider. */
module Breaker {
  import opened Common

  datatype Breaker = Breaker(fails: nat, openedAt: real)

  type Breakers = map<string, Breaker>

  function Key(ws: string, provider: string): string {
    ws + ":" + provider
  }

  function Lookup(m: Breakers, k: string): Option<Breaker> {
    if k in m then Some(m[k]) else None
  }

  /** Has the cooldown of a tripped breaker run out? */
  predicate Expired(b: Breaker, cooldown: real, now: real) {
    b.openedAt != 0.0 && now - b.openedAt > cooldown
  }

  predicate IsOpen(o: Option<Breaker>, cooldown: real, now: real) {
    o.Some? && o.value.openedAt != 0.0 && !Expired(o.value, cooldown, now)
  }

  /** Asking resets a breaker whose cooldown has run out. */
  function Asked(o: Option<Breaker>, cooldown: real, now: real): Option<Breaker> {
    if o.Some? && Expired(o.value, cooldown, now) then Some(Breaker(0, 0.0)) else o
  }

  function Noted(o: Option<Breaker>, threshold: int, ok: bool, now: real): Breaker {
    var b := if o.Some? then o.value else Breaker(0, 0.0);
    if ok then Breaker(0, 0.0)
    else if b.fails + 1 >= threshold then Breaker(b.fails + 1, now)
    else b.(fails := b.fails + 1)
  }

  class CircuitBreaker {
    const threshold: int
    const cooldown: real
    var breakers: Breakers

    constructor (threshold: int := 5, cooldown: real := 30.0)
      ensures this.threshold == threshold && this.cooldown == cooldown && breakers == map[]
    {
      this.threshold, this.cooldown, breakers := threshold, cooldown, map[];
    }

    method Ask(ws: string, provider: string, now: real) returns (open: bool)
      modifies this`breakers
      ensures open == IsOpen(Lookup(old(breakers), Key(ws, provider)), cooldown, now)
      ensures breakers == AskedAll(old(breakers), Key(ws, provider), cooldown, now)
    {
      var k := Key(ws, provider);
      if k !in breakers || breakers[k].openedAt == 0.0 {
        return false;
      }
      if now - breakers[k].openedAt > cooldown {
        breakers := breakers[k := Breaker(0, 0.0)];
        return false;
      }
      return true;
    }

    method Record(ws: string, provider: string, ok: bool, now: real)
      modifies this`breakers
      ensures breakers == old(breakers)[Key(ws, provider) :=
                Noted(Lookup(old(breakers), Key(ws, provider)), threshold, ok, now)]
    {
      var k := Key(ws, provider);
      if k !in breakers {
        breakers := breakers[k := Breaker(0, 0.0)];
      }
      if ok {
        breakers := breakers[k := Breaker(0, 0.0)];
      } else {
        breakers := breakers[k := breakers[k].(fails := breakers[k].fails + 1)];
        if breakers[k].fails >= threshold {
          breakers := breakers[k := breakers[k].(openedAt := now)];
        }
      }
    }
  }

  function AskedAll(m: Breakers, k: string, cooldown: real, now: real): Breakers {
    match Asked(Lookup(m, k), cooldown, now)
    case Some(b) => m[k := b]
    case None => m
  }

  // ---------------------------------------------------------------- all histories of one breaker

  datatype Op = Ask(at: real) | Outcome(ok: bool, at: real)

  function After(h: seq<Op>, threshold: int, cooldown: real): Option<Breaker> {
    if h == [] then None
    else
      var o := After(h[..|h| - 1], threshold, cooldown);
      match h[|h| - 1]
      case Ask(at) => Asked(o, cooldown, at)
      case Outcome(ok, at) => Some(Noted(o, threshold, ok, at))
  }

  /** The failures that count: those since the last success or the last question that found the
      cooldown over. */
  function Streak(h: seq<Op>, threshold: int, cooldown: real): seq<real> {
    if h == [] then []
    else
      var s := Streak(h[..|h| - 1], threshold, cooldown);
      match h[|h| - 1]
      case Ask(at) => if Tripped(s, threshold) && at - s[|s| - 1] > cooldown then [] else s
      case Outcome(ok, at) => if ok then [] else s + [at]
  }

  /** Enough failures in a row. */
  predicate Tripped(s: seq<real>, threshold: int) {
    |s| >= 1 && |s| >= threshold
  }

  ghost predicate PositiveClock(h: seq<Op>) {
    forall i :: 0 <= i < |h| ==> h[i].at > 0.0
  }

  lemma {:induction false} BreakerCountsStreak(h: seq<Op>, threshold: int, cooldown: real)
    requires PositiveClock(h)
    ensures var o, s := After(h, threshold, cooldown), Streak(h, threshold, cooldown);
            && (forall i :: 0 <= i < |s| ==> s[i] > 0.0)
            && (o.None? ==> s == [])
            && (o.Some? ==> o.value.fails == |s|
                            && o.value.openedAt == (if Tripped(s, threshold) then s[|s| - 1] else 0.0))
  {
    if h != [] {
      BreakerCountsStreak(h[..|h| - 1], threshold, cooldown);
    }
  }

  /** Breaker characterisation: over every history, the breaker is open at `t` exactly when enough
      failures have come since the last success or observed expiry and the latest of them is no
      older than the cooldown. The clock must be positive: a breaker tripped at time zero looks
      like one that never tripped. */
  lemma OpenExactly(h: seq<Op>, threshold: int, cooldown: real, t: real)
    requires PositiveClock(h)
    ensures var s := Streak(h, threshold, cooldown);
            IsOpen(After(h, threshold, cooldown), cooldown, t) <==>
            Tripped(s, threshold) && t - s[|s| - 1] <= cooldown
  {
    BreakerCountsStreak(h, threshold, cooldown);
  }

  /** The fields agree on whether the breaker has tripped. */
  lemma {:induction false} OpenedIffEnoughFails(h: seq<Op>, threshold: int, cooldown: real)
    requires PositiveClock(h) && threshold >= 1
    ensures var o := After(h, threshold, cooldown);
            o.Some? ==> (o.value.openedAt != 0.0 <==> o.value.fails >= threshold)
  {
    BreakerCountsStreak(h, threshold, cooldown);
  }

  /** Tripping at clock reading `t` opens the breaker exactly when `t` is not zero. */
  lemma TrippedAtZeroStaysClosed(o: Option<Breaker>, threshold: int, cooldown: real, t: real)
    requires cooldown >= 0.0 && (if o.Some? then o.value.fails else 0) + 1 >= threshold
    ensures IsOpen(Some(Noted(o, threshold, false, t)), cooldown, t) <==> t != 0.0
  {
  }

  /** Whatever came before an outcome that was a success is forgotten. */
  lemma {:induction false} SuccessForgets(h: seq<Op>, at: real, later: seq<Op>, threshold: int, cooldown: real)
    ensures Streak(h + [Outcome(true, at)] + later, threshold, cooldown) == Streak(later, threshold, cooldown)
  {
    var g := h + [Outcome(true, at)];
    if later == [] {
      assert g + later == g && g[..|g| - 1] == h;
    } else {
      var rest := later[..|later| - 1];
      SuccessForgets(h, at, rest, threshold, cooldown);
      assert (g + later)[..|g + later| - 1] == g + rest;
    }
  }

  // ---------------------------------------------------------------- the load on a dead provider

  /** One pass over a target: the question, and the calls made if the breaker was closed. */
  datatype Span = Span(started: real, noted: real)
  datatype Visit = Visit(asked: real, calls: seq<Span>)

  function AfterCalls(o: Option<Breaker>, calls: seq<Span>, threshold: int): Option<Breaker>
    decreases |calls|
  {
    if calls == [] then o
    else AfterCalls(Some(Noted(o, threshold, false, calls[0].noted)), calls[1..], threshold)
  }

  function AfterVisits(vs: seq<Visit>, threshold: int, cooldown: real): Option<Breaker> {
    if vs == [] then None
    else
      var v := vs[|vs| - 1];
      AfterCalls(Asked(AfterVisits(vs[..|vs| - 1], threshold, cooldown), cooldown, v.asked), v.calls, threshold)
  }

  /** Every visit respects the breaker and the retry limit. */
  ghost predicate Respects(vs: seq<Visit>, threshold: int, cooldown: real, maxRetries: nat) {
    forall i :: 0 <= i < |vs| ==>
      && |vs[i].calls| <= maxRetries + 1
      && (IsOpen(AfterVisits(vs[..i], threshold, cooldown), cooldown, vs[i].asked) ==> vs[i].calls == [])
  }

  /** One visit at a time, on a positive clock. */
  ghost predicate VisitInOrder(v: Visit) {
    && v.asked > 0.0
    && (forall j :: 0 <= j < |v.calls| ==> v.asked <= v.calls[j].started <= v.calls[j].noted)
    && (forall j, k :: 0 <= j < k < |v.calls| ==> v.calls[j].noted <= v.calls[k].started)
  }

  function EndOf(v: Visit): real {
    if v.calls == [] then v.asked else v.calls[|v.calls| - 1].noted
  }

  ghost predicate InOrder(vs: seq<Visit>) {
    && (forall i :: 0 <= i < |vs| ==> VisitInOrder(vs[i]))
    && (forall i, j :: 0 <= i < j < |vs| ==> EndOf(vs[i]) <= vs[j].asked)
  }

  function CallsWithin(calls: seq<Span>, from: real, to: real): nat {
    if calls == [] then 0
    else CallsWithin(calls[1..], from, to) + (if from <= calls[0].started <= to then 1 else 0)
  }

  function Load(vs: seq<Visit>, from: real, to: real): nat {
    if vs == [] then 0
    else Load(vs[..|vs| - 1], from, to) + CallsWithin(vs[|vs| - 1].calls, from, to)
  }

  /** Bursts of calls: a new one begins when a reset lies between it and the one before. `current`
      says that the burst since the last reset has calls in the interval. */
  datatype Bursts = Bursts(count: nat, current: bool)

  function NextBursts(b: Bursts, o: Option<Breaker>, v: Visit, cooldown: real, from: real, to: real): Bursts {
    var current := b.current && !(o.Some? && Expired(o.value, cooldown, v.asked));
    if CallsWithin(v.calls, from, to) == 0 then Bursts(b.count, current)
    else Bursts(if current then b.count else b.count + 1, true)
  }

  function BurstsOf(vs: seq<Visit>, threshold: int, cooldown: real, from: real, to: real): Bursts {
    if vs == [] then Bursts(0, false)
    else
      var rest := vs[..|vs| - 1];
      NextBursts(BurstsOf(rest, threshold, cooldown, from, to), AfterVisits(rest, threshold, cooldown),
                 vs[|vs| - 1], cooldown, from, to)
  }

  lemma {:induction false} CallsWithinAtMost(calls: seq<Span>, from: real, to: real)
    ensures CallsWithin(calls, from, to) <= |calls|
    ensures CallsWithin(calls, from, to) > 0 ==> exists j :: 0 <= j < |calls| && from <= calls[j].started <= to
  {
    if calls != [] {
      CallsWithinAtMost(calls[1..], from, to);
      if CallsWithin(calls[1..], from, to) > 0 {
        var j :| 0 <= j < |calls[1..]| && from <= calls[1..][j].started <= to;
        assert calls[j + 1] == calls[1..][j];
      }
    }
  }

  lemma {:induction false} CallsAdvance(o: Option<Breaker>, calls: seq<Span>, threshold: int)
    requires calls != []
    ensures var o' := AfterCalls(o, calls, threshold);
            && o'.Some?
            && o'.value.fails == (if o.Some? then o.value.fails else 0) + |calls|
            && (o'.value.fails >= threshold ==> o'.value.openedAt == calls[|calls| - 1].noted)
            && (o'.value.fails < threshold ==> o'.value.openedAt == (if o.Some? then o.value.openedAt else 0.0))
    decreases |calls|
  {
    var o1 := Some(Noted(o, threshold, false, calls[0].noted));
    if |calls| == 1 {
      assert calls[1..] == [];
    } else {
      CallsAdvance(o1, calls[1..], threshold);
    }
  }

  function Times(n: nat, x: real): real {
    if n == 0 then 0.0 else Times(n - 1, x) + x
  }

  /** What `n` full bursts amount to. */
  function Full(n: nat, burst: nat): nat {
    if n == 0 then 0 else Full(n - 1, burst) + burst
  }

  function Fails(o: Option<Breaker>): nat {
    if o.Some? then o.value.fails else 0
  }

  /** What holds of a breaker, the load so far and its bursts, at time `now`. */
  ghost predicate LoadInv(o: Option<Breaker>, load: nat, b: Bursts, now: real,
                          threshold: nat, cooldown: real, maxRetries: nat, from: real, to: real) {
    && Fails(o) <= threshold + maxRetries
    && (o.Some? ==> (o.value.openedAt != 0.0 <==> o.value.fails >= threshold) && 0.0 <= o.value.openedAt <= now)
    && (b.current ==> b.count >= 1 && o.Some?)
    // a finished burst is at most a full one, the current one what has failed since the reset
    && load <= (if b.current then Full(b.count - 1, threshold + maxRetries) + Fails(o)
                else Full(b.count, threshold + maxRetries))
    // bursts are a cooldown apart
    && (b.current && Fails(o) >= threshold ==> o.value.openedAt >= from + Times(b.count - 1, cooldown))
    && (b.current ==> now >= from + Times(b.count - 1, cooldown))
    && (!b.current && b.count >= 1 ==> now > from + Times(b.count, cooldown))
    && (b.count >= 2 ==> from + Times(b.count - 1, cooldown) < to)
  }

  /** The question: a reset ends the current burst. */
  lemma AskKeepsLoadInv(o: Option<Breaker>, load: nat, b: Bursts, now: real, asked: real,
                        threshold: nat, cooldown: real, maxRetries: nat, from: real, to: real)
    requires threshold >= 1 && cooldown > 0.0 && now <= asked && asked > 0.0
    requires LoadInv(o, load, b, now, threshold, cooldown, maxRetries, from, to)
    ensures var reset := o.Some? && Expired(o.value, cooldown, asked);
            LoadInv(Asked(o, cooldown, asked), load, b.(current := b.current && !reset), asked,
                    threshold, cooldown, maxRetries, from, to)
    ensures !IsOpen(o, cooldown, asked) ==> Fails(Asked(o, cooldown, asked)) < threshold
  {
    if o.Some? && Expired(o.value, cooldown, asked) && b.current {
      assert Times(b.count, cooldown) == Times(b.count - 1, cooldown) + cooldown;
      assert Full(b.count, threshold + maxRetries) == Full(b.count - 1, threshold + maxRetries)
          + (threshold + maxRetries);
    }
  }

  /** The calls: they belong to the current burst, or begin one. */
  lemma CallsKeepLoadInv(o: Option<Breaker>, load: nat, b: Bursts, asked: real, calls: seq<Span>,
                         threshold: nat, cooldown: real, maxRetries: nat, from: real, to: real)
    requires threshold >= 1 && cooldown > 0.0 && asked > 0.0 && calls != []
    requires VisitInOrder(Visit(asked, calls)) && |calls| <= maxRetries + 1 && Fails(o) < threshold
    requires LoadInv(o, load, b, asked, threshold, cooldown, maxRetries, from, to)
    ensures var c := CallsWithin(calls, from, to);
            LoadInv(AfterCalls(o, calls, threshold), load + c,
                    if c == 0 then b else Bursts(if b.current then b.count else b.count + 1, true),
                    calls[|calls| - 1].noted, threshold, cooldown, maxRetries, from, to)
  {
    CallsAdvance(o, calls, threshold);
    var s := FirstWithin(asked, calls, from, to);
    hide AfterCalls, CallsWithin, VisitInOrder;
    assert Times(b.count + 1, cooldown) == Times(b.count, cooldown) + cooldown;
    assert Times(0, cooldown) == 0.0;
  }

  /** If some call starts in the interval, it does so after the question and before the last note. */
  lemma FirstWithin(asked: real, calls: seq<Span>, from: real, to: real) returns (s: real)
    requires VisitInOrder(Visit(asked, calls)) && calls != []
    ensures asked <= calls[|calls| - 1].noted
    ensures CallsWithin(calls, from, to) <= |calls|
    ensures CallsWithin(calls, from, to) > 0 ==> asked <= s <= calls[|calls| - 1].noted && from <= s <= to
  {
    CallsWithinAtMost(calls, from, to);
    s := 0.0;
    if CallsWithin(calls, from, to) > 0 {
      var j :| 0 <= j < |calls| && from <= calls[j].started <= to;
      s := calls[j].started;
      if j < |calls| - 1 {
        assert calls[j].noted <= calls[|calls| - 1].started;
      }
    }
  }

  lemma LastVisit(vs: seq<Visit>, v: Visit, threshold: int, cooldown: real, maxRetries: nat)
    requires Respects(vs + [v], threshold, cooldown, maxRetries) && InOrder(vs + [v])
    ensures Respects(vs, threshold, cooldown, maxRetries) && InOrder(vs) && VisitInOrder(v)
    ensures vs != [] ==> EndOf(vs[|vs| - 1]) <= v.asked
    ensures |v.calls| <= maxRetries + 1
    ensures IsOpen(AfterVisits(vs, threshold, cooldown), cooldown, v.asked) ==> v.calls == []
  {
    var all := vs + [v];
    assert all[|vs|] == v && all[..|vs|] == vs;
    assert forall i :: 0 <= i < |vs| ==> all[i] == vs[i] && all[..i] == vs[..i];
  }

  function Clock(vs: seq<Visit>): real {
    if vs == [] then 0.0 else EndOf(vs[|vs| - 1])
  }

  lemma VisitKeepsLoadInv(o: Option<Breaker>, load: nat, b: Bursts, now: real, v: Visit,
                          threshold: nat, cooldown: real, maxRetries: nat, from: real, to: real)
    requires threshold >= 1 && cooldown > 0.0 && now <= v.asked
    requires VisitInOrder(v) && |v.calls| <= maxRetries + 1
    requires IsOpen(o, cooldown, v.asked) ==> v.calls == []
    requires LoadInv(o, load, b, now, threshold, cooldown, maxRetries, from, to)
    ensures LoadInv(AfterCalls(Asked(o, cooldown, v.asked), v.calls, threshold), load + CallsWithin(v.calls, from, to),
                    NextBursts(b, o, v, cooldown, from, to), EndOf(v), threshold, cooldown, maxRetries, from, to)
  {
    hide LoadInv;
    AskKeepsLoadInv(o, load, b, now, v.asked, threshold, cooldown, maxRetries, from, to);
    var b' := b.(current := b.current && !(o.Some? && Expired(o.value, cooldown, v.asked)));
    if v.calls != [] {
      CallsKeepLoadInv(Asked(o, cooldown, v.asked), load, b', v.asked,
                       v.calls, threshold, cooldown, maxRetries, from, to);
    }
  }

  lemma LoadInvAtFirst(threshold: nat, cooldown: real, maxRetries: nat, from: real, to: real)
    ensures LoadInv(None, 0, Bursts(0, false), 0.0, threshold, cooldown, maxRetries, from, to)
  {
  }

  lemma {:induction false} LoadInvHolds(vs: seq<Visit>, threshold: nat, cooldown: real, maxRetries: nat, from: real,
                                        to: real)
    requires threshold >= 1 && cooldown > 0.0
    requires Respects(vs, threshold, cooldown, maxRetries) && InOrder(vs)
    ensures LoadInv(AfterVisits(vs, threshold, cooldown), Load(vs, from, to),
                    BurstsOf(vs, threshold, cooldown, from, to), Clock(vs), threshold, cooldown, maxRetries, from, to)
  {
    hide LoadInv, InOrder, Respects, Asked, AfterCalls, NextBursts, CallsWithin, IsOpen;
    if vs == [] {
      LoadInvAtFirst(threshold, cooldown, maxRetries, from, to);
    } else {
      var rest, v := vs[..|vs| - 1], vs[|vs| - 1];
      assert vs == rest + [v];
      LastVisit(rest, v, threshold, cooldown, maxRetries);
      LoadInvHolds(rest, threshold, cooldown, maxRetries, from, to);
      assert Clock(rest) <= v.asked by {
        assert VisitInOrder(v);
      }
      VisitKeepsLoadInv(AfterVisits(rest, threshold, cooldown), Load(rest, from, to),
                        BurstsOf(rest, threshold, cooldown, from, to), Clock(rest), v,
                        threshold, cooldown, maxRetries, from, to);
    }
  }

  lemma {:induction false} TimesIsProduct(n: nat, x: real)
    ensures Times(n, x) == n as real * x
  {
    if n > 0 {
      TimesIsProduct(n - 1, x);
      assert (n - 1) as real * x + x == n as real * x;
    }
  }

  lemma {:induction false} FullIsProduct(n: nat, burst: nat)
    ensures Full(n, burst) == n * burst
  {
    if n > 0 {
      FullIsProduct(n - 1, burst);
      assert (n - 1) * burst + burst == n * burst;
    }
  }

  function Ceil(x: real): int {
    -((-x).Floor)
  }

  /** A number of cooldowns that fits strictly into the interval is below its length in cooldowns. */
  lemma CountBelowCeil(n: nat, cooldown: real, length: real)
    requires cooldown > 0.0 && length > 0.0
    requires n >= 2 ==> (n - 1) as real * cooldown < length
    ensures n <= Ceil(length / cooldown) || n == 0
    ensures Ceil(length / cooldown) >= 1
  {
    var q := length / cooldown;
    assert q * cooldown == length;
    if n >= 2 {
      assert ((n - 1) as real - q) * cooldown < 0.0;
      assert (n - 1) as real < q;
    }
  }

  /** Breaker load bound: a provider that only fails, visited one request at a time, receives in any
      interval of length `T > 0` at most `(threshold + maxRetries) * ceil(T / cooldown)` calls. */
  lemma {:induction false} LoadBound(vs: seq<Visit>, threshold: nat, cooldown: real, maxRetries: nat, from: real,
                                     to: real)
    requires threshold >= 1 && cooldown > 0.0 && from < to
    requires Respects(vs, threshold, cooldown, maxRetries) && InOrder(vs)
    ensures Load(vs, from, to) <= (threshold + maxRetries) * Ceil((to - from) / cooldown)
  {
    hide *;
    var b := BurstsOf(vs, threshold, cooldown, from, to);
    LoadInvHolds(vs, threshold, cooldown, maxRetries, from, to);
    LoadInBursts(AfterVisits(vs, threshold, cooldown), Load(vs, from, to), b, Clock(vs), threshold, cooldown,
                 maxRetries, from, to);
    CountBelowCeil(b.count, cooldown, to - from);
    ProductGrows(b.count, Ceil((to - from) / cooldown), threshold + maxRetries);
  }

  lemma ProductGrows(n: nat, m: nat, burst: nat)
    requires n <= m
    ensures n * burst <= burst * m
  {
  }

  lemma LoadInBursts(o: Option<Breaker>, load: nat, b: Bursts, now: real,
                     threshold: nat, cooldown: real, maxRetries: nat, from: real, to: real)
    requires LoadInv(o, load, b, now, threshold, cooldown, maxRetries, from, to)
    ensures load <= b.count * (threshold + maxRetries)
    ensures b.count >= 2 ==> (b.count - 1) as real * cooldown < to - from
  {
    FullIsProduct(b.count, threshold + maxRetries);
    if b.count >= 1 {
      TimesIsProduct(b.count - 1, cooldown);
    }
  }
}
