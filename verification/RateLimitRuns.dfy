/** Whole runs of the in-memory limiter: how much it admits in any interval, and that tenants do
    not disturb each other. */
module RateLimitRuns {
  import opened Common
  import opened Keys
  import opened RateLimit

  // ---------------------------------------------------------------- runs and their history

  /** A run is the list of check batches the limiter was asked to serve, one batch a request. */
  type Run = seq<seq<Check>>

  function RunOf(reqs: seq<Request>): Run {
    seq(|reqs|, i requires 0 <= i < |reqs| => Checks(reqs[i]))
  }

  function StoreAfter(rs: Run): Store {
    if rs == [] then map[] else Serve(StoreAfter(rs[..|rs| - 1]), rs[|rs| - 1]).0
  }

  function VerdictAt(rs: Run, i: nat): Verdict
    requires i < |rs|
  {
    Serve(StoreAfter(rs[..i]), rs[i]).1
  }

  /** The checks really made: a refusal cuts the rest off. */
  function Performed(st: Store, cs: seq<Check>): seq<Check>
    decreases |cs|
  {
    if cs == [] then []
    else
      var (b, ok) := Drawn(Lookup(st, cs[0].slot), cs[0]);
      [cs[0]] + (if ok then Performed(st[cs[0].slot := b], cs[1..]) else [])
  }

  function History(rs: Run): seq<Check> {
    if rs == [] then []
    else History(rs[..|rs| - 1]) + Performed(StoreAfter(rs[..|rs| - 1]), rs[|rs| - 1])
  }

  /** A slot's bucket, from the history of checks alone. */
  function After(h: seq<Check>, slot: Slot): Option<BucketState> {
    if h == [] then None
    else
      var rest, c := h[..|h| - 1], h[|h| - 1];
      if c.slot == slot then Some(Drawn(After(rest, slot), c).0) else After(rest, slot)
  }

  predicate Passes(h: seq<Check>, c: Check) {
    Drawn(After(h, c.slot), c).1
  }

  /** The limit the slot's most recent check was made under. */
  function LastLimit(h: seq<Check>, slot: Slot): Option<int> {
    if h == [] then None
    else if h[|h| - 1].slot == slot then Some(h[|h| - 1].limit)
    else LastLimit(h[..|h| - 1], slot)
  }

  predicate Within(c: Check, slot: Slot, from: real, to: real) {
    c.slot == slot && from <= c.takenAt <= to
  }

  /** What a slot let through in an interval. */
  function Granted(h: seq<Check>, slot: Slot, from: real, to: real): real {
    if h == [] then 0.0
    else
      var rest, c := h[..|h| - 1], h[|h| - 1];
      Granted(rest, slot, from, to) + (if Within(c, slot, from, to) && Passes(rest, c) then c.n else 0.0)
  }

  /** How often, in an interval, the slot was checked under another limit than the time before. */
  function Changes(h: seq<Check>, slot: Slot, from: real, to: real): nat {
    if h == [] then 0
    else
      var rest, c := h[..|h| - 1], h[|h| - 1];
      Changes(rest, slot, from, to) +
      (if Within(c, slot, from, to) && LastLimit(rest, slot).Some? && LastLimit(rest, slot) != Some(c.limit)
       then 1 else 0)
  }

  ghost predicate Ordered(h: seq<Check>) {
    && (forall i :: 0 <= i < |h| ==> h[i].createdAt <= h[i].takenAt)
    && (forall i, j :: 0 <= i < j < |h| ==> h[i].takenAt <= h[j].takenAt)
  }

  ghost predicate Bounded(h: seq<Check>, slot: Slot, most: int) {
    forall i :: 0 <= i < |h| && h[i].slot == slot ==> 0 < h[i].limit <= most && h[i].n >= 0.0
  }

  // ---------------------------------------------------------------- the store is its history

  lemma NextBucket(st: Store, h: seq<Check>, c: Check)
    requires forall s :: Lookup(st, s) == After(h, s)
    ensures forall s :: Lookup(st[c.slot := Drawn(Lookup(st, c.slot), c).0], s) == After(h + [c], s)
  {
    hide Drawn;
    assert (h + [c])[..|h|] == h;
  }

  lemma {:induction false} ServeFollowsHistory(st: Store, h: seq<Check>, cs: seq<Check>)
    requires forall s :: Lookup(st, s) == After(h, s)
    ensures forall s :: Lookup(Serve(st, cs).0, s) == After(h + Performed(st, cs), s)
    decreases |cs|
  {
    hide Drawn, After, Wait;
    if cs == [] {
      assert h + [] == h;
    } else {
      var (b, ok) := Drawn(Lookup(st, cs[0].slot), cs[0]);
      var st', h' := st[cs[0].slot := b], h + [cs[0]];
      NextBucket(st, h, cs[0]);
      if ok {
        ServeFollowsHistory(st', h', cs[1..]);
        assert h + Performed(st, cs) == h' + Performed(st', cs[1..]);
      } else {
        assert h + Performed(st, cs) == h';
      }
    }
  }

  lemma {:induction false} StoreIsItsHistory(rs: Run)
    ensures forall s :: Lookup(StoreAfter(rs), s) == After(History(rs), s)
  {
    if rs != [] {
      var rest := rs[..|rs| - 1];
      StoreIsItsHistory(rest);
      ServeFollowsHistory(StoreAfter(rest), History(rest), rs[|rs| - 1]);
    }
  }

  // ---------------------------------------------------------------- the interval bound on one slot

  lemma {:induction false} BucketInvariant(h: seq<Check>, slot: Slot, most: int)
    requires Ordered(h) && Bounded(h, slot, most)
    ensures var o := After(h, slot);
            && (o.None? <==> LastLimit(h, slot).None?)
            && (o.Some? ==>
                  && LastLimit(h, slot).value as real == o.value.capacity
                  && 0 < LastLimit(h, slot).value <= most
                  && o.value.refillPerSec == o.value.capacity / 60.0
                  && 0.0 <= o.value.tokens <= o.value.capacity
                  && (exists i :: 0 <= i < |h| && h[i].takenAt == o.value.last))
  {
    if h != [] {
      var rest, c := h[..|h| - 1], h[|h| - 1];
      BucketInvariant(rest, slot, most);
      if c.slot == slot {
        DrawnKeepsBucket(After(rest, slot), c);
        assert h[|h| - 1].takenAt == After(h, slot).value.last;
      } else if After(rest, slot).Some? {
        var i :| 0 <= i < |rest| && rest[i].takenAt == After(rest, slot).value.last;
        assert h[i].takenAt == After(h, slot).value.last;
      }
    }
  }

  /** A bucket in order stays in order, and a grant is paid for out of what it held and earned. */
  lemma DrawnKeepsBucket(o: Option<BucketState>, c: Check)
    requires c.limit > 0 && c.n >= 0.0 && c.createdAt <= c.takenAt
    requires o.Some? ==> o.value.last <= c.takenAt && 0.0 <= o.value.tokens <= o.value.capacity
                         && o.value.refillPerSec == o.value.capacity / 60.0
    ensures var (b, ok) := Drawn(o, c);
            var before := BucketFor(o, c.limit, c.createdAt);
            && b.capacity == c.limit as real && b.refillPerSec == b.capacity / 60.0
            && b.last == c.takenAt
            && 0.0 <= b.tokens <= b.capacity
            && b.tokens + (if ok then c.n else 0.0) <= b.capacity
            && (before == FullBucket(c.limit, c.createdAt) ||
                b.tokens + (if ok then c.n else 0.0) <= before.tokens + (c.takenAt - before.last) * b.refillPerSec)
  {
    var before := BucketFor(o, c.limit, c.createdAt);
    assert (c.takenAt - before.last) * before.refillPerSec >= 0.0;
  }

  /** `k` full buckets. */
  function Buckets(most: int, k: nat): real {
    if k == 0 then 0.0 else Buckets(most, k - 1) + most as real
  }

  lemma EarnedAtMost(rate: real, most: int, dt: real)
    requires dt >= 0.0 && rate <= most as real / 60.0
    ensures dt * rate <= Earned(most, dt)
  {
  }

  lemma {:induction false} BucketsPositive(most: int, k: nat)
    requires most > 0
    ensures Buckets(most, k) >= 0.0
  {
    if k > 0 {
      BucketsPositive(most, k - 1);
    }
  }

  /** What a bucket with the largest limit earns in `dt` seconds. */
  function Earned(most: int, dt: real): real {
    dt * (most as real / 60.0)
  }

  lemma EarnedNatural(most: int, dt: real)
    requires most > 0
    ensures dt >= 0.0 ==> Earned(most, dt) >= 0.0
  {
  }

  lemma EarnedAdds(most: int, x: real, y: real)
    ensures Earned(most, x) + Earned(most, y) == Earned(most, x + y)
  {
  }

  /** A slot's grants since `from`, and what its bucket still holds, are covered by `k` full
      buckets and what was earned since. */
  ghost predicate Covers(o: Option<BucketState>, granted: real, k: nat, from: real, to: real, most: int) {
    && (o.None? || o.value.last < from ==> granted == 0.0 && k == 1)
    && (o.Some? && from <= o.value.last <= to ==>
          granted + o.value.tokens <= Buckets(most, k) + Earned(most, o.value.last - from))
    && (o.Some? && to < o.value.last ==> granted <= Buckets(most, k) + Earned(most, to - from))
  }

  ghost predicate Covered(h: seq<Check>, slot: Slot, from: real, to: real, most: int) {
    Covers(After(h, slot), Granted(h, slot, from, to), 1 + Changes(h, slot, from, to), from, to, most)
  }

  lemma {:induction false} AlwaysCovered(h: seq<Check>, slot: Slot, from: real, to: real, most: int)
    requires from <= to && Ordered(h) && Bounded(h, slot, most) && most > 0
    ensures Covered(h, slot, from, to, most)
  {
    hide Covered;
    if h == [] {
      NothingCovered(slot, from, to, most);
    } else {
      var rest, c := h[..|h| - 1], h[|h| - 1];
      AlwaysCovered(rest, slot, from, to, most);
      assert h == rest + [c];
      if c.slot == slot {
        StaysCovered(rest, c, from, to, most);
      } else {
        OtherSlotCovers(rest, c, slot, from, to, most);
      }
    }
  }

  lemma NothingCovered(slot: Slot, from: real, to: real, most: int)
    ensures Covered([], slot, from, to, most)
  {
  }

  lemma OtherSlotCovers(rest: seq<Check>, c: Check, slot: Slot, from: real, to: real, most: int)
    requires Covered(rest, slot, from, to, most) && c.slot != slot
    ensures Covered(rest + [c], slot, from, to, most)
  {
    hide Covers, Drawn;
    assert (rest + [c])[..|rest|] == rest;
  }

  /** One more draw of `paid`, out of the old bucket or out of a fresh one. */
  lemma CoverStep(o: Option<BucketState>, b: BucketState, paid: real, renewed: bool,
                  granted: real, k: nat, from: real, to: real, most: int)
    requires from <= to && most > 0 && k >= 1 && paid >= 0.0
    requires o.Some? ==> o.value.last <= b.last && 0.0 <= o.value.tokens <= most as real
    requires 0.0 <= b.tokens && b.tokens + paid <= most as real
    requires o.Some? && !renewed ==> b.tokens + paid <= o.value.tokens + Earned(most, b.last - o.value.last)
    requires Covers(o, granted, k, from, to, most)
    ensures var inside := from <= b.last <= to;
            Covers(Some(b), granted + (if inside then paid else 0.0),
                   k + (if inside && o.Some? && renewed then 1 else 0),
                   from, to, most)
  {
    BucketsPositive(most, k - 1);
    EarnedNatural(most, b.last - from);
    EarnedNatural(most, to - from);
    if o.Some? && o.value.last >= from {
      EarnedAdds(most, o.value.last - from, b.last - o.value.last);
      EarnedNatural(most, b.last - o.value.last);
      EarnedAdds(most, o.value.last - from, to - o.value.last);
      EarnedNatural(most, to - o.value.last);
    }
  }

  /** The state a check finds is an earlier, well-kept one. */
  ghost predicate Kept(o: Option<BucketState>, c: Check, most: int) {
    && 0 < c.limit <= most && c.n >= 0.0 && c.createdAt <= c.takenAt
    && (o.Some? ==> o.value.last <= c.takenAt && 0.0 <= o.value.tokens <= o.value.capacity <= most as real
                    && o.value.refillPerSec == o.value.capacity / 60.0)
  }

  lemma CheckFindsKept(rest: seq<Check>, c: Check, most: int)
    requires Ordered(rest + [c]) && Bounded(rest + [c], c.slot, most)
    ensures Kept(After(rest, c.slot), c, most)
    ensures LastLimit(rest, c.slot).Some? && LastLimit(rest, c.slot) != Some(c.limit)
        <==> After(rest, c.slot).Some? && After(rest, c.slot).value.capacity != c.limit as real
  {
    var h := rest + [c];
    assert h[|rest|] == c && forall i :: 0 <= i < |rest| ==> h[i] == rest[i];
    assert Ordered(rest) && Bounded(rest, c.slot, most);
    BucketInvariant(rest, c.slot, most);
    var o := After(rest, c.slot);
    if o.Some? {
      var i :| 0 <= i < |rest| && rest[i].takenAt == o.value.last;
      assert h[i].takenAt <= h[|rest|].takenAt;
    }
  }

  lemma DrawIsPaidFor(o: Option<BucketState>, c: Check, most: int)
    requires Kept(o, c, most)
    ensures var (b, ok) := Drawn(o, c);
            var paid := if ok then c.n else 0.0;
            && b.last == c.takenAt && 0.0 <= b.tokens && b.tokens + paid <= most as real
            && (o.Some? && o.value.capacity == c.limit as real ==>
                  b.tokens + paid <= o.value.tokens + Earned(most, c.takenAt - o.value.last))
  {
    DrawnKeepsBucket(o, c);
    if o.Some? && o.value.capacity == c.limit as real {
      EarnedAtMost(o.value.refillPerSec, most, c.takenAt - o.value.last);
    }
  }

  lemma HistoryStep(rest: seq<Check>, c: Check, from: real, to: real)
    ensures After(rest + [c], c.slot) == Some(Drawn(After(rest, c.slot), c).0)
    ensures Granted(rest + [c], c.slot, from, to)
         == Granted(rest, c.slot, from, to) +
            (if from <= c.takenAt <= to && Drawn(After(rest, c.slot), c).1 then c.n else 0.0)
    ensures Changes(rest + [c], c.slot, from, to)
         == Changes(rest, c.slot, from, to) +
            (if from <= c.takenAt <= to && LastLimit(rest, c.slot).Some?
             && LastLimit(rest, c.slot) != Some(c.limit) then 1 else 0)
  {
    assert (rest + [c])[..|rest|] == rest;
  }

  lemma StaysCovered(rest: seq<Check>, c: Check, from: real, to: real, most: int)
    requires from <= to && Ordered(rest + [c]) && Bounded(rest + [c], c.slot, most) && most > 0
    requires Covered(rest, c.slot, from, to, most)
    ensures Covered(rest + [c], c.slot, from, to, most)
  {
    hide Drawn;
    CheckFindsKept(rest, c, most);
    HistoryStep(rest, c, from, to);
    var o := After(rest, c.slot);
    DrawIsPaidFor(o, c, most);
    var (b, ok) := Drawn(o, c);
    CoverStep(o, b, if ok then c.n else 0.0, o.Some? && o.value.capacity != c.limit as real,
              Granted(rest, c.slot, from, to), 1 + Changes(rest, c.slot, from, to), from, to, most);
  }

  /** Interval bound on one slot, whatever limits it was checked under. */
  lemma SlotBound(h: seq<Check>, slot: Slot, from: real, to: real, most: int)
    requires from <= to && Ordered(h) && Bounded(h, slot, most) && most > 0
    ensures Granted(h, slot, from, to)
         <= Buckets(most, 1 + Changes(h, slot, from, to)) + Earned(most, to - from)
  {
    AlwaysCovered(h, slot, from, to, most);
    BucketInvariant(h, slot, most);
    BucketsPositive(most, Changes(h, slot, from, to));
    EarnedNatural(most, to - from);
    var o := After(h, slot);
    if o.Some? && from <= o.value.last <= to {
      EarnedNatural(most, to - o.value.last);
      EarnedAdds(most, o.value.last - from, to - o.value.last);
    }
  }

  // ---------------------------------------------------------------- the interval bound on requests

  function Weight(cs: seq<Check>, slot: Slot, from: real, to: real): real {
    if cs == [] then 0.0
    else (if Within(cs[0], slot, from, to) then cs[0].n else 0.0) + Weight(cs[1..], slot, from, to)
  }

  /** What the admitted requests of an interval asked a slot for: their number for a
      requests-per-minute slot, their token estimates for a tokens-per-minute slot. */
  function AdmittedWeight(rs: Run, slot: Slot, from: real, to: real): real {
    if rs == [] then 0.0
    else AdmittedWeight(rs[..|rs| - 1], slot, from, to) +
         (if VerdictAt(rs, |rs| - 1).Admitted? then Weight(rs[|rs| - 1], slot, from, to) else 0.0)
  }

  lemma ScopeChecksAsk(scope: ScopeKind, key: string, ls: Limits, estTokens: int)
    ensures forall c :: c in ScopeChecks(scope, key, ls, estTokens) ==>
              c.n >= 1.0 && (c.slot.dim.Rpm? ==> c.n == 1.0)
  {
  }

  /** Every check asks for at least one token, and a request counts once. */
  lemma ChecksAsk(r: Request)
    ensures forall c :: c in Checks(r) ==> c.n >= 1.0 && (c.slot.dim.Rpm? ==> c.n == 1.0)
  {
    if Truthy(r.user) {
      ScopeChecksAsk(UserLevel, UserKey(r.ws, r.user.value), r.userRl, r.estTokens);
    }
    ScopeChecksAsk(WorkspaceLevel, WorkspaceKey(r.ws), r.workspaceRl, r.estTokens);
    if Truthy(r.client) {
      ScopeChecksAsk(ClientLevel, ClientKey(r.client.value), r.clientRl, r.estTokens);
    }
    ScopeChecksAsk(ModelLevel, ModelKey(r.ws, r.alias), r.modelQuota, r.estTokens);
    var us, ws := UserChecks(r), ScopeChecks(WorkspaceLevel, WorkspaceKey(r.ws), r.workspaceRl, r.estTokens);
    var cs, ms := ClientChecks(r), ScopeChecks(ModelLevel, ModelKey(r.ws, r.alias), r.modelQuota, r.estTokens);
    forall c | c in Checks(r) ensures c in us || c in ws || c in cs || c in ms {
    }
  }

  lemma {:induction false} PerformedIsPrefix(st: Store, cs: seq<Check>)
    ensures Performed(st, cs) <= cs
    decreases |cs|
  {
    if cs != [] {
      PerformedIsPrefix(st[cs[0].slot := Drawn(Lookup(st, cs[0].slot), cs[0]).0], cs[1..]);
    }
  }

  lemma GrantedStep(h: seq<Check>, c: Check, slot: Slot, from: real, to: real)
    ensures Granted(h + [c], slot, from, to)
         == Granted(h, slot, from, to) + (if Within(c, slot, from, to) && Passes(h, c) then c.n else 0.0)
    ensures forall s :: After(h + [c], s) == if s == c.slot then Some(Drawn(After(h, s), c).0) else After(h, s)
  {
    assert (h + [c])[..|h|] == h;
  }

  /** The first check of a request, and the rest. */
  lemma FirstServed(st: Store, cs: seq<Check>, slot: Slot, from: real, to: real)
    requires cs != []
    ensures var (b, ok) := Drawn(Lookup(st, cs[0].slot), cs[0]);
            var st' := st[cs[0].slot := b];
            && Serve(st, cs).1.Admitted? == (ok && Serve(st', cs[1..]).1.Admitted?)
            && Performed(st, cs) == [cs[0]] + (if ok then Performed(st', cs[1..]) else [])
            && Weight(cs, slot, from, to) ==
                 (if Within(cs[0], slot, from, to) then cs[0].n else 0.0) + Weight(cs[1..], slot, from, to)
  {
    hide Drawn, Wait;
  }

  /** An admitted request was granted everything it asked; a refused one may have been debited too. */
  lemma {:induction false} ServedIsGranted(st: Store, h: seq<Check>, cs: seq<Check>, slot: Slot, from: real, to: real)
    requires forall s :: Lookup(st, s) == After(h, s)
    requires forall c :: c in cs ==> c.n >= 0.0
    ensures Granted(h + Performed(st, cs), slot, from, to)
         >= Granted(h, slot, from, to) + (if Serve(st, cs).1.Admitted? then Weight(cs, slot, from, to) else 0.0)
    decreases |cs|
  {
    hide Drawn, Serve, Performed, Weight, Granted, After;
    if cs == [] {
      NothingServed(st, slot, from, to);
      assert h + [] == h;
    } else {
      var c := cs[0];
      var (b, ok) := Drawn(Lookup(st, c.slot), c);
      FirstServed(st, cs, slot, from, to);
      GrantedStep(h, c, slot, from, to);
      if ok {
        var tail := Performed(st[c.slot := b], cs[1..]);
        ServedIsGranted(st[c.slot := b], h + [c], cs[1..], slot, from, to);
        assert h + ([c] + tail) == h + [c] + tail;
      } else {
        assert [c] + [] == [c];
      }
    }
  }

  lemma NothingServed(st: Store, slot: Slot, from: real, to: real)
    ensures Serve(st, []).1.Admitted? && Performed(st, []) == [] && Weight([], slot, from, to) == 0.0
  {
  }

  lemma {:induction false} AdmittedIsGranted(rs: Run, slot: Slot, from: real, to: real)
    requires AsksAreNatural(rs)
    ensures AdmittedWeight(rs, slot, from, to) <= Granted(History(rs), slot, from, to)
  {
    if rs != [] {
      var rest, r := rs[..|rs| - 1], rs[|rs| - 1];
      AdmittedIsGranted(rest, slot, from, to);
      StoreIsItsHistory(rest);
      ServedIsGranted(StoreAfter(rest), History(rest), r, slot, from, to);
    }
  }

  ghost predicate AsksAreNatural(rs: Run) {
    forall i, c :: 0 <= i < |rs| && c in rs[i] ==> c.n >= 0.0
  }

  /** The clock never runs backwards, within a request and from one request to the next. */
  ghost predicate ClockOrdered(rs: Run) {
    && (forall i :: 0 <= i < |rs| ==> Ordered(rs[i]))
    && (forall i, j, c, d :: 0 <= i < j < |rs| && c in rs[i] && d in rs[j] ==> c.takenAt <= d.takenAt)
  }

  ghost predicate LimitsWithin(rs: Run, slot: Slot, most: int) {
    forall i, c :: 0 <= i < |rs| && c in rs[i] && c.slot == slot ==> 0 < c.limit <= most
  }

  lemma {:induction false} HistoryComesFromRequests(rs: Run, k: nat)
    requires k < |History(rs)|
    ensures exists i :: 0 <= i < |rs| && History(rs)[k] in rs[i]
  {
    var rest, r := rs[..|rs| - 1], rs[|rs| - 1];
    if k < |History(rest)| {
      HistoryComesFromRequests(rest, k);
      var i :| 0 <= i < |rest| && History(rest)[k] in rest[i];
      assert History(rs)[k] in rs[i];
    } else {
      PerformedIsPrefix(StoreAfter(rest), r);
      assert History(rs)[k] in rs[|rs| - 1];
    }
  }

  lemma OrderedConcat(h: seq<Check>, p: seq<Check>)
    requires Ordered(h) && Ordered(p)
    requires forall c, d :: c in h && d in p ==> c.takenAt <= d.takenAt
    ensures Ordered(h + p)
  {
    var s := h + p;
    forall i, j | 0 <= i < j < |s| ensures s[i].takenAt <= s[j].takenAt {
      if i < |h| <= j {
        assert s[i] in h && s[j] in p;
      }
    }
  }

  lemma HistoryPrecedes(rest: Run, cs: seq<Check>, c: Check, d: Check)
    requires ClockOrdered(rest + [cs]) && c in History(rest) && d in cs
    ensures c.takenAt <= d.takenAt
  {
    var i :| 0 <= i < |History(rest)| && History(rest)[i] == c;
    HistoryComesFromRequests(rest, i);
    var k :| 0 <= k < |rest| && c in rest[k];
    assert (rest + [cs])[k] == rest[k] && (rest + [cs])[|rest|] == cs;
  }

  lemma LastHistory(rs: Run)
    requires rs != []
    ensures var rest := rs[..|rs| - 1];
            History(rs) == History(rest) + Performed(StoreAfter(rest), rs[|rs| - 1])
  {
    hide Performed, StoreAfter;
  }

  lemma {:induction false} HistoryIsOrdered(rs: Run)
    requires ClockOrdered(rs)
    ensures Ordered(History(rs))
  {
    if rs != [] {
      hide History, Performed, StoreAfter, Ordered, ClockOrdered;
      var rest, cs := rs[..|rs| - 1], rs[|rs| - 1];
      assert rs == rest + [cs];
      ClockSplits(rs);
      var p := Performed(StoreAfter(rest), cs);
      HistoryIsOrdered(rest);
      PerformedIsPrefix(StoreAfter(rest), cs);
      PrefixIsOrdered(p, cs);
      forall c, d | c in History(rest) && d in p ensures c.takenAt <= d.takenAt {
        HistoryPrecedes(rest, cs, c, d);
      }
      LastHistory(rs);
      OrderedConcat(History(rest), p);
    }
  }

  lemma ClockSplits(rs: Run)
    requires ClockOrdered(rs) && rs != []
    ensures ClockOrdered(rs[..|rs| - 1]) && Ordered(rs[|rs| - 1])
  {
    hide Ordered;
  }

  lemma PrefixIsOrdered(p: seq<Check>, cs: seq<Check>)
    requires p <= cs && Ordered(cs)
    ensures Ordered(p) && forall d :: d in p ==> d in cs
  {
  }

  lemma HistoryIsBounded(rs: Run, slot: Slot, most: int)
    requires LimitsWithin(rs, slot, most) && AsksAreNatural(rs)
    ensures Bounded(History(rs), slot, most)
  {
    var h := History(rs);
    forall k | 0 <= k < |h| && h[k].slot == slot
      ensures 0 < h[k].limit <= most && h[k].n >= 0.0
    {
      HistoryComesFromRequests(rs, k);
      var i :| 0 <= i < |rs| && h[k] in rs[i];
    }
  }

  lemma RunBound(rs: Run, slot: Slot, from: real, to: real, most: int)
    requires from <= to && ClockOrdered(rs) && LimitsWithin(rs, slot, most) && AsksAreNatural(rs) && most > 0
    ensures AdmittedWeight(rs, slot, from, to)
         <= Buckets(most, 1 + Changes(History(rs), slot, from, to)) + Earned(most, to - from)
  {
    hide History, AdmittedWeight, Changes, Buckets, Earned, ClockOrdered, LimitsWithin, AsksAreNatural;
    HistoryIsOrdered(rs);
    HistoryIsBounded(rs, slot, most);
    AdmittedIsGranted(rs, slot, from, to);
    SlotBound(History(rs), slot, from, to, most);
  }

  lemma RequestsAskNaturally(reqs: seq<Request>)
    ensures AsksAreNatural(RunOf(reqs))
  {
    forall i, c: Check | 0 <= i < |reqs| && c in RunOf(reqs)[i] ensures c.n >= 0.0 {
      ChecksAsk(reqs[i]);
    }
  }

  /** Token-bucket interval bound: in every run, for every slot of every scope, what is admitted
      over an interval is at most one capacity, what a minute's limit earns in that time, and one
      fresh capacity for each change of the limit; refusals of later scopes change nothing. */
  lemma {:induction false} IntervalBound(reqs: seq<Request>, slot: Slot, from: real, to: real, most: int)
    requires from <= to && most > 0
    requires ClockOrdered(RunOf(reqs)) && LimitsWithin(RunOf(reqs), slot, most)
    ensures AdmittedWeight(RunOf(reqs), slot, from, to)
         <= Buckets(most, 1 + Changes(History(RunOf(reqs)), slot, from, to)) + (to - from) * (most as real / 60.0)
  {
    hide History, AdmittedWeight, Changes, Buckets, ClockOrdered, LimitsWithin, AsksAreNatural, RunOf;
    RequestsAskNaturally(reqs);
    RunBound(RunOf(reqs), slot, from, to, most);
  }

  lemma {:induction false} ConstantLimitNeverChanges(h: seq<Check>, slot: Slot, from: real, to: real, limit: int)
    requires forall k :: 0 <= k < |h| && h[k].slot == slot ==> h[k].limit == limit
    ensures Changes(h, slot, from, to) == 0
    ensures LastLimit(h, slot).Some? ==> LastLimit(h, slot) == Some(limit)
  {
    if h != [] {
      ConstantLimitNeverChanges(h[..|h| - 1], slot, from, to, limit);
    }
  }

  lemma ConstantLimitHistory(rs: Run, slot: Slot, from: real, to: real, limit: int)
    requires forall i, c :: 0 <= i < |rs| && c in rs[i] && c.slot == slot ==> c.limit == limit
    ensures Changes(History(rs), slot, from, to) == 0
  {
    hide History, Changes;
    var h := History(rs);
    forall k | 0 <= k < |h| && h[k].slot == slot ensures h[k].limit == limit {
      HistoryComesFromRequests(rs, k);
    }
    ConstantLimitNeverChanges(h, slot, from, to, limit);
  }

  lemma RunBoundConstantLimit(rs: Run, slot: Slot, from: real, to: real, limit: int)
    requires from <= to && ClockOrdered(rs) && AsksAreNatural(rs) && limit > 0
    requires forall i, c :: 0 <= i < |rs| && c in rs[i] && c.slot == slot ==> c.limit == limit
    ensures AdmittedWeight(rs, slot, from, to) <= Buckets(limit, 1) + Earned(limit, to - from)
  {
    hide History, AdmittedWeight, Changes, Buckets, Earned, ClockOrdered, AsksAreNatural;
    ConstantLimitHistory(rs, slot, from, to, limit);
    RunBound(rs, slot, from, to, limit);
  }

  /** Under a constant limit `L`, at most `L + L * T / 60` over any interval of length `T`. */
  lemma {:induction false} IntervalBoundConstantLimit(reqs: seq<Request>, slot: Slot, from: real, to: real, limit: int)
    requires from <= to && limit > 0 && ClockOrdered(RunOf(reqs))
    requires forall i, c :: 0 <= i < |reqs| && c in RunOf(reqs)[i] && c.slot == slot ==> c.limit == limit
    ensures AdmittedWeight(RunOf(reqs), slot, from, to) <= limit as real + limit as real * (to - from) / 60.0
  {
    hide AdmittedWeight, ClockOrdered, AsksAreNatural, Checks;
    RequestsAskNaturally(reqs);
    RunBoundConstantLimit(RunOf(reqs), slot, from, to, limit);
    assert Buckets(limit, 1) == Buckets(limit, 0) + limit as real;
  }

  // ---------------------------------------------------------------- tenant non-interference

  predicate Agree(st: Store, st': Store, slots: set<Slot>) {
    forall s :: s in slots ==> Lookup(st, s) == Lookup(st', s)
  }

  function SlotsOf(cs: seq<Check>): set<Slot> {
    set c | c in cs :: c.slot
  }

  /** A verdict depends on the request's own slots only, and changes no others. */
  lemma {:induction false} ServeIsLocal(st: Store, st': Store, cs: seq<Check>, slots: set<Slot>)
    requires Agree(st, st', slots) && SlotsOf(cs) <= slots
    ensures Serve(st, cs).1 == Serve(st', cs).1
    ensures Agree(Serve(st, cs).0, Serve(st', cs).0, slots)
    decreases |cs|
  {
    if cs != [] {
      var c := cs[0];
      assert c.slot in SlotsOf(cs);
      var b := Drawn(Lookup(st, c.slot), c).0;
      assert forall d :: d in cs[1..] ==> d in cs;
      ServeIsLocal(st[c.slot := b], st'[c.slot := b], cs[1..], slots);
    }
  }

  lemma {:induction false} ServeLeavesOthers(st: Store, cs: seq<Check>, slots: set<Slot>)
    requires SlotsOf(cs) !! slots
    ensures Agree(Serve(st, cs).0, st, slots)
    decreases |cs|
  {
    if cs != [] {
      var c := cs[0];
      assert c.slot in SlotsOf(cs);
      assert forall d :: d in cs[1..] ==> d in cs;
      ServeLeavesOthers(st[c.slot := Drawn(Lookup(st, c.slot), c).0], cs[1..], slots);
    }
  }

  lemma SlotKinds(r: Request, c: Check)
    requires c in Checks(r)
    ensures || (Truthy(r.user) && c.slot.key == UserKey(r.ws, r.user.value))
            || c.slot.key == WorkspaceKey(r.ws)
            || (Truthy(r.client) && c.slot.key == ClientKey(r.client.value))
            || c.slot.key == ModelKey(r.ws, r.alias)
  {
    hide Checks, UserKey, WorkspaceKey, ClientKey, ModelKey;
    ChecksAreTheLimits(r, c);
  }

  predicate Strangers(r: Request, q: Request) {
    r.ws != q.ws && (Truthy(r.client) && Truthy(q.client) ==> r.client != q.client)
  }

  /** Requests that share neither workspace nor client share no slot, if no workspace id has a colon. */
  lemma StrangersShareNoSlot(r: Request, q: Request)
    requires NoColon(r.ws) && NoColon(q.ws) && Strangers(r, q)
    ensures SlotsOf(Checks(r)) !! SlotsOf(Checks(q))
  {
    forall c, d | c in Checks(r) && d in Checks(q)
      ensures c.slot.key != d.slot.key
    {
      SlotKinds(r, c);
      SlotKinds(q, d);
      if c.slot.key == d.slot.key {
        SharedKeyMeansShared(r, q, c.slot.key);
      }
    }
  }

  predicate KeyOf(r: Request, key: string) {
    || (Truthy(r.user) && key == UserKey(r.ws, r.user.value))
    || key == WorkspaceKey(r.ws)
    || (Truthy(r.client) && key == ClientKey(r.client.value))
    || key == ModelKey(r.ws, r.alias)
  }

  predicate OfItsKind(r: Request, key: string) {
    && key != ""
    && (key[0] == 'u' ==> Truthy(r.user) && key == UserKey(r.ws, r.user.value))
    && (key[0] == 'w' ==> key == WorkspaceKey(r.ws))
    && (key[0] == 'c' ==> Truthy(r.client) && key == ClientKey(r.client.value))
    && (key[0] !in "uwc" ==> key == ModelKey(r.ws, r.alias))
  }

  /** The first letter of a request's key tells which kind it is. */
  lemma KindsOf(r: Request)
    ensures forall key :: KeyOf(r, key) ==> OfItsKind(r, key)
  {
    hide UserKey, WorkspaceKey, ClientKey, ModelKey;
    var user, client := if Truthy(r.user) then r.user.value else "", if Truthy(r.client) then r.client.value else "";
    KindsDiffer(r.ws, user, client, r.alias);
  }

  lemma SharedKeyMeansShared(r: Request, q: Request, key: string)
    requires NoColon(r.ws) && NoColon(q.ws) && KeyOf(r, key) && KeyOf(q, key)
    ensures r.ws == q.ws || (Truthy(r.client) && r.client == q.client)
  {
    hide UserKey, WorkspaceKey, ClientKey, ModelKey;
    KindsOf(r);
    KindsOf(q);
    match key[0]
    case 'u' => UserKeyInjective(r.ws, r.user.value, q.ws, q.user.value);
    case 'w' => WorkspaceKeyInjective(r.ws, q.ws);
    case 'c' => ClientKeyInjective(r.client.value, q.client.value);
    case _ => ModelKeyInjective(r.ws, r.alias, q.ws, q.alias);
  }

  /** The members of one group, in order. */
  function Group<T>(xs: seq<T>, mine: seq<bool>): seq<T>
    requires |mine| == |xs|
  {
    if xs == [] then []
    else Group(xs[..|xs| - 1], mine[..|xs| - 1]) + (if mine[|xs| - 1] then [xs[|xs| - 1]] else [])
  }

  /** The verdicts of a run, in order. */
  function Verdicts(rs: Run): seq<Verdict> {
    if rs == [] then [] else Verdicts(rs[..|rs| - 1]) + [VerdictAt(rs, |rs| - 1)]
  }

  lemma {:induction false} OneVerdictEach(rs: Run)
    ensures |Verdicts(rs)| == |rs|
    ensures forall i :: 0 <= i < |rs| ==> Verdicts(rs)[i] == VerdictAt(rs, i)
  {
    if rs != [] {
      var rest := rs[..|rs| - 1];
      OneVerdictEach(rest);
      assert forall i :: 0 <= i < |rest| ==> rest[..i] == rs[..i];
    }
  }

  lemma RunStep(rs: Run, cs: seq<Check>)
    ensures StoreAfter(rs + [cs]) == Serve(StoreAfter(rs), cs).0
    ensures Verdicts(rs + [cs]) == Verdicts(rs) + [Serve(StoreAfter(rs), cs).1]
  {
    assert (rs + [cs])[..|rs|] == rs;
  }

  /** Against any set of slots that holds the group's own and none of the others', the mixed run
      and the group's run stay in step. */
  lemma {:induction false} RunsStayInStep(rs: Run, mine: seq<bool>, slots: set<Slot>)
    requires |mine| == |rs|
    requires forall i :: 0 <= i < |rs| && mine[i] ==> SlotsOf(rs[i]) <= slots
    requires forall i :: 0 <= i < |rs| && !mine[i] ==> SlotsOf(rs[i]) !! slots
    ensures Agree(StoreAfter(rs), StoreAfter(Group(rs, mine)), slots)
    ensures |Verdicts(rs)| == |rs| && Group(Verdicts(rs), mine) == Verdicts(Group(rs, mine))
  {
    OneVerdictEach(rs);
    if rs != [] {
      var rest, cs, mine' := rs[..|rs| - 1], rs[|rs| - 1], mine[..|rs| - 1];
      RunsStayInStep(rest, mine', slots);
      assert rs == rest + [cs];
      RunStep(rest, cs);
      assert Verdicts(rs)[..|rest|] == Verdicts(rest);
      if mine[|rs| - 1] {
        ServeIsLocal(StoreAfter(rest), StoreAfter(Group(rest, mine')), cs, slots);
        RunStep(Group(rest, mine'), cs);
      } else {
        ServeLeavesOthers(StoreAfter(rest), cs, slots);
        assert Group(rs, mine) == Group(rest, mine');
      }
    }
  }

  /** The slots a group uses. */
  function GroupSlots(rs: Run, mine: seq<bool>): set<Slot>
    requires |mine| == |rs|
  {
    set i, c | 0 <= i < |rs| && mine[i] && c in rs[i] :: c.slot
  }

  lemma {:induction false} GroupOfRun(reqs: seq<Request>, mine: seq<bool>)
    requires |mine| == |reqs|
    ensures Group(RunOf(reqs), mine) == RunOf(Group(reqs, mine))
  {
    if reqs != [] {
      GroupOfRun(reqs[..|reqs| - 1], mine[..|reqs| - 1]);
      assert RunOf(reqs)[..|reqs| - 1] == RunOf(reqs[..|reqs| - 1]);
    }
  }

  /** Tenant non-interference: a group that shares no workspace and no client with the rest gets
      the same verdicts, waits included, as if the rest had never been there. */
  lemma {:induction false} NonInterference(reqs: seq<Request>, mine: seq<bool>)
    requires |mine| == |reqs|
    requires forall i :: 0 <= i < |reqs| ==> NoColon(reqs[i].ws)
    requires forall i, j :: 0 <= i < |reqs| && 0 <= j < |reqs| && mine[i] && !mine[j] ==> Strangers(reqs[i], reqs[j])
    ensures |Verdicts(RunOf(reqs))| == |reqs|
    ensures Group(Verdicts(RunOf(reqs)), mine) == Verdicts(RunOf(Group(reqs, mine)))
  {
    var rs := RunOf(reqs);
    var slots := GroupSlots(rs, mine);
    forall j | 0 <= j < |rs| && !mine[j] ensures SlotsOf(rs[j]) !! slots {
      forall i, c: Check | 0 <= i < |rs| && mine[i] && c in rs[i] ensures c.slot !in SlotsOf(rs[j]) {
        StrangersShareNoSlot(reqs[i], reqs[j]);
        assert c.slot in SlotsOf(rs[i]);
      }
    }
    RunsStayInStep(rs, mine, slots);
    GroupOfRun(reqs, mine);
  }
}
