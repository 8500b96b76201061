/** The in-memory multi-scope token-bucket limiter.

    Clock readings are part of each request: every check carries the time at which its bucket
    would be created and the time at which it takes. */
module RateLimit {
  import opened Common
  import opened Keys

  datatype Dim = Rpm | Tpm
  datatype ScopeKind = UserLevel | WorkspaceLevel | ClientLevel | ModelLevel
  datatype Slot = Slot(dim: Dim, key: string)

  // ---------------------------------------------------------------- one bucket

  datatype BucketState = BucketState(capacity: real, tokens: real, refillPerSec: real, last: real)

  function Min(x: real, y: real): real {
    if x <= y then x else y
  }

  function Max(x: real, y: real): real {
    if x >= y then x else y
  }

  function Refilled(b: BucketState, now: real): BucketState {
    b.(tokens := Min(b.capacity, b.tokens + (now - b.last) * b.refillPerSec), last := now)
  }

  function Taken(b: BucketState, n: real, now: real): (BucketState, bool) {
    var f := Refilled(b, now);
    if f.tokens >= n then (f.(tokens := f.tokens - n), true) else (f, false)
  }

  function FullBucket(limit: int, now: real): BucketState {
    BucketState(limit as real, limit as real, limit as real / 60.0, now)
  }

  function Wait(b: BucketState, n: real): real {
    if b.refillPerSec <= 0.0 then 60.0 else Max(0.0, (n - b.tokens) / b.refillPerSec)
  }

  /** A refused caller who waits until `t`, with nobody else taking, is served exactly when the
      advertised wait has passed, provided the bucket can ever hold that much. */
  lemma WaitIsExact(b: BucketState, n: real, t: real)
    requires b.refillPerSec > 0.0 && n <= b.capacity && t >= b.last
    ensures Taken(b, n, t).1 <==> t >= b.last + Wait(b, n)
  {
    var earned, q := (t - b.last) * b.refillPerSec, (n - b.tokens) / b.refillPerSec;
    DivVersusMul(n - b.tokens, b.refillPerSec, t - b.last);
    assert Refilled(b, t).tokens == Min(b.capacity, b.tokens + earned);
    assert Wait(b, n) == Max(0.0, q);
    hide Refilled, Wait;
    assert Taken(b, n, t).1 <==> earned >= n - b.tokens;
  }

  /** More than the capacity is never available, however long the wait. */
  lemma BeyondCapacityNever(b: BucketState, n: real, t: real)
    requires n > b.capacity
    ensures !Taken(b, n, t).1
  {
  }

  lemma DivVersusMul(m: real, r: real, x: real)
    requires r > 0.0
    ensures x * r >= m <==> x >= m / r
  {
    var q := m / r;
    assert q * r == m;
    if x >= q {
      assert (x - q) * r >= 0.0;
    } else {
      assert (q - x) * r > 0.0;
    }
  }

  class Bucket {
    const capacity: real
    var tokens: real
    const refillPerSec: real
    var last: real

    ghost function Value(): BucketState
      reads this
    {
      BucketState(capacity, tokens, refillPerSec, last)
    }

    constructor (limit: int, now: real)
      ensures Value() == FullBucket(limit, now)
    {
      capacity, tokens, refillPerSec, last := limit as real, limit as real, limit as real / 60.0, now;
    }

    method Take(n: real, now: real) returns (ok: bool)
      modifies this
      ensures Value() == Taken(old(Value()), n, now).0
      ensures ok == Taken(old(Value()), n, now).1
    {
      ghost var f := Refilled(Value(), now);
      tokens := Min(capacity, tokens + (now - last) * refillPerSec);
      last := now;
      assert Value() == f;
      hide Refilled, Min;
      if tokens >= n {
        tokens := tokens - n;
        return true;
      }
      return false;
    }

    method SecondsUntil(n: real) returns (s: real)
      ensures s == Wait(Value(), n)
    {
      if refillPerSec <= 0.0 {
        return 60.0;
      }
      s := Max(0.0, (n - tokens) / refillPerSec);
    }
  }

  // ---------------------------------------------------------------- requests and their checks

  /** One dimension's limit in one scope, with the two clock readings of its check. */
  datatype Limit = Limit(perMinute: Option<int>, createdAt: real, takenAt: real)
  datatype Limits = Limits(rpm: Limit, tpm: Limit)

  datatype Request = Request(client: Option<string>, ws: string, user: Option<string>, alias: string,
                             userRl: Limits, workspaceRl: Limits, clientRl: Limits, modelQuota: Limits,
                             estTokens: int)

  datatype Check = Check(scope: ScopeKind, slot: Slot, limit: int, n: real, createdAt: real, takenAt: real)

  /** A missing or zero limit is no limit. */
  function DimChecks(scope: ScopeKind, slot: Slot, l: Limit, n: real): seq<Check> {
    if l.perMinute.Some? && l.perMinute.value != 0 then
      [Check(scope, slot, l.perMinute.value, n, l.createdAt, l.takenAt)]
    else []
  }

  /** Tokens asked for: at least one. */
  function Need(estTokens: int): real {
    if estTokens > 1 then estTokens as real else 1.0
  }

  function ScopeChecks(scope: ScopeKind, key: string, ls: Limits, estTokens: int): seq<Check> {
    DimChecks(scope, Slot(Rpm, key), ls.rpm, 1.0) + DimChecks(scope, Slot(Tpm, key), ls.tpm, Need(estTokens))
  }

  function UserChecks(r: Request): seq<Check> {
    if Truthy(r.user) then ScopeChecks(UserLevel, UserKey(r.ws, r.user.value), r.userRl, r.estTokens) else []
  }

  function ClientChecks(r: Request): seq<Check> {
    if Truthy(r.client) then ScopeChecks(ClientLevel, ClientKey(r.client.value), r.clientRl, r.estTokens) else []
  }

  /** Everything a request must pass, in the order user, workspace, client, model. */
  function Checks(r: Request): seq<Check> {
    UserChecks(r)
    + ScopeChecks(WorkspaceLevel, WorkspaceKey(r.ws), r.workspaceRl, r.estTokens)
    + ClientChecks(r)
    + ScopeChecks(ModelLevel, ModelKey(r.ws, r.alias), r.modelQuota, r.estTokens)
  }

  // ---------------------------------------------------------------- the store of buckets

  type Store = map<Slot, BucketState>

  datatype Verdict = Admitted | Refused(scope: ScopeKind, dim: Dim, wait: real)

  function Lookup(st: Store, slot: Slot): Option<BucketState> {
    if slot in st then Some(st[slot]) else None
  }

  /** The bucket a check draws on: the stored one, or a full one if its capacity is not the limit. */
  function BucketFor(o: Option<BucketState>, limit: int, now: real): BucketState {
    if o.None? || o.value.capacity != limit as real then FullBucket(limit, now) else o.value
  }

  function Drawn(o: Option<BucketState>, c: Check): (BucketState, bool) {
    Taken(BucketFor(o, c.limit, c.createdAt), c.n, c.takenAt)
  }

  /** Serving the checks in order until one fails. */
  function Serve(st: Store, cs: seq<Check>): (Store, Verdict)
    decreases |cs|
  {
    if cs == [] then (st, Admitted)
    else
      var c := cs[0];
      var (b, ok) := Drawn(Lookup(st, c.slot), c);
      if ok then Serve(st[c.slot := b], cs[1..])
      else (st[c.slot := b], Refused(c.scope, c.slot.dim, Wait(b, c.n)))
  }

  lemma {:induction false} ServeConcat(st: Store, cs: seq<Check>, ds: seq<Check>)
    ensures var (st1, v) := Serve(st, cs);
            Serve(st, cs + ds) == if v.Admitted? then Serve(st1, ds) else (st1, v)
    decreases |cs|
  {
    if cs == [] {
      assert cs + ds == ds;
    } else {
      assert (cs + ds)[1..] == cs[1..] + ds;
      ServeConcat(st[cs[0].slot := Drawn(Lookup(st, cs[0].slot), cs[0]).0], cs[1..], ds);
    }
  }

  lemma ServeNothing(st: Store)
    ensures Serve(st, []) == (st, Admitted)
  {
  }

  lemma ServeOne(st: Store, c: Check)
    ensures var (b, ok) := Drawn(Lookup(st, c.slot), c);
            Serve(st, [c]) == (st[c.slot := b], if ok then Admitted else Refused(c.scope, c.slot.dim, Wait(b, c.n)))
  {
    hide Drawn, Wait;
    assert [c][1..] == [];
    ServeNothing(st[c.slot := Drawn(Lookup(st, c.slot), c).0]);
  }

  /** How many checks pass in a row. */
  function Passing(st: Store, cs: seq<Check>): (k: nat)
    ensures k <= |cs|
    decreases |cs|
  {
    if cs == [] then 0
    else
      var (b, ok) := Drawn(Lookup(st, cs[0].slot), cs[0]);
      if ok then Passing(st[cs[0].slot := b], cs[1..]) + 1 else 0
  }

  /** The first check that fails decides: it alone is named, with its bucket's wait, and no later
      check draws on a bucket. */
  lemma {:induction false} FirstViolationWins(st: Store, cs: seq<Check>)
    ensures var k := Passing(st, cs);
            && Serve(st, cs[..k]).1.Admitted?
            && (k == |cs| <==> Serve(st, cs).1.Admitted?)
            && (k < |cs| ==>
                 var (b, ok) := Drawn(Lookup(Serve(st, cs[..k]).0, cs[k].slot), cs[k]);
                 && !ok
                 && Serve(st, cs) == (Serve(st, cs[..k]).0[cs[k].slot := b],
                                      Refused(cs[k].scope, cs[k].slot.dim, Wait(b, cs[k].n))))
    decreases |cs|
  {
    hide Drawn, Wait;
    if cs != [] {
      var (b, ok) := Drawn(Lookup(st, cs[0].slot), cs[0]);
      if ok {
        FirstViolationWins(st[cs[0].slot := b], cs[1..]);
        var k := Passing(st[cs[0].slot := b], cs[1..]);
        assert cs[..k + 1][1..] == cs[1..][..k];
      }
    }
  }

  // ---------------------------------------------------------------- what a request must pass

  function Rank(scope: ScopeKind): nat {
    match scope
    case UserLevel => 0
    case WorkspaceLevel => 1
    case ClientLevel => 2
    case ModelLevel => 3
  }

  predicate Before(c: Check, d: Check) {
    Rank(c.scope) < Rank(d.scope) || (c.scope == d.scope && c.slot.dim.Rpm? && d.slot.dim.Tpm?)
  }

  predicate InOrder(cs: seq<Check>) {
    forall i, j :: 0 <= i < j < |cs| ==> Before(cs[i], cs[j])
  }

  lemma OrderedJoin(cs: seq<Check>, ds: seq<Check>, rank: nat)
    requires InOrder(cs) && InOrder(ds)
    requires forall i :: 0 <= i < |cs| ==> Rank(cs[i].scope) < rank
    requires forall j :: 0 <= j < |ds| ==> Rank(ds[j].scope) == rank
    ensures InOrder(cs + ds) && forall i :: 0 <= i < |cs + ds| ==> Rank((cs + ds)[i].scope) < rank + 1
  {
    hide Rank;
    forall i, j | 0 <= i < j < |cs + ds| ensures Before((cs + ds)[i], (cs + ds)[j]) {
      if j >= |cs| && i >= |cs| {
        assert Before(ds[i - |cs|], ds[j - |cs|]);
      } else if j < |cs| {
        assert Before(cs[i], cs[j]);
      }
    }
  }

  lemma ScopeInOrder(scope: ScopeKind, key: string, ls: Limits, estTokens: int)
    ensures var cs := ScopeChecks(scope, key, ls, estTokens);
            InOrder(cs) && forall i :: 0 <= i < |cs| ==> cs[i].scope == scope
  {
    hide Need;
  }

  /** User, workspace, client, model; in each requests before tokens. */
  lemma {:induction false} ChecksAreInOrder(r: Request)
    ensures InOrder(Checks(r))
  {
    hide UserKey, WorkspaceKey, ClientKey, ModelKey, Before, ScopeChecks, InOrder;
    var user, client := UserChecks(r), ClientChecks(r);
    var ws := ScopeChecks(WorkspaceLevel, WorkspaceKey(r.ws), r.workspaceRl, r.estTokens);
    var model := ScopeChecks(ModelLevel, ModelKey(r.ws, r.alias), r.modelQuota, r.estTokens);
    NoneInOrder();
    ScopeInOrder(UserLevel, UserKey(r.ws, if r.user.Some? then r.user.value else ""), r.userRl, r.estTokens);
    ScopeInOrder(WorkspaceLevel, WorkspaceKey(r.ws), r.workspaceRl, r.estTokens);
    ScopeInOrder(ClientLevel, ClientKey(if r.client.Some? then r.client.value else ""), r.clientRl, r.estTokens);
    ScopeInOrder(ModelLevel, ModelKey(r.ws, r.alias), r.modelQuota, r.estTokens);
    OrderedJoin(user, ws, 1);
    OrderedJoin(user + ws, client, 2);
    OrderedJoin(user + ws + client, model, 3);
  }

  lemma NoneInOrder()
    ensures InOrder([])
  {
  }

  /** The key and limits of a scope, if the request has one. */
  function Configured(r: Request, scope: ScopeKind): Option<(string, Limits)> {
    match scope
    case UserLevel => if Truthy(r.user) then Some((UserKey(r.ws, r.user.value), r.userRl)) else None
    case WorkspaceLevel => Some((WorkspaceKey(r.ws), r.workspaceRl))
    case ClientLevel => if Truthy(r.client) then Some((ClientKey(r.client.value), r.clientRl)) else None
    case ModelLevel => Some((ModelKey(r.ws, r.alias), r.modelQuota))
  }

  predicate Demands(r: Request, c: Check) {
    var o := Configured(r, c.scope);
    o.Some? && c.slot.key == o.value.0 &&
    var l := if c.slot.dim.Rpm? then o.value.1.rpm else o.value.1.tpm;
    && l.perMinute == Some(c.limit) && c.limit != 0
    && c.createdAt == l.createdAt && c.takenAt == l.takenAt
    && IsAsked(c, r.estTokens)
  }

  /** A request counts once; tokens are asked for as estimated, but at least one. */
  predicate IsAsked(c: Check, estTokens: int) {
    && (c.slot.dim.Rpm? ==> c.n == 1.0)
    && (c.slot.dim.Tpm? ==> c.n >= 1.0 && c.n >= estTokens as real && (c.n == 1.0 || c.n == estTokens as real))
  }

  /** Every configured limit is checked, and nothing else. */
  lemma {:induction false} ChecksAreTheLimits(r: Request, c: Check)
    ensures c in Checks(r) <==> Demands(r, c)
  {
    hide UserKey, WorkspaceKey, ClientKey, ModelKey, Need, IsAsked;
    ScopeChecksAre(UserLevel, if Truthy(r.user) then UserKey(r.ws, r.user.value) else "", r.userRl, r.estTokens, c);
    ScopeChecksAre(WorkspaceLevel, WorkspaceKey(r.ws), r.workspaceRl, r.estTokens, c);
    ScopeChecksAre(ClientLevel, if Truthy(r.client) then ClientKey(r.client.value) else "", r.clientRl, r.estTokens, c);
    ScopeChecksAre(ModelLevel, ModelKey(r.ws, r.alias), r.modelQuota, r.estTokens, c);
    hide ScopeChecks;
  }

  lemma ScopeChecksAre(scope: ScopeKind, key: string, ls: Limits, estTokens: int, c: Check)
    ensures c in ScopeChecks(scope, key, ls, estTokens) <==>
      && c.scope == scope && c.slot.key == key
      && var l := if c.slot.dim.Rpm? then ls.rpm else ls.tpm;
         && l.perMinute == Some(c.limit) && c.limit != 0
         && c.createdAt == l.createdAt && c.takenAt == l.takenAt
         && IsAsked(c, estTokens)
  {
  }

  class RateLimiter {
    var buckets: map<Slot, Bucket>

    /** No two slots share a bucket object. */
    ghost predicate Valid()
      reads this
    {
      forall s, t :: s in buckets && t in buckets && s != t ==> buckets[s] != buckets[t]
    }

    ghost function Repr(): set<Bucket>
      reads this
    {
      set s | s in buckets :: buckets[s]
    }

    ghost function Value(): Store
      reads this, Repr()
    {
      map s | s in buckets :: buckets[s].Value()
    }

    constructor ()
      ensures Valid() && Value() == map[]
    {
      buckets := map[];
    }

    method BucketAt(slot: Slot, limit: int, now: real) returns (b: Bucket)
      requires Valid()
      modifies this
      ensures Valid() && slot in buckets && buckets[slot] == b
      ensures forall s :: s in old(buckets) && s != slot ==> s in buckets && buckets[s] == old(buckets[s])
      ensures forall s :: s in buckets && s != slot ==> s in old(buckets)
      ensures b in old(Repr()) || fresh(b)
      ensures b.Value() == BucketFor(old(Lookup(Value(), slot)), limit, now)
    {
      if slot !in buckets || buckets[slot].capacity != limit as real {
        b := new Bucket(limit, now);
        buckets := buckets[slot := b];
      } else {
        b := buckets[slot];
      }
    }

    /** Finds the bucket and draws from it. */
    method Draw(c: Check) returns (b: Bucket, ok: bool)
      requires Valid()
      modifies this, Repr()
      ensures Valid() && fresh(Repr() - old(Repr()))
      ensures (b.Value(), ok) == Drawn(old(Lookup(Value(), c.slot)), c)
      ensures Value() == old(Value())[c.slot := b.Value()]
    {
      hide Taken, BucketFor, FullBucket, Lookup;
      b := BucketAt(c.slot, c.limit, c.createdAt);
      ok := b.Take(c.n, c.takenAt);
      assert forall s :: s in buckets && s != c.slot ==> buckets[s].Value() == old(buckets[s].Value());
    }

    /** One check: draw, and say how long to wait if that is refused. */
    method CheckOne(c: Check) returns (v: Verdict)
      requires Valid()
      modifies this, Repr()
      ensures Valid() && fresh(Repr() - old(Repr()))
      ensures (Value(), v) == Serve(old(Value()), [c])
    {
      hide Serve, Drawn, Wait;
      ServeOne(Value(), c);
      var b, ok := Draw(c);
      if ok {
        v := Admitted;
      } else {
        var wait := b.SecondsUntil(c.n);
        v := Refused(c.scope, c.slot.dim, wait);
      }
    }

    method CheckScope(scope: ScopeKind, key: string, ls: Limits, estTokens: int) returns (v: Verdict)
      requires Valid()
      modifies this, Repr()
      ensures Valid() && fresh(Repr() - old(Repr()))
      ensures (Value(), v) == Serve(old(Value()), ScopeChecks(scope, key, ls, estTokens))
    {
      hide Drawn, Wait;
      v := Admitted;
      ghost var rpm, tpm := DimChecks(scope, Slot(Rpm, key), ls.rpm, 1.0),
                            DimChecks(scope, Slot(Tpm, key), ls.tpm, Need(estTokens));
      ServeConcat(Value(), rpm, tpm);
      if ls.rpm.perMinute.Some? && ls.rpm.perMinute.value != 0 {
        v := CheckOne(Check(scope, Slot(Rpm, key), ls.rpm.perMinute.value, 1.0, ls.rpm.createdAt, ls.rpm.takenAt));
        if !v.Admitted? {
          return;
        }
      }
      if ls.tpm.perMinute.Some? && ls.tpm.perMinute.value != 0 {
        v := CheckOne(Check(scope, Slot(Tpm, key), ls.tpm.perMinute.value, Need(estTokens),
                            ls.tpm.createdAt, ls.tpm.takenAt));
      }
    }

    method CheckMultiScope(r: Request) returns (v: Verdict)
      requires Valid()
      modifies this, Repr()
      ensures Valid() && fresh(Repr() - old(Repr()))
      ensures (Value(), v) == Serve(old(Value()), Checks(r))
    {
      hide Serve, ScopeChecks, UserKey, WorkspaceKey, ClientKey, ModelKey;
      ghost var st := Value();
      ghost var us, ws := UserChecks(r), ScopeChecks(WorkspaceLevel, WorkspaceKey(r.ws), r.workspaceRl, r.estTokens);
      ghost var cs, ms := ClientChecks(r), ScopeChecks(ModelLevel, ModelKey(r.ws, r.alias), r.modelQuota, r.estTokens);
      ServeConcat(st, us, ws);
      ServeConcat(st, us + ws, cs);
      ServeConcat(st, us + ws + cs, ms);
      v := Admitted;
      if Truthy(r.user) {
        v := CheckScope(UserLevel, UserKey(r.ws, r.user.value), r.userRl, r.estTokens);
        if !v.Admitted? {
          return;
        }
      } else {
        ServeNothing(st);
      }
      v := CheckScope(WorkspaceLevel, WorkspaceKey(r.ws), r.workspaceRl, r.estTokens);
      if !v.Admitted? {
        return;
      }
      if Truthy(r.client) {
        v := CheckScope(ClientLevel, ClientKey(r.client.value), r.clientRl, r.estTokens);
        if !v.Admitted? {
          return;
        }
      } else {
        ServeNothing(Value());
      }
      v := CheckScope(ModelLevel, ModelKey(r.ws, r.alias), r.modelQuota, r.estTokens);
    }
  }
}
