/** Budget enforcement: the live-spend delta, the spend cache and the hierarchical caps.

    `SpendTracker` holds the two module dictionaries and updates them in place. A request's
    check is split by awaits, so a run of the gateway is a sequence of events, each of which is
    the code between two awaits; `Apply` says what each event does and `Enabled` when it can
    happen. The ledger `rows` is the ground truth: one row per completed request. */
module Budgets {
  import opened Common

  const CACHE_TTL := 0.5
  const DB_TIMEOUT := 1.5
  const LIVE_DELTA_TTL := 60.0
  /** The environment's promise: a row is visible to SQL this long after it was emitted. */
  const COMMIT_DEADLINE := 58.0

  // ---------------------------------------------------------------- tenants and caps

  datatype Tenant = Tenant(client: Option<string>, ws: string, user: Option<string>)

  /** A spending scope that can carry a cap. */
  datatype Scope =
    | ClientScope(client: string)
    | WorkspaceScope(ws: string)
    | UserScope(ws: string, user: string)

  /** A client or user scope is named by a non-empty id; Python treats an empty one as absent. */
  predicate Named(sc: Scope) {
    match sc
    case ClientScope(c) => c != ""
    case WorkspaceScope(_) => true
    case UserScope(_, u) => u != ""
  }

  predicate InScope(t: Tenant, sc: Scope) {
    match sc
    case ClientScope(c) => t.client == Some(c)
    case WorkspaceScope(w) => t.ws == w
    case UserScope(w, u) => t.ws == w && t.user == Some(u)
  }

  datatype Spends = Spends(client: real, workspace: real, user: real, perModel: real) {
    function Of(sc: Scope): real {
      match sc
      case ClientScope(_) => client
      case WorkspaceScope(_) => workspace
      case UserScope(_, _) => user
    }
  }

  /** The caps in force for one request; `user` is already the workspace's or else the client's. */
  datatype Caps = Caps(client: Option<real>, workspace: Option<real>, user: Option<real>,
                       perModel: Option<(string, real)>) {
    function Of(sc: Scope): Option<real> {
      match sc
      case ClientScope(_) => client
      case WorkspaceScope(_) => workspace
      case UserScope(_, _) => user
    }

    function Substr(): Option<string> {
      if perModel.Some? then Some(perModel.value.0) else None
    }
  }

  datatype Decision = Allowed | Denied(scope: string, cap: real, spend: real)

  predicate NonZero(cap: Option<real>) {
    cap.Some? && cap.value != 0.0
  }

  /** The fast path's test: is any cap truthy? */
  predicate AnyCap(caps: Caps) {
    NonZero(caps.client) || NonZero(caps.workspace) || NonZero(caps.user) || caps.perModel.Some?
  }

  predicate Reached(cap: Option<real>, spend: real) {
    cap.Some? && spend >= cap.value
  }

  /** The verdict in hierarchical order; the first violation wins. */
  function Decide(t: Tenant, caps: Caps, sp: Spends): (d: Decision)
    ensures d.Allowed? <==>
            && !Reached(caps.client, sp.client) && !Reached(caps.workspace, sp.workspace)
            && !(Truthy(t.user) && Reached(caps.user, sp.user))
            && !(caps.perModel.Some? && sp.perModel >= caps.perModel.value.1)
    ensures d.Denied? ==> d.spend >= d.cap
  {
    if Reached(caps.client, sp.client) then Denied("client", caps.client.value, sp.client)
    else if Reached(caps.workspace, sp.workspace) then
      Denied("workspace", caps.workspace.value, sp.workspace)
    else if Reached(caps.user, sp.user) && Truthy(t.user) then
      Denied("user", caps.user.value, sp.user)
    else if caps.perModel.Some? && sp.perModel >= caps.perModel.value.1 then
      Denied("per_model", caps.perModel.value.1, sp.perModel)
    else Allowed
  }

  /** The levels, in the order they are judged: name, cap, spend. */
  function Level(t: Tenant, caps: Caps, sp: Spends, i: nat): Option<(string, real, real)> {
    if i == 0 then (if caps.client.Some? then Some(("client", caps.client.value, sp.client)) else None)
    else if i == 1 then (if caps.workspace.Some? then Some(("workspace", caps.workspace.value, sp.workspace)) else None)
    else if i == 2 then
      (if caps.user.Some? && Truthy(t.user) then Some(("user", caps.user.value, sp.user)) else None)
    else if i == 3 then (if caps.perModel.Some? then Some(("per_model", caps.perModel.value.1, sp.perModel)) else None)
    else None
  }

  predicate Violated(t: Tenant, caps: Caps, sp: Spends, i: nat) {
    var l := Level(t, caps, sp, i); l.Some? && l.value.2 >= l.value.1
  }

  /** A refusal names the first violated level, with its own cap and spend. */
  lemma FirstViolationWins(t: Tenant, caps: Caps, sp: Spends)
    ensures Decide(t, caps, sp).Allowed? <==> forall i: nat :: i < 4 ==> !Violated(t, caps, sp, i)
    ensures Decide(t, caps, sp).Denied? ==>
      exists i: nat :: i < 4 && Violated(t, caps, sp, i) && (forall j: nat :: j < i ==> !Violated(t, caps, sp, j))
        && var l := Level(t, caps, sp, i).value; Decide(t, caps, sp) == Denied(l.0, l.1, l.2)
  {
    var d := Decide(t, caps, sp);
    assert Violated(t, caps, sp, 0) <==> Reached(caps.client, sp.client);
    assert Violated(t, caps, sp, 1) <==> Reached(caps.workspace, sp.workspace);
    assert Violated(t, caps, sp, 2) <==> Reached(caps.user, sp.user) && Truthy(t.user);
    assert Violated(t, caps, sp, 3) <==> caps.perModel.Some? && sp.perModel >= caps.perModel.value.1;
  }

  // ---------------------------------------------------------------- the in-memory state

  datatype DeltaKey =
    | ClientKey(client: Option<string>)
    | WorkspaceKey(ws: string)
    | UserKey(ws: string, user: Option<string>)
    | ModelKey(ws: string, model: string)

  datatype CacheKey = CacheKey(tenant: Tenant, model: Option<string>)
  datatype Entry = Entry(cost: real, expiry: real)
  datatype Snapshot = Snapshot(base: Spends, expiry: real)
  datatype Tracker = Tracker(liveDelta: map<DeltaKey, seq<Entry>>, cache: map<CacheKey, Snapshot>)

  function KeyOf(sc: Scope): DeltaKey {
    match sc
    case ClientScope(c) => ClientKey(Some(c))
    case WorkspaceScope(w) => WorkspaceKey(w)
    case UserScope(w, u) => UserKey(w, Some(u))
  }

  function Entries(delta: map<DeltaKey, seq<Entry>>, key: DeltaKey): seq<Entry> {
    if key in delta then delta[key] else []
  }

  /** The entries that have not expired at `now`, in order. */
  function Live(items: seq<Entry>, now: real): seq<Entry> {
    if items == [] then []
    else
      var rest := Live(items[..|items| - 1], now);
      if items[|items| - 1].expiry > now then rest + [items[|items| - 1]] else rest
  }

  function Sum(items: seq<Entry>): real {
    if items == [] then 0.0 else Sum(items[..|items| - 1]) + items[|items| - 1].cost
  }

  /** What the entries that outlive `now` add up to. */
  function LiveSum(items: seq<Entry>, now: real): real {
    if items == [] then 0.0
    else LiveSum(items[..|items| - 1], now) +
         (if items[|items| - 1].expiry > now then items[|items| - 1].cost else 0.0)
  }

  lemma LiveSumStep(items: seq<Entry>, e: Entry, now: real)
    ensures LiveSum(items + [e], now) == LiveSum(items, now) + (if e.expiry > now then e.cost else 0.0)
  {
    assert (items + [e])[..|items|] == items;
  }

  lemma {:induction false} SumOfLive(items: seq<Entry>, now: real)
    ensures Sum(Live(items, now)) == LiveSum(items, now)
  {
    if items != [] {
      var rest, e := items[..|items| - 1], items[|items| - 1];
      SumOfLive(rest, now);
      var live := Live(rest, now);
      assert (live + [e])[..|live|] == live;
    }
  }

  /** Pruning what has expired by `now` never changes a later sum. */
  lemma {:induction false} PruningIsInvisible(items: seq<Entry>, now: real, later: real)
    requires now <= later
    ensures LiveSum(Live(items, now), later) == LiveSum(items, later)
  {
    if items != [] {
      var rest, e := items[..|items| - 1], items[|items| - 1];
      PruningIsInvisible(rest, now, later);
      LiveSumStep(Live(rest, now), e, later);
    }
  }

  /** The keys one completion is charged to. */
  function ChargedKeys(t: Tenant, model: Option<string>): set<DeltaKey> {
    {ClientKey(t.client), WorkspaceKey(t.ws), UserKey(t.ws, t.user)} +
    (if Truthy(model) then {ModelKey(t.ws, model.value)} else {})
  }

  function Charge(delta: map<DeltaKey, seq<Entry>>, keys: set<DeltaKey>, e: Entry): map<DeltaKey, seq<Entry>> {
    map k | k in delta.Keys + keys :: Entries(delta, k) + (if k in keys then [e] else [])
  }

  lemma ChargeNothing(delta: map<DeltaKey, seq<Entry>>, e: Entry)
    ensures Charge(delta, {}, e) == delta
  {
    assert forall j :: j in delta ==> Entries(delta, j) + [] == delta[j];
  }

  lemma ChargeStep(delta: map<DeltaKey, seq<Entry>>, keys: set<DeltaKey>, k: DeltaKey, e: Entry)
    requires k !in keys
    ensures var d := Charge(delta, keys, e);
            d[k := Entries(d, k) + [e]] == Charge(delta, keys + {k}, e)
  {
    assert Entries(delta, k) + [] == Entries(delta, k);
  }

  /** Does a cached snapshot overlap the tenant slice? */
  predicate Overlaps(k: CacheKey, t: Tenant) {
    || (k.tenant.client == t.client && k.tenant.ws == t.ws)
    || (k.tenant.ws == t.ws && k.tenant.user == t.user)
  }

  function Invalidated(cache: map<CacheKey, Snapshot>, t: Tenant): map<CacheKey, Snapshot> {
    map k | k in cache && !Overlaps(k, t) :: cache[k]
  }

  function Recorded(tr: Tracker, t: Tenant, cost: real, model: Option<string>, now: real): Tracker {
    if cost <= 0.0 then tr
    else Tracker(Charge(tr.liveDelta, ChargedKeys(t, model), Entry(cost, now + LIVE_DELTA_TTL)),
                 Invalidated(tr.cache, t))
  }

  /** The keys whose delta one spend report folds in. */
  function ReadKeys(t: Tenant, model: Option<string>): set<DeltaKey> {
    ChargedKeys(t, model)
  }

  function Pruned(delta: map<DeltaKey, seq<Entry>>, keys: set<DeltaKey>, now: real): map<DeltaKey, seq<Entry>> {
    map k | k in delta.Keys + keys ::
      if k in keys then Live(Entries(delta, k), now) else delta[k]
  }

  function Report(delta: map<DeltaKey, seq<Entry>>, t: Tenant, model: Option<string>, base: Spends, now: real): Spends {
    Spends(base.client + LiveSum(Entries(delta, ClientKey(t.client)), now),
           base.workspace + LiveSum(Entries(delta, WorkspaceKey(t.ws)), now),
           base.user + LiveSum(Entries(delta, UserKey(t.ws, t.user)), now),
           base.perModel + (if Truthy(model) then LiveSum(Entries(delta, ModelKey(t.ws, model.value)), now) else 0.0))
  }

  lemma PrunedTwice(delta: map<DeltaKey, seq<Entry>>, keys: set<DeltaKey>, k: DeltaKey, now: real)
    requires k !in keys
    ensures Pruned(Pruned(delta, keys, now), {k}, now) == Pruned(delta, keys + {k}, now)
    ensures Entries(Pruned(delta, keys, now), k) == Entries(delta, k)
  {
  }

  const NO_SPEND := Spends(0.0, 0.0, 0.0, 0.0)

  datatype Request = Request(tenant: Tenant, caps: Caps) {
    function Key(): CacheKey {
      CacheKey(tenant, caps.Substr())
    }
  }

  /** Folding the deltas into a base and judging the result. */
  function Judge(tr: Tracker, r: Request, base: Spends, now: real): (Tracker, Decision) {
    (tr.(liveDelta := Pruned(tr.liveDelta, ReadKeys(r.tenant, r.caps.Substr()), now)),
     Decide(r.tenant, r.caps, Report(tr.liveDelta, r.tenant, r.caps.Substr(), base, now)))
  }

  /** `check_budget` up to its await on SQL: no cap at all, a fresh snapshot, or no answer yet. */
  function Start(tr: Tracker, r: Request, now: real): (Tracker, Option<Decision>) {
    if !AnyCap(r.caps) then (tr, Some(Allowed))
    else if r.Key() in tr.cache && tr.cache[r.Key()].expiry > now then
      var (tr', d) := Judge(tr, r, tr.cache[r.Key()].base, now);
      (tr', Some(d))
    else (tr, None)
  }

  /** `check_budget` after SQL answered, or failed to. */
  function Finish(tr: Tracker, r: Request, fetched: Option<Spends>, now: real): (Tracker, Decision) {
    var base := if fetched.Some? then fetched.value else NO_SPEND;
    Judge(tr.(cache := tr.cache[r.Key() := Snapshot(base, now + CACHE_TTL)]), r, base, now)
  }

  /** The two module dictionaries, updated in place. */
  class SpendTracker {
    var liveDelta: map<DeltaKey, seq<Entry>>
    var cache: map<CacheKey, Snapshot>

    ghost function Value(): Tracker
      reads this
    {
      Tracker(liveDelta, cache)
    }

    constructor ()
      ensures Value() == Tracker(map[], map[])
    {
      liveDelta, cache := map[], map[];
    }

    method DeltaFor(key: DeltaKey, now: real) returns (sum: real)
      modifies this`liveDelta
      ensures sum == LiveSum(Entries(old(liveDelta), key), now)
      ensures liveDelta == Pruned(old(liveDelta), {key}, now)
    {
      var items := Live(Entries(liveDelta, key), now);
      SumOfLive(Entries(liveDelta, key), now);
      liveDelta := liveDelta[key := items];
      sum := Sum(items);
    }

    method InvalidateSpendCache(t: Tenant)
      modifies this`cache
      ensures cache == Invalidated(old(cache), t)
    {
      var keys := cache.Keys;
      var drop: set<CacheKey> := {};
      while keys != {}
        invariant keys <= cache.Keys && cache == old(cache)
        invariant drop == set k | k in cache.Keys - keys && Overlaps(k, t)
      {
        var k :| k in keys;
        if Overlaps(k, t) {
          drop := drop + {k};
        }
        keys := keys - {k};
      }
      while drop != {}
        invariant drop <= old(cache).Keys && forall k :: k in drop ==> Overlaps(k, t)
        invariant cache.Keys == set k | k in old(cache) && (Overlaps(k, t) ==> k in drop)
        invariant forall k :: k in cache ==> cache[k] == old(cache)[k]
      {
        var k :| k in drop;
        cache := cache - {k};
        drop := drop - {k};
      }
    }

    method AppendCharge(keys: seq<DeltaKey>, e: Entry)
      requires forall i, j :: 0 <= i < j < |keys| ==> keys[i] != keys[j]
      modifies this`liveDelta
      ensures liveDelta == Charge(old(liveDelta), (set k | k in keys), e)
    {
      ghost var charged: set<DeltaKey> := {};
      ChargeNothing(liveDelta, e);
      for i := 0 to |keys|
        invariant forall k :: k in charged <==> exists j :: 0 <= j < i && keys[j] == k
        invariant liveDelta == Charge(old(liveDelta), charged, e)
      {
        ChargeStep(old(liveDelta), charged, keys[i], e);
        liveDelta := liveDelta[keys[i] := Entries(liveDelta, keys[i]) + [e]];
        charged := charged + {keys[i]};
      }
      assert charged == (set k | k in keys);
    }

    method AddLiveSpend(t: Tenant, cost: real, model: Option<string>, now: real)
      modifies this
      ensures Value() == Recorded(old(Value()), t, cost, model, now)
    {
      if cost <= 0.0 {
        return;
      }
      var keys := [ClientKey(t.client), WorkspaceKey(t.ws), UserKey(t.ws, t.user)];
      if Truthy(model) {
        keys := keys + [ModelKey(t.ws, model.value)];
      }
      assert (set k | k in keys) == ChargedKeys(t, model);
      AppendCharge(keys, Entry(cost, now + LIVE_DELTA_TTL));
      InvalidateSpendCache(t);
    }

    /** The part of the spend report before its await: a snapshot still in its TTL, if any. */
    method CachedBase(ck: CacheKey, now: real) returns (hit: Option<Spends>)
      ensures hit.Some? <==> ck in cache && cache[ck].expiry > now
      ensures hit.Some? ==> hit.value == cache[ck].base
    {
      if ck in cache && cache[ck].expiry > now {
        return Some(cache[ck].base);
      }
      return None;
    }

    /** The part after the await: a failed query counts as zero, and is cached all the same. */
    method StoreBase(ck: CacheKey, fetched: Option<Spends>, now: real) returns (base: Spends)
      modifies this`cache
      ensures base == if fetched.Some? then fetched.value else NO_SPEND
      ensures cache == old(cache)[ck := Snapshot(base, now + CACHE_TTL)]
    {
      base := if fetched.Some? then fetched.value else NO_SPEND;
      cache := cache[ck := Snapshot(base, now + CACHE_TTL)];
    }

    /** Reads one more delta after those of `keys`; the reads so far have only pruned. */
    method DeltaAfter(ghost before: map<DeltaKey, seq<Entry>>, ghost keys: set<DeltaKey>, key: DeltaKey, now: real)
      returns (sum: real)
      requires liveDelta == Pruned(before, keys, now) && key !in keys
      modifies this`liveDelta
      ensures sum == LiveSum(Entries(before, key), now)
      ensures liveDelta == Pruned(before, keys + {key}, now)
    {
      PrunedTwice(before, keys, key, now);
      sum := DeltaFor(key, now);
    }

    /** Folds the live deltas into the base. */
    method FoldDeltas(t: Tenant, model: Option<string>, base: Spends, now: real) returns (sp: Spends)
      modifies this`liveDelta
      ensures sp == Report(old(liveDelta), t, model, base, now)
      ensures liveDelta == Pruned(old(liveDelta), ReadKeys(t, model), now)
    {
      hide Pruned, LiveSum, Entries;
      ghost var before, keys := liveDelta, {ClientKey(t.client)};
      var c := DeltaFor(ClientKey(t.client), now);
      var w := DeltaAfter(before, keys, WorkspaceKey(t.ws), now);
      keys := keys + {WorkspaceKey(t.ws)};
      var u := DeltaAfter(before, keys, UserKey(t.ws, t.user), now);
      keys := keys + {UserKey(t.ws, t.user)};
      var m := 0.0;
      if Truthy(model) {
        m := DeltaAfter(before, keys, ModelKey(t.ws, model.value), now);
        keys := keys + {ModelKey(t.ws, model.value)};
      }
      assert keys == ReadKeys(t, model);
      sp := Spends(base.client + c, base.workspace + w, base.user + u, base.perModel + m);
    }

    method CheckStart(r: Request, now: real) returns (d: Option<Decision>)
      modifies this
      ensures (Value(), d) == Start(old(Value()), r, now)
    {
      if !AnyCap(r.caps) {
        return Some(Allowed);
      }
      var hit := CachedBase(r.Key(), now);
      if hit.None? {
        return None;
      }
      var sp := FoldDeltas(r.tenant, r.caps.Substr(), hit.value, now);
      d := Some(Decide(r.tenant, r.caps, sp));
    }

    method CheckFinish(r: Request, fetched: Option<Spends>, now: real) returns (d: Decision)
      modifies this
      ensures (Value(), d) == Finish(old(Value()), r, fetched, now)
    {
      var base := StoreBase(r.Key(), fetched, now);
      var sp := FoldDeltas(r.tenant, r.caps.Substr(), base, now);
      d := Decide(r.tenant, r.caps, sp);
    }
  }
}
