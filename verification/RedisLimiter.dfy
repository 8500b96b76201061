/** The distributed fixed-window limiter: replicas share counters in Redis, and every command is a
    separate step that other replicas' commands can come before. */
module RedisLimiter {
  import opened Common
  import opened Keys

  datatype Dim = Requests | Tokens
  datatype ScopeKind = UserLevel | WorkspaceLevel | ClientLevel | ModelLevel

  /** Counters live this long after their expiry is set. */
  const TTL := 90.0

  /** When minute `w` begins. */
  function Opens(w: nat): real {
    60.0 * w as real
  }

  // ---------------------------------------------------------------- counter names

  datatype Key = Key(ident: string, window: nat, dim: Dim)

  function Decimal(n: nat): string
    decreases n
  {
    if n < 10 then [(n as char + '0')] else Decimal(n / 10) + [(n % 10) as char + '0']
  }

  function Number(s: string): int {
    if s == [] then 0 else Number(s[..|s| - 1]) * 10 + (s[|s| - 1] as int - '0' as int)
  }

  lemma {:induction false} DecimalReadsBack(n: nat)
    ensures Number(Decimal(n)) == n && NoColon(Decimal(n))
    decreases n
  {
    if n >= 10 {
      DecimalReadsBack(n / 10);
      var s := Decimal(n);
      assert s[..|s| - 1] == Decimal(n / 10);
    } else {
      assert Decimal(n)[..0] == [];
    }
  }

  function Rendered(k: Key): string {
    "rl:" + k.ident + ":" + Decimal(k.window) + ":" + (if k.dim.Requests? then "r" else "t")
  }

  lemma SameTail(a: string, x: string, b: string, y: string)
    requires a + x == b + y && |x| == |y|
    ensures a == b && x == y
  {
    assert a == (a + x)[..|a|] && b == (b + y)[..|b|];
    assert x == (a + x)[|a|..] && y == (b + y)[|b|..];
  }

  lemma SplitAtLastColon(a: string, x: string, b: string, y: string)
    requires NoColon(x) && NoColon(y) && a + ":" + x == b + ":" + y
    ensures a == b && x == y
  {
    var s, t := a + ":" + x, b + ":" + y;
    assert s[|a|] == ':' && forall i :: |a| < i < |s| ==> s[i] == x[i - |a| - 1];
    assert t[|b|] == ':' && forall i :: |b| < i < |t| ==> t[i] == y[i - |b| - 1];
    assert s == a + (":" + x) && t == b + (":" + y);
    SameTail(a, ":" + x, b, ":" + y);
    assert x == (":" + x)[1..] && y == (":" + y)[1..];
  }

  /** Different counters have different names, so a map from `Key` models the Redis key space. */
  lemma RenderedInjective(k: Key, l: Key)
    requires Rendered(k) == Rendered(l)
    ensures k == l
  {
    var dk, dl := if k.dim.Requests? then "r" else "t", if l.dim.Requests? then "r" else "t";
    DecimalReadsBack(k.window);
    DecimalReadsBack(l.window);
    SplitAtLastColon("rl:" + k.ident + ":" + Decimal(k.window), dk, "rl:" + l.ident + ":" + Decimal(l.window), dl);
    SplitAtLastColon("rl:" + k.ident, Decimal(k.window), "rl:" + l.ident, Decimal(l.window));
    SameHead("rl:", k.ident, l.ident);
  }

  // ---------------------------------------------------------------- the server

  datatype Counter = Counter(value: int, expireAt: Option<real>)

  type Counters = map<Key, Counter>

  /** The counter a command sees: an expired one is gone. */
  function Seen(cs: Counters, k: Key, now: real): Option<Counter> {
    if k in cs && (cs[k].expireAt.Some? ==> now < cs[k].expireAt.value) then Some(cs[k]) else None
  }

  /** INCRBY creates a missing key at zero and without an expiry. */
  function Incremented(cs: Counters, k: Key, n: int, now: real): Counters {
    match Seen(cs, k, now)
    case Some(c) => cs[k := c.(value := c.value + n)]
    case None => cs[k := Counter(n, None)]
  }

  /** EXPIRE does nothing to a missing key. */
  function ExpirySet(cs: Counters, k: Key, now: real): Counters {
    match Seen(cs, k, now)
    case Some(c) => cs[k := c.(expireAt := Some(now + TTL))]
    case None => cs
  }

  class RedisServer {
    var counters: Counters

    method IncrBy(k: Key, n: int, now: real) returns (v: int)
      modifies this
      ensures counters == Incremented(old(counters), k, n, now) && k in counters && v == counters[k].value
    {
      if k in counters && (counters[k].expireAt.None? || now < counters[k].expireAt.value) {
        counters := counters[k := counters[k].(value := counters[k].value + n)];
      } else {
        counters := counters[k := Counter(n, None)];
      }
      v := counters[k].value;
    }

    method Expire(k: Key, now: real)
      modifies this
      ensures counters == ExpirySet(old(counters), k, now)
    {
      if k in counters && (counters[k].expireAt.None? || now < counters[k].expireAt.value) {
        counters := counters[k := counters[k].(expireAt := Some(now + TTL))];
      }
    }
  }

  // ---------------------------------------------------------------- requests

  datatype Limits = Limits(rpm: Option<int>, tpm: Option<int>)

  datatype Request = Request(client: Option<string>, ws: string, user: Option<string>, alias: string,
                             userRl: Limits, workspaceRl: Limits, clientRl: Limits, modelQuota: Limits,
                             estTokens: int)

  /** One counter to bump and compare. */
  datatype Bump = Bump(scope: ScopeKind, key: Key, limit: int, n: int)

  function Need(estTokens: int): int {
    if estTokens > 1 then estTokens else 1
  }

  function DimBumps(scope: ScopeKind, key: Key, limit: Option<int>, n: int): seq<Bump> {
    if limit.Some? && limit.value != 0 then [Bump(scope, key, limit.value, n)] else []
  }

  function ScopeBumps(scope: ScopeKind, ident: string, w: nat, ls: Limits, need: int): seq<Bump> {
    DimBumps(scope, Key(ident, w, Requests), ls.rpm, 1) + DimBumps(scope, Key(ident, w, Tokens), ls.tpm, need)
  }

  /** Everything a request of window `w` bumps, in order. */
  function Bumps(r: Request, w: nat): seq<Bump> {
    var need := Need(r.estTokens);
    (if Truthy(r.user) then ScopeBumps(UserLevel, UserKey(r.ws, r.user.value), w, r.userRl, need) else [])
    + ScopeBumps(WorkspaceLevel, WorkspaceKey(r.ws), w, r.workspaceRl, need)
    + (if Truthy(r.client) then ScopeBumps(ClientLevel, ClientKey(r.client.value), w, r.clientRl, need) else [])
    + ScopeBumps(ModelLevel, ModelKey(r.ws, r.alias), w, r.modelQuota, need)
  }

  /** The identity and limits of a scope, if the request has one. */
  function Configured(r: Request, scope: ScopeKind): Option<(string, Limits)> {
    match scope
    case UserLevel => if Truthy(r.user) then Some((UserKey(r.ws, r.user.value), r.userRl)) else None
    case WorkspaceLevel => Some((WorkspaceKey(r.ws), r.workspaceRl))
    case ClientLevel => if Truthy(r.client) then Some((ClientKey(r.client.value), r.clientRl)) else None
    case ModelLevel => Some((ModelKey(r.ws, r.alias), r.modelQuota))
  }

  /** A token counter is bumped by the estimate, but by at least one. */
  predicate Demands(o: Option<(string, Limits)>, w: nat, estTokens: int, b: Bump) {
    && o.Some? && b.key.ident == o.value.0 && b.key.window == w
    && (if b.key.dim.Requests? then o.value.1.rpm else o.value.1.tpm) == Some(b.limit) && b.limit != 0
    && (b.key.dim.Requests? ==> b.n == 1)
    && (b.key.dim.Tokens? ==> b.n >= 1 && b.n >= estTokens && (b.n == 1 || b.n == estTokens))
  }

  /** Every configured limit has its counter bumped in the request's window, and nothing else. */
  lemma {:induction false} BumpsAreTheLimits(r: Request, w: nat, b: Bump)
    ensures b in Bumps(r, w) <==> Demands(Configured(r, b.scope), w, r.estTokens, b)
  {
    hide UserKey, WorkspaceKey, ClientKey, ModelKey, Need, Demands;
    var est := r.estTokens;
    NoScope(w, est, b);
    ScopeBumpsAre(UserLevel, if Truthy(r.user) then UserKey(r.ws, r.user.value) else "", w, r.userRl, est, b);
    ScopeBumpsAre(WorkspaceLevel, WorkspaceKey(r.ws), w, r.workspaceRl, est, b);
    ScopeBumpsAre(ClientLevel, if Truthy(r.client) then ClientKey(r.client.value) else "", w, r.clientRl, est, b);
    ScopeBumpsAre(ModelLevel, ModelKey(r.ws, r.alias), w, r.modelQuota, est, b);
    hide ScopeBumps;
  }

  lemma BumpsAreOfTheWindow(r: Request, w: nat)
    ensures forall b :: b in Bumps(r, w) ==> b.key.window == w && b.n >= 1
  {
    forall b | b in Bumps(r, w) ensures b.key.window == w && b.n >= 1 {
      BumpsAreTheLimits(r, w, b);
    }
  }

  lemma NoScope(w: nat, est: int, b: Bump)
    ensures !Demands(None, w, est, b)
  {
  }

  lemma ScopeBumpsAre(scope: ScopeKind, ident: string, w: nat, ls: Limits, est: int, b: Bump)
    ensures b in ScopeBumps(scope, ident, w, ls, Need(est)) <==>
      b.scope == scope && Demands(Some((ident, ls)), w, est, b)
  {
  }

  function Rank(scope: ScopeKind): nat {
    match scope
    case UserLevel => 0
    case WorkspaceLevel => 1
    case ClientLevel => 2
    case ModelLevel => 3
  }

  predicate Before(a: Bump, b: Bump) {
    Rank(a.scope) < Rank(b.scope) || (a.scope == b.scope && a.key.dim.Requests? && b.key.dim.Tokens?)
  }

  predicate InOrder(bs: seq<Bump>) {
    forall i, j :: 0 <= i < j < |bs| ==> Before(bs[i], bs[j])
  }

  lemma OrderedJoin(bs: seq<Bump>, cs: seq<Bump>, rank: nat)
    requires InOrder(bs) && InOrder(cs)
    requires forall i :: 0 <= i < |bs| ==> Rank(bs[i].scope) < rank
    requires forall j :: 0 <= j < |cs| ==> Rank(cs[j].scope) == rank
    ensures InOrder(bs + cs) && forall i :: 0 <= i < |bs + cs| ==> Rank((bs + cs)[i].scope) < rank + 1
  {
    hide Rank;
    forall i, j | 0 <= i < j < |bs + cs| ensures Before((bs + cs)[i], (bs + cs)[j]) {
      if j >= |bs| && i >= |bs| {
        assert Before(cs[i - |bs|], cs[j - |bs|]);
      } else if j < |bs| {
        assert Before(bs[i], bs[j]);
      }
    }
  }

  lemma ScopeInOrder(scope: ScopeKind, ident: string, w: nat, ls: Limits, need: int)
    ensures var bs := ScopeBumps(scope, ident, w, ls, need);
            InOrder(bs) && forall i :: 0 <= i < |bs| ==> bs[i].scope == scope
  {
  }

  /** User, workspace, client, model; in each the request counter before the token counter. */
  lemma {:induction false} BumpsAreInOrder(r: Request, w: nat)
    ensures InOrder(Bumps(r, w))
  {
    hide UserKey, WorkspaceKey, ClientKey, ModelKey, Before, ScopeBumps, InOrder, Need;
    var need := Need(r.estTokens);
    var user, client := if Truthy(r.user) then r.user.value else "", if Truthy(r.client) then r.client.value else "";
    var us := if Truthy(r.user) then ScopeBumps(UserLevel, UserKey(r.ws, r.user.value), w, r.userRl, need) else [];
    var ws := ScopeBumps(WorkspaceLevel, WorkspaceKey(r.ws), w, r.workspaceRl, need);
    var cs := if Truthy(r.client) then ScopeBumps(ClientLevel, ClientKey(r.client.value), w, r.clientRl, need) else [];
    var ms := ScopeBumps(ModelLevel, ModelKey(r.ws, r.alias), w, r.modelQuota, need);
    NoneInOrder();
    ScopeInOrder(UserLevel, UserKey(r.ws, user), w, r.userRl, need);
    ScopeInOrder(WorkspaceLevel, WorkspaceKey(r.ws), w, r.workspaceRl, need);
    ScopeInOrder(ClientLevel, ClientKey(client), w, r.clientRl, need);
    ScopeInOrder(ModelLevel, ModelKey(r.ws, r.alias), w, r.modelQuota, need);
    OrderedJoin(us, ws, 1);
    OrderedJoin(us + ws, cs, 2);
    OrderedJoin(us + ws + cs, ms, 3);
  }

  lemma NoneInOrder()
    ensures InOrder([])
  {
  }

  // ---------------------------------------------------------------- the step machine

  /** A request waiting to send its next INCRBY, or, after a first increment, its EXPIRE. */
  datatype Phase = Incr | Expire(entry: nat)

  /** `read` is the clock reading that chose the window, `bumps` all the request had to pass, and
      `clean` says that no command of it has failed. */
  datatype Proc = Proc(read: real, bumps: seq<Bump>, todo: seq<Bump>, phase: Phase, clean: bool)

  /** An increment the server performed: for whom, and what it brought the counter to. */
  datatype Entry = Entry(pid: nat, read: real, bump: Bump, value: int)

  /** A refusal names the bump whose counter was full: its scope and dimension. */
  datatype Verdict = Verdict(allowed: bool, clean: bool, bumps: seq<Bump>, refused: Option<Bump>)

  /** `log` and `passed` are the history the claims are about: all increments, and for those that
      were compared with their limit, the outcome. `done` holds the verdicts given. */
  datatype State = State(counters: Counters, procs: map<nat, Proc>, log: seq<Entry>,
                         passed: map<nat, bool>, done: map<nat, Verdict>)

  const INITIAL := State(map[], map[], [], map[], map[])

  /** What became of one command: answered, or an error that may have struck after it was done. */
  datatype Reply = Answered | Error(performed: bool)

  datatype Event =
    | Start(pid: nat, req: Request, read: real)
    | Command(pid: nat, at: real, reply: Reply)

  function WindowOf(read: real): nat
    requires read >= 0.0
  {
    (read / 60.0).Floor
  }

  /** A pending request has a bump to do, and an EXPIRE to send only after its increment. */
  predicate Ready(s: State, p: Proc) {
    p.todo != [] && (p.phase.Expire? ==> p.phase.entry < |s.log|)
  }

  predicate Enabled(s: State, e: Event) {
    match e
    case Start(pid, _, read) => pid !in s.procs && pid !in s.done && read >= 0.0
    case Command(pid, _, _) => pid in s.procs && Ready(s, s.procs[pid])
  }

  /** With nothing left to check the request is let through. */
  function Continue(s: State, pid: nat, p: Proc): State {
    if p.todo == [] then s.(procs := s.procs - {pid}, done := s.done[pid := Verdict(true, p.clean, p.bumps, None)])
    else s.(procs := s.procs[pid := p.(phase := Incr)])
  }

  /** Comparing what the increment `entry` brought its counter to with the limit. */
  function Judge(s: State, pid: nat, p: Proc, entry: nat): State
    requires p.todo != [] && entry < |s.log|
  {
    if s.log[entry].value > p.todo[0].limit then
      s.(procs := s.procs - {pid}, passed := s.passed[entry := false],
         done := s.done[pid := Verdict(false, p.clean, p.bumps, Some(p.todo[0]))])
    else
      Continue(s.(passed := s.passed[entry := true]), pid, p.(todo := p.todo[1..]))
  }

  /** After an error the rest of the scope is skipped. */
  function AfterScope(todo: seq<Bump>, scope: ScopeKind): seq<Bump> {
    if todo == [] || todo[0].scope != scope then todo else AfterScope(todo[1..], scope)
  }

  function Skip(s: State, pid: nat, p: Proc): State
    requires p.todo != []
  {
    Continue(s, pid, p.(todo := AfterScope(p.todo, p.todo[0].scope), clean := false))
  }

  /** The server performs an increment, and the history records it. */
  function Increment(s: State, pid: nat, read: real, b: Bump, at: real): State {
    var cs := Incremented(s.counters, b.key, b.n, at);
    s.(counters := cs, log := s.log + [Entry(pid, read, b, cs[b.key].value)])
  }

  function Launched(req: Request, read: real): Proc
    requires read >= 0.0
  {
    Proc(read, Bumps(req, WindowOf(read)), Bumps(req, WindowOf(read)), Incr, true)
  }

  function Apply(s: State, e: Event): State
    requires Enabled(s, e)
  {
    match e
    case Start(pid, req, read) => Continue(s, pid, Launched(req, read))
    case Command(pid, at, reply) =>
      var p := s.procs[pid];
      var b := p.todo[0];
      if p.phase.Incr? then
        var s' := if reply == Error(false) then s else Increment(s, pid, p.read, b, at);
        if reply.Error? then Skip(s', pid, p)
        else if s'.log[|s.log|].value == b.n then s'.(procs := s'.procs[pid := p.(phase := Expire(|s.log|))])
        else Judge(s', pid, p, |s.log|)
      else
        var s' := if reply == Error(false) then s else s.(counters := ExpirySet(s.counters, b.key, at));
        if reply.Error? then Skip(s', pid, p) else Judge(s', pid, p, p.phase.entry)
  }

  // ---------------------------------------------------------------- runs

  /** Every command for minute `w` reaches the server in the 90 seconds from its start. */
  predicate InTime(k: Key, at: real) {
    60.0 * k.window as real <= at < 60.0 * k.window as real + 90.0
  }

  predicate Timely(s: State, e: Event)
    requires Enabled(s, e)
  {
    e.Command? ==> InTime(s.procs[e.pid].todo[0].key, e.at)
  }

  predicate Possible(s: State, events: seq<Event>)
    decreases |events|
  {
    events == [] ||
    (Enabled(s, events[0]) && Timely(s, events[0]) && Possible(Apply(s, events[0]), events[1..]))
  }

  function Run(s: State, events: seq<Event>): State
    requires Possible(s, events)
    decreases |events|
  {
    if events == [] then s else Run(Apply(s, events[0]), events[1..])
  }

  // ---------------------------------------------------------------- the invariant

  /** What the increments of a counter add up to. */
  function Bumped(log: seq<Entry>, k: Key): int {
    if log == [] then 0
    else Bumped(log[..|log| - 1], k) + (if log[|log| - 1].bump.key == k then log[|log| - 1].bump.n else 0)
  }

  predicate Touched(log: seq<Entry>, k: Key) {
    exists i :: 0 <= i < |log| && log[i].bump.key == k
  }

  predicate BumpOk(b: Bump, read: real) {
    read >= 0.0 && b.n >= 1 && b.key.window == WindowOf(read)
  }

  /** A counter holds all its increments, cannot expire within its 90 seconds, and does within another 90. */
  ghost predicate CountersExact(cs: Counters, log: seq<Entry>) {
    && (forall k :: k in cs <==> Touched(log, k))
    && (forall k :: k in cs ==>
          && cs[k].value == Bumped(log, k)
          && (cs[k].expireAt.Some? ==>
                Opens(k.window) + 90.0 <= cs[k].expireAt.value < Opens(k.window) + 180.0))
  }

  /** Every increment was answered with the running total. */
  ghost predicate LogExact(log: seq<Entry>) {
    forall i :: 0 <= i < |log| ==>
      && BumpOk(log[i].bump, log[i].read)
      && log[i].value == Bumped(log[..i + 1], log[i].bump.key)
  }

  /** Every comparison came out by the running total. */
  ghost predicate PassedExact(s: State) {
    forall i :: i in s.passed ==> i < |s.log| && (s.passed[i] <==> s.log[i].value <= s.log[i].bump.limit)
  }

  /** Every one of these bumps of a request was compared with its limit and passed. */
  ghost predicate AllPassed(s: State, pid: nat, bs: seq<Bump>) {
    forall b :: b in bs ==> HasPassed(s, pid, b)
  }

  ghost predicate HasPassed(s: State, pid: nat, b: Bump) {
    exists i :: i in s.passed && i < |s.log| && s.passed[i] && s.log[i].pid == pid && s.log[i].bump == b
  }

  ghost predicate HasFailed(s: State, pid: nat, b: Bump) {
    exists i :: i in s.passed && i < |s.log| && !s.passed[i] && s.log[i].pid == pid && s.log[i].bump == b
  }

  /** The bump is one of these, and all before it passed. */
  ghost predicate FirstToFail(s: State, pid: nat, bs: seq<Bump>, b: Bump) {
    exists j :: 0 <= j < |bs| && bs[j] == b && AllPassed(s, pid, bs[..j])
  }

  /** A clean request has passed all it no longer has to do. */
  ghost predicate Accounted(s: State, pid: nat, p: Proc) {
    p.clean ==> |p.todo| <= |p.bumps| && p.bumps[|p.bumps| - |p.todo|..] == p.todo
                && AllPassed(s, pid, p.bumps[..|p.bumps| - |p.todo|])
  }

  ghost predicate ProcOk(s: State, pid: nat, p: Proc) {
    && Ready(s, p) && Accounted(s, pid, p)
    && (forall b :: b in p.todo ==> BumpOk(b, p.read))
    && (p.phase.Expire? ==> s.log[p.phase.entry].bump == p.todo[0] && s.log[p.phase.entry].pid == pid)
  }

  ghost predicate VerdictOk(s: State, pid: nat, v: Verdict) {
    && (v.allowed && v.clean ==> AllPassed(s, pid, v.bumps))
    && (v.allowed <==> v.refused.None?)
    && (v.refused.Some? ==> HasFailed(s, pid, v.refused.value))
    && (v.refused.Some? && v.clean ==> FirstToFail(s, pid, v.bumps, v.refused.value))
  }

  ghost predicate Inv(s: State) {
    && CountersExact(s.counters, s.log) && LogExact(s.log) && PassedExact(s)
    && (forall pid :: pid in s.procs ==> ProcOk(s, pid, s.procs[pid]))
    && (forall pid :: pid in s.done ==> VerdictOk(s, pid, s.done[pid]))
  }

  lemma BumpedStep(log: seq<Entry>, e: Entry, k: Key)
    ensures Bumped(log + [e], k) == Bumped(log, k) + (if e.bump.key == k then e.bump.n else 0)
    ensures Touched(log + [e], k) <==> k == e.bump.key || Touched(log, k)
  {
    var log' := log + [e];
    assert log'[..|log|] == log && log'[|log|] == e;
    assert forall i :: 0 <= i < |log| ==> log'[i] == log[i];
  }

  lemma {:induction false} UntouchedIsZero(log: seq<Entry>, k: Key)
    requires !Touched(log, k)
    ensures Bumped(log, k) == 0
  {
    if log != [] {
      var rest := log[..|log| - 1];
      assert forall i :: 0 <= i < |rest| ==> rest[i] == log[i];
      UntouchedIsZero(rest, k);
    }
  }

  /** An increment performed in time continues the running total. */
  lemma IncrementIsExact(s: State, pid: nat, read: real, b: Bump, at: real)
    requires CountersExact(s.counters, s.log) && BumpOk(b, read) && InTime(b.key, at)
    ensures var s' := Increment(s, pid, read, b, at);
            CountersExact(s'.counters, s'.log) && s'.log[|s.log|].value == Bumped(s'.log, b.key)
  {
    hide Bumped, Touched;
    var s' := Increment(s, pid, read, b, at);
    if !Touched(s.log, b.key) {
      UntouchedIsZero(s.log, b.key);
    }
    forall k
      ensures Bumped(s'.log, k) == Bumped(s.log, k) + (if b.key == k then b.n else 0)
      ensures Touched(s'.log, k) <==> k == b.key || Touched(s.log, k)
    {
      BumpedStep(s.log, s'.log[|s.log|], k);
    }
  }

  lemma LogGrowsExact(log: seq<Entry>, e: Entry)
    requires LogExact(log) && BumpOk(e.bump, e.read) && e.value == Bumped(log + [e], e.bump.key)
    ensures LogExact(log + [e])
  {
    var log' := log + [e];
    forall i | 0 <= i < |log'|
      ensures BumpOk(log'[i].bump, log'[i].read) && log'[i].value == Bumped(log'[..i + 1], log'[i].bump.key)
    {
      if i < |log| {
        assert log'[..i + 1] == log[..i + 1];
      } else {
        assert log'[..i + 1] == log';
      }
    }
  }

  /** History only grows, so what has passed or failed stays so. */
  ghost predicate Extends(s: State, s': State) {
    && |s.log| <= |s'.log| && s'.log[..|s.log|] == s.log
    && (forall i :: i in s.passed ==> i in s'.passed && s'.passed[i] == s.passed[i])
  }

  lemma HistoryIsKept(s: State, s': State)
    requires Extends(s, s')
    ensures forall pid, b :: HasPassed(s, pid, b) ==> HasPassed(s', pid, b)
    ensures forall pid, b :: HasFailed(s, pid, b) ==> HasFailed(s', pid, b)
    ensures forall pid, bs, b :: FirstToFail(s, pid, bs, b) ==> FirstToFail(s', pid, bs, b)
    ensures forall pid, p :: ProcOk(s, pid, p) ==> ProcOk(s', pid, p)
    ensures forall pid, v :: VerdictOk(s, pid, v) ==> VerdictOk(s', pid, v)
  {
    assert forall i :: 0 <= i < |s.log| ==> s'.log[i] == s.log[i];
  }

  lemma IncrementKeepsInv(s: State, pid: nat, read: real, b: Bump, at: real)
    requires Inv(s) && BumpOk(b, read) && InTime(b.key, at)
    ensures Inv(Increment(s, pid, read, b, at))
  {
    hide CountersExact, LogExact, BumpOk, InTime, Incremented, Bumped, ProcOk, VerdictOk;
    IncrementIsExact(s, pid, read, b, at);
    LogGrowsExact(s.log, Entry(pid, read, b, Increment(s, pid, read, b, at).log[|s.log|].value));
    HistoryIsKept(s, Increment(s, pid, read, b, at));
  }

  /** An expiry set in time cannot strike within the 90 seconds. */
  lemma ExpiryIsHarmless(cs: Counters, log: seq<Entry>, k: Key, at: real)
    requires CountersExact(cs, log) && InTime(k, at)
    ensures CountersExact(ExpirySet(cs, k, at), log)
  {
    hide Bumped, Touched;
  }

  lemma ExpireKeepsInv(s: State, k: Key, at: real)
    requires Inv(s) && InTime(k, at)
    ensures Inv(s.(counters := ExpirySet(s.counters, k, at)))
  {
    hide CountersExact, LogExact, BumpOk, ExpirySet, ProcOk, VerdictOk;
    ExpiryIsHarmless(s.counters, s.log, k, at);
    HistoryIsKept(s, s.(counters := ExpirySet(s.counters, k, at)));
  }

  lemma ContinueKeepsInv(s: State, pid: nat, p: Proc)
    requires Inv(s) && Accounted(s, pid, p) && forall b :: b in p.todo ==> BumpOk(b, p.read)
    ensures Inv(Continue(s, pid, p))
  {
    hide CountersExact, LogExact, BumpOk, VerdictOk, ProcOk, HasPassed, HasFailed, Accounted;
    var s' := Continue(s, pid, p);
    HistoryIsKept(s, s');
    if p.todo == [] {
      AccountedStays(s, s', pid, p);
      FinishedIsAccounted(s', pid, p);
    } else {
      NextIsOk(s, s', pid, p);
    }
  }

  lemma AccountedStays(s: State, s': State, pid: nat, p: Proc)
    requires Extends(s, s') && Accounted(s, pid, p)
    ensures Accounted(s', pid, p)
  {
    hide HasPassed, ProcOk, VerdictOk;
    HistoryIsKept(s, s');
  }

  lemma SamePlace(s: State, pid: nat, p: Proc)
    ensures Accounted(s, pid, p) <==> Accounted(s, pid, p.(phase := Incr))
  {
    hide AllPassed;
  }

  lemma NextIsOk(s: State, s': State, pid: nat, p: Proc)
    requires Extends(s, s') && Accounted(s, pid, p) && p.todo != [] && forall b :: b in p.todo ==> BumpOk(b, p.read)
    ensures ProcOk(s', pid, p.(phase := Incr))
  {
    hide BumpOk, HasPassed, Accounted;
    AccountedStays(s, s', pid, p);
    SamePlace(s', pid, p);
  }

  lemma FinishedIsAccounted(s: State, pid: nat, p: Proc)
    requires p.todo == [] && Accounted(s, pid, p)
    ensures VerdictOk(s, pid, Verdict(true, p.clean, p.bumps, None))
  {
    hide HasPassed;
    assert p.bumps[..|p.bumps|] == p.bumps;
  }

  lemma ComparisonKeepsInv(s: State, entry: nat)
    requires Inv(s) && entry < |s.log|
    ensures Inv(s.(passed := s.passed[entry := s.log[entry].value <= s.log[entry].bump.limit]))
  {
    hide CountersExact, LogExact, BumpOk, ProcOk, VerdictOk;
    HistoryIsKept(s, s.(passed := s.passed[entry := s.log[entry].value <= s.log[entry].bump.limit]));
  }

  lemma PassingIsAccounted(s: State, pid: nat, p: Proc, entry: nat)
    requires Accounted(s, pid, p) && p.todo != []
    requires entry in s.passed && entry < |s.log| && s.passed[entry]
    requires s.log[entry].pid == pid && s.log[entry].bump == p.todo[0]
    ensures Accounted(s, pid, p.(todo := p.todo[1..]))
  {
    if p.clean {
      var n := |p.bumps| - |p.todo|;
      assert p.bumps[n] == p.bumps[n..][0] == p.todo[0];
      assert p.bumps[n + 1..] == p.bumps[n..][1..];
      assert p.bumps[..n + 1] == p.bumps[..n] + [p.todo[0]];
      assert HasPassed(s, pid, p.todo[0]);
    }
  }

  lemma RefusalIsAccounted(s: State, pid: nat, p: Proc, entry: nat)
    requires Accounted(s, pid, p) && p.todo != []
    requires entry in s.passed && entry < |s.log| && !s.passed[entry]
    requires s.log[entry].pid == pid && s.log[entry].bump == p.todo[0]
    ensures VerdictOk(s, pid, Verdict(false, p.clean, p.bumps, Some(p.todo[0])))
  {
    hide AllPassed;
    assert HasFailed(s, pid, p.todo[0]);
    if p.clean {
      var j := |p.bumps| - |p.todo|;
      assert p.bumps[j] == p.bumps[j..][0];
    }
  }

  lemma JudgeKeepsInv(s: State, pid: nat, p: Proc, entry: nat)
    requires Inv(s) && p.todo != [] && Accounted(s, pid, p)
    requires entry < |s.log| && s.log[entry].bump == p.todo[0] && s.log[entry].pid == pid
    requires forall b :: b in p.todo ==> BumpOk(b, p.read)
    ensures Inv(Judge(s, pid, p, entry))
  {
    hide CountersExact, LogExact, BumpOk, ProcOk;
    var s' := s.(passed := s.passed[entry := s.log[entry].value <= p.todo[0].limit]);
    ComparisonKeepsInv(s, entry);
    HistoryIsKept(s, s');
    if s.log[entry].value <= p.todo[0].limit {
      assert forall b :: b in p.todo[1..] ==> b in p.todo;
      assert Accounted(s', pid, p);
      PassingIsAccounted(s', pid, p, entry);
      ContinueKeepsInv(s', pid, p.(todo := p.todo[1..]));
    } else {
      RefusalIsAccounted(s', pid, p, entry);
      HistoryIsKept(s', Judge(s, pid, p, entry));
    }
  }

  lemma {:induction false} SkippedIsSuffix(todo: seq<Bump>, scope: ScopeKind)
    ensures forall b :: b in AfterScope(todo, scope) ==> b in todo
  {
    if todo != [] && todo[0].scope == scope {
      SkippedIsSuffix(todo[1..], scope);
    }
  }

  lemma SkipKeepsInv(s: State, pid: nat, p: Proc)
    requires Inv(s) && p.todo != [] && forall b :: b in p.todo ==> BumpOk(b, p.read)
    ensures Inv(Skip(s, pid, p))
  {
    hide Inv, BumpOk;
    SkippedIsSuffix(p.todo, p.todo[0].scope);
    ContinueKeepsInv(s, pid, p.(todo := AfterScope(p.todo, p.todo[0].scope), clean := false));
  }

  lemma WaitingToExpireKeepsInv(s: State, pid: nat, p: Proc, entry: nat)
    requires Inv(s) && Accounted(s, pid, p) && p.todo != [] && forall b :: b in p.todo ==> BumpOk(b, p.read)
    requires entry < |s.log| && s.log[entry].bump == p.todo[0] && s.log[entry].pid == pid
    ensures Inv(s.(procs := s.procs[pid := p.(phase := Expire(entry))]))
  {
    hide CountersExact, LogExact, BumpOk, VerdictOk;
    var s' := s.(procs := s.procs[pid := p.(phase := Expire(entry))]);
    HistoryIsKept(s, s');
    assert ProcOk(s', pid, s'.procs[pid]);
  }

  lemma CommandKeepsInv(s: State, pid: nat, at: real, reply: Reply)
    requires Inv(s) && pid in s.procs && s.procs[pid].todo != [] && InTime(s.procs[pid].todo[0].key, at)
    requires Ready(s, s.procs[pid])
    ensures Inv(Apply(s, Command(pid, at, reply)))
  {
    hide CountersExact, LogExact, BumpOk, InTime, VerdictOk;
    var p := s.procs[pid];
    var b := p.todo[0];
    assert ProcOk(s, pid, p);
    if p.phase.Incr? {
      var s' := if reply == Error(false) then s else Increment(s, pid, p.read, b, at);
      if reply != Error(false) {
        IncrementKeepsInv(s, pid, p.read, b, at);
      }
      HistoryIsKept(s, s');
      assert ProcOk(s', pid, p);
      if reply.Error? {
        SkipKeepsInv(s', pid, p);
      } else if s'.log[|s.log|].value == b.n {
        WaitingToExpireKeepsInv(s', pid, p, |s.log|);
      } else {
        JudgeKeepsInv(s', pid, p, |s.log|);
      }
    } else {
      var s' := if reply == Error(false) then s else s.(counters := ExpirySet(s.counters, b.key, at));
      ExpireKeepsInv(s, b.key, at);
      HistoryIsKept(s, s');
      assert ProcOk(s', pid, p);
      if reply.Error? {
        SkipKeepsInv(s', pid, p);
      } else {
        JudgeKeepsInv(s', pid, p, p.phase.entry);
      }
    }
  }

  lemma {:induction false} StepKeepsInv(s: State, e: Event)
    requires Inv(s) && Enabled(s, e) && Timely(s, e)
    ensures Inv(Apply(s, e))
  {
    match e
    case Start(pid, req, read) =>
      hide Inv, Bumps;
      var p := Launched(req, read);
      BumpsAreOfTheWindow(req, WindowOf(read));
      assert p.bumps[0..] == p.bumps;
      ContinueKeepsInv(s, pid, p);
    case Command(pid, at, reply) =>
      CommandKeepsInv(s, pid, at, reply);
  }

  lemma {:induction false} RunKeepsInv(s: State, events: seq<Event>)
    requires Inv(s) && Possible(s, events)
    ensures Inv(Run(s, events))
    decreases |events|
  {
    if events != [] {
      StepKeepsInv(s, events[0]);
      RunKeepsInv(Apply(s, events[0]), events[1..]);
    }
  }
}
