/** Every interleaved run of budget checks, completions and row commits: what a spend report can
    be wrong by, and how far a scope's spend can overshoot its cap. */
module BudgetRuns {
  import opened Common
  import opened Budgets

  // ---------------------------------------------------------------- the ledger

  /** One completed request; it becomes visible to SQL when it is committed. */
  datatype Row = Row(tenant: Tenant, cost: real, addedAt: real, committedAt: Option<real>)

  /** Which rows of a scope a total ranges over. */
  datatype Selection = All | Committed | CommittedBefore(t: real) | ChargedWithinMinute(t: real)

  predicate Selects(sel: Selection, r: Row) {
    match sel
    case All => true
    case Committed => r.committedAt.Some?
    case CommittedBefore(t) => r.committedAt.Some? && r.committedAt.value < t
    case ChargedWithinMinute(t) => r.addedAt + LIVE_DELTA_TTL > t
  }

  function Share(r: Row, sc: Scope, sel: Selection): real {
    if InScope(r.tenant, sc) && Selects(sel, r) then r.cost else 0.0
  }

  function Total(rows: seq<Row>, sc: Scope, sel: Selection): real {
    if rows == [] then 0.0
    else Total(rows[..|rows| - 1], sc, sel) + Share(rows[|rows| - 1], sc, sel)
  }

  lemma TotalStep(rows: seq<Row>, r: Row, sc: Scope, sel: Selection)
    ensures Total(rows + [r], sc, sel) == Total(rows, sc, sel) + Share(r, sc, sel)
  {
    assert (rows + [r])[..|rows|] == rows;
  }

  lemma {:induction false} TotalAtMost(rows: seq<Row>, rows': seq<Row>, sc: Scope, sel: Selection, sel': Selection)
    requires |rows| == |rows'|
    requires forall i :: 0 <= i < |rows| ==> Share(rows[i], sc, sel) <= Share(rows'[i], sc, sel')
    ensures Total(rows, sc, sel) <= Total(rows', sc, sel')
  {
    if rows != [] {
      TotalAtMost(rows[..|rows| - 1], rows'[..|rows| - 1], sc, sel, sel');
    }
  }

  lemma {:induction false} TotalCovered(rows: seq<Row>, sc: Scope, sel: Selection, sel': Selection)
    requires forall i :: 0 <= i < |rows| ==>
      rows[i].cost >= 0.0 && (Selects(sel, rows[i]) || Selects(sel', rows[i]))
    ensures Total(rows, sc, All) <= Total(rows, sc, sel) + Total(rows, sc, sel')
  {
    if rows != [] {
      TotalCovered(rows[..|rows| - 1], sc, sel, sel');
    }
  }

  // ---------------------------------------------------------------- states and events

  /** A request between two awaits: part-way through the SQL sums, or let through. */
  datatype Phase =
    | Querying(began: real, done: nat, got: Spends)
    | InFlight

  datatype Proc = Proc(req: Request, phase: Phase)

  datatype State = State(now: real, tracker: Tracker, rows: seq<Row>, procs: map<nat, Proc>)

  datatype Action =
    | Arrive(pid: nat, req: Request)
    | ReadSum(pid: nat)
    | Answer(pid: nat, perModel: real)
    | Fail(pid: nat)
    | Complete(pid: nat, cost: real, model: Option<string>)
    | Abort(pid: nat)
    | Commit(row: nat)

  datatype Event = Event(at: real, act: Action)

  /** A gateway that has just started. */
  function Fresh(now: real): State {
    State(now, Tracker(map[], map[]), [], map[])
  }

  /** The three sums are read one after the other, each at its own time. */
  function ReadNext(rows: seq<Row>, t: Tenant, ph: Phase): Phase
    requires ph.Querying? && ph.done < 3
  {
    var got := ph.got;
    var got' :=
      if ph.done == 0 then
        got.(client := if Truthy(t.client) then Total(rows, ClientScope(t.client.value), Committed) else 0.0)
      else if ph.done == 1 then
        got.(workspace := Total(rows, WorkspaceScope(t.ws), Committed))
      else
        got.(user := if Truthy(t.user) then Total(rows, UserScope(t.ws, t.user.value), Committed) else 0.0);
    Querying(ph.began, ph.done + 1, got')
  }

  predicate Enabled(s: State, e: Event) {
    && s.now <= e.at
    && match e.act
       case Arrive(pid, _) => pid !in s.procs
       case ReadSum(pid) => pid in s.procs && s.procs[pid].phase.Querying? && s.procs[pid].phase.done < 3
       case Answer(pid, _) => pid in s.procs && s.procs[pid].phase.Querying? && s.procs[pid].phase.done == 3
       case Fail(pid) => pid in s.procs && s.procs[pid].phase.Querying?
       case Complete(pid, cost, _) => pid in s.procs && s.procs[pid].phase.InFlight? && cost >= 0.0
       case Abort(pid) => pid in s.procs && s.procs[pid].phase.InFlight?
       case Commit(row) => row < |s.rows| && s.rows[row].committedAt.None?
  }

  /** An allowed request is in flight; a denied one is gone. */
  function Admit(procs: map<nat, Proc>, pid: nat, req: Request, d: Decision): map<nat, Proc> {
    if d.Allowed? then procs[pid := Proc(req, InFlight)] else procs - {pid}
  }

  function Apply(s: State, e: Event): State
    requires Enabled(s, e)
  {
    match e.act
    case Arrive(pid, req) =>
      var (tr, d) := Start(s.tracker, req, e.at);
      State(e.at, tr, s.rows,
            if d.None? then s.procs[pid := Proc(req, Querying(e.at, 0, NO_SPEND))]
            else Admit(s.procs, pid, req, d.value))
    case ReadSum(pid) =>
      var p := s.procs[pid];
      State(e.at, s.tracker, s.rows, s.procs[pid := Proc(p.req, ReadNext(s.rows, p.req.tenant, p.phase))])
    case Answer(pid, perModel) =>
      var p := s.procs[pid];
      var (tr, d) := Finish(s.tracker, p.req, Some(p.phase.got.(perModel := perModel)), e.at);
      State(e.at, tr, s.rows, Admit(s.procs, pid, p.req, d))
    case Fail(pid) =>
      var p := s.procs[pid];
      var (tr, d) := Finish(s.tracker, p.req, None, e.at);
      State(e.at, tr, s.rows, Admit(s.procs, pid, p.req, d))
    case Complete(pid, cost, model) =>
      var t := s.procs[pid].req.tenant;
      State(e.at, Recorded(s.tracker, t, cost, model, e.at), s.rows + [Row(t, cost, e.at, None)], s.procs - {pid})
    case Abort(pid) =>
      State(e.at, s.tracker, s.rows, s.procs - {pid})
    case Commit(row) =>
      State(e.at, s.tracker, s.rows[row := s.rows[row].(committedAt := Some(e.at))], s.procs)
  }

  /** What the environment promises about the next event: no row is overdue, SQL answers, and it
      answers within its timeout. */
  predicate Timely(s: State, e: Event) {
    && (forall i :: 0 <= i < |s.rows| && s.rows[i].committedAt.None? ==>
          e.at <= s.rows[i].addedAt + COMMIT_DEADLINE)
    && !e.act.Fail?
    && (e.act.Answer? && e.act.pid in s.procs && s.procs[e.act.pid].phase.Querying? ==>
          e.at <= s.procs[e.act.pid].phase.began + DB_TIMEOUT)
  }

  predicate Possible(s: State, events: seq<Event>)
    decreases |events|
  {
    events == [] ||
    (Enabled(s, events[0]) && Timely(s, events[0]) && Possible(Apply(s, events[0]), events[1..]))
  }

  function Run(s: State, events: seq<Event>): State
    requires Possible(s, events)
    decreases |events|
  {
    if events == [] then s else Run(Apply(s, events[0]), events[1..])
  }

  // ---------------------------------------------------------------- the invariant

  /** A base read no earlier than `since`: it holds everything committed before, and nothing
      that was not spent. */
  ghost predicate Faithful(rows: seq<Row>, t: Tenant, base: Spends, since: real) {
    forall sc :: Named(sc) && InScope(t, sc) ==>
      Total(rows, sc, CommittedBefore(since)) <= base.Of(sc) <= Total(rows, sc, All)
  }

  /** While a query runs, the sums it has read so far are faithful. */
  ghost predicate FaithfulSoFar(rows: seq<Row>, t: Tenant, ph: Phase)
    requires ph.Querying?
  {
    forall sc :: Named(sc) && InScope(t, sc) && (match sc case ClientScope(_) => ph.done >= 1
                                             case WorkspaceScope(_) => ph.done >= 2
                                             case UserScope(_, _) => ph.done >= 3) ==>
      Total(rows, sc, CommittedBefore(ph.began)) <= ph.got.Of(sc) <= Total(rows, sc, All)
  }

  ghost predicate RowOk(r: Row, now: real) {
    && r.cost >= 0.0
    && r.addedAt <= now
    && (r.committedAt.Some? ==> r.committedAt.value <= now && r.committedAt.value <= r.addedAt + COMMIT_DEADLINE)
    && (r.committedAt.None? ==> now <= r.addedAt + COMMIT_DEADLINE)
  }

  /** The live delta of a scope holds exactly what was charged to it in the last minute. */
  ghost predicate DeltaExact(s: State) {
    forall sc, t :: t >= s.now ==>
      LiveSum(Entries(s.tracker.liveDelta, KeyOf(sc)), t) == Total(s.rows, sc, ChargedWithinMinute(t))
  }

  ghost predicate Inv(s: State) {
    && (forall i :: 0 <= i < |s.rows| ==> RowOk(s.rows[i], s.now))
    && DeltaExact(s)
    && (forall ck :: ck in s.tracker.cache ==>
          && s.tracker.cache[ck].expiry - CACHE_TTL - DB_TIMEOUT <= s.now
          && Faithful(s.rows, ck.tenant, s.tracker.cache[ck].base, s.tracker.cache[ck].expiry - CACHE_TTL - DB_TIMEOUT))
    && (forall p :: p in s.procs && s.procs[p].phase.Querying? ==>
          && s.procs[p].phase.began <= s.now
          && s.procs[p].phase.done <= 3
          && FaithfulSoFar(s.rows, s.procs[p].req.tenant, s.procs[p].phase))
  }

  lemma InvAfterSameRows(s: State, s': State)
    requires Inv(s) && s'.rows == s.rows && s'.now >= s.now
    requires forall i :: 0 <= i < |s.rows| ==> RowOk(s.rows[i], s'.now)
    requires s'.tracker == s.tracker
    requires forall p :: p in s'.procs && s'.procs[p].phase.Querying? ==>
      (p in s.procs && s.procs[p] == s'.procs[p]) ||
      (s'.procs[p].phase.began <= s'.now && s'.procs[p].phase.done <= 3
       && FaithfulSoFar(s'.rows, s'.procs[p].req.tenant, s'.procs[p].phase))
    ensures Inv(s')
  {
  }

  lemma RowsStayOk(s: State, e: Event)
    requires Inv(s) && Enabled(s, e) && Timely(s, e)
    ensures forall i :: 0 <= i < |s.rows| ==> RowOk(s.rows[i], e.at)
  {
  }

  /** Pruning the deltas of some keys keeps every scope's delta exact. */
  lemma PrunedStaysExact(s: State, keys: set<DeltaKey>, now: real)
    requires DeltaExact(s) && s.now <= now
    ensures DeltaExact(s.(now := now, tracker := s.tracker.(liveDelta := Pruned(s.tracker.liveDelta, keys, now))))
  {
    forall sc, t | t >= now
      ensures LiveSum(Entries(Pruned(s.tracker.liveDelta, keys, now), KeyOf(sc)), t)
          == Total(s.rows, sc, ChargedWithinMinute(t))
    {
      PruningIsInvisible(Entries(s.tracker.liveDelta, KeyOf(sc)), now, t);
    }
  }

  /** The SQL sum read now is faithful to any earlier moment. */
  lemma SumIsFaithful(rows: seq<Row>, sc: Scope, since: real, now: real)
    requires forall i :: 0 <= i < |rows| ==> RowOk(rows[i], now)
    ensures Total(rows, sc, CommittedBefore(since)) <= Total(rows, sc, Committed) <= Total(rows, sc, All)
  {
    TotalAtMost(rows, rows, sc, CommittedBefore(since), Committed);
    TotalAtMost(rows, rows, sc, Committed, All);
  }

  lemma ArriveKeepsInv(s: State, e: Event)
    requires Inv(s) && Enabled(s, e) && Timely(s, e) && e.act.Arrive?
    ensures Inv(Apply(s, e))
  {
    hide DeltaExact, Faithful, FaithfulSoFar, RowOk, Pruned, Report, Decide, ReadKeys;
    RowsStayOk(s, e);
    PrunedStaysExact(s, ReadKeys(e.act.req.tenant, e.act.req.caps.Substr()), e.at);
    NowStaysExact(s, e.at);
    DeltaLeavesOthers(s.(now := e.at, tracker := Apply(s, e).tracker), Apply(s, e));
    DeltaLeavesOthers(s.(now := e.at), Apply(s, e));
    NothingReadYet(s.rows, e.act.req.tenant, e.at);
  }

  /** Time passing, and other parts of the state, leave the deltas exact. */
  lemma NowStaysExact(s: State, now: real)
    requires DeltaExact(s) && s.now <= now
    ensures DeltaExact(s.(now := now))
  {
  }

  lemma DeltaLeavesOthers(s: State, s': State)
    requires s'.now == s.now && s'.rows == s.rows
    ensures s'.tracker.liveDelta == s.tracker.liveDelta ==> (DeltaExact(s) <==> DeltaExact(s'))
  {
  }

  lemma NothingReadYet(rows: seq<Row>, t: Tenant, now: real)
    ensures FaithfulSoFar(rows, t, Querying(now, 0, NO_SPEND))
  {
  }

  lemma ReadSumKeepsInv(s: State, e: Event)
    requires Inv(s) && Enabled(s, e) && Timely(s, e) && e.act.ReadSum?
    ensures Inv(Apply(s, e))
  {
    RowsStayOk(s, e);
    var p := s.procs[e.act.pid];
    forall sc
      ensures Total(s.rows, sc, CommittedBefore(p.phase.began)) <= Total(s.rows, sc, Committed)
      ensures Total(s.rows, sc, Committed) <= Total(s.rows, sc, All)
    {
      SumIsFaithful(s.rows, sc, p.phase.began, e.at);
    }
    InvAfterSameRows(s, Apply(s, e));
  }

  lemma AnswerKeepsInv(s: State, e: Event)
    requires Inv(s) && Enabled(s, e) && Timely(s, e) && e.act.Answer?
    ensures Inv(Apply(s, e))
  {
    hide DeltaExact, Faithful, FaithfulSoFar, Pruned, Report, Decide, ReadKeys;
    RowsStayOk(s, e);
    var p := s.procs[e.act.pid];
    PrunedStaysExact(s, ReadKeys(p.req.tenant, p.req.caps.Substr()), e.at);
    DeltaLeavesOthers(s.(now := e.at, tracker := Apply(s, e).tracker), Apply(s, e));
    DeltaLeavesOthers(s.(now := e.at, tracker := s.tracker.(liveDelta := Apply(s, e).tracker.liveDelta)), Apply(s, e));
    AnswerIsFaithful(s.rows, p, e.act.perModel, e.at - DB_TIMEOUT);
    assert e.at - DB_TIMEOUT == e.at + CACHE_TTL - CACHE_TTL - DB_TIMEOUT;
  }

  lemma AnswerIsFaithful(rows: seq<Row>, p: Proc, perModel: real, since: real)
    requires p.phase.Querying? && p.phase.done == 3 && since <= p.phase.began
    requires FaithfulSoFar(rows, p.req.tenant, p.phase) && forall i :: 0 <= i < |rows| ==> rows[i].cost >= 0.0
    ensures Faithful(rows, p.req.tenant, p.phase.got.(perModel := perModel), since)
  {
    hide Total;
    forall sc | Named(sc) && InScope(p.req.tenant, sc)
      ensures Total(rows, sc, CommittedBefore(since)) <= p.phase.got.Of(sc) <= Total(rows, sc, All)
    {
      TotalAtMost(rows, rows, sc, CommittedBefore(since), CommittedBefore(p.phase.began));
    }
  }

  /** A completion is charged to a scope's key exactly when the request lies in the scope. */
  lemma ChargedIffInScope(t: Tenant, model: Option<string>, sc: Scope)
    ensures KeyOf(sc) in ChargedKeys(t, model) <==> InScope(t, sc)
  {
  }

  /** A completion is charged to a scope's delta exactly when its row lies in the scope. */
  lemma ChargedLikeItsRow(items: seq<Entry>, rows: seq<Row>, t: Tenant, cost: real, sc: Scope, now: real, u: real)
    requires u >= now && cost >= 0.0
    requires LiveSum(items, u) == Total(rows, sc, ChargedWithinMinute(u))
    ensures LiveSum(items + (if InScope(t, sc) && cost > 0.0 then [Entry(cost, now + LIVE_DELTA_TTL)] else []), u)
         == Total(rows + [Row(t, cost, now, None)], sc, ChargedWithinMinute(u))
  {
    TotalStep(rows, Row(t, cost, now, None), sc, ChargedWithinMinute(u));
    LiveSumStep(items, Entry(cost, now + LIVE_DELTA_TTL), u);
    assert items + [] == items;
  }

  lemma RecordedEntries(tr: Tracker, t: Tenant, cost: real, model: Option<string>, now: real, sc: Scope)
    ensures Entries(Recorded(tr, t, cost, model, now).liveDelta, KeyOf(sc))
         == Entries(tr.liveDelta, KeyOf(sc)) +
            (if InScope(t, sc) && cost > 0.0 then [Entry(cost, now + LIVE_DELTA_TTL)] else [])
  {
    ChargedIffInScope(t, model, sc);
    assert Entries(tr.liveDelta, KeyOf(sc)) + [] == Entries(tr.liveDelta, KeyOf(sc));
  }

  /** Recording a completion keeps every scope's delta exact. */
  lemma RecordedStaysExact(s: State, t: Tenant, cost: real, model: Option<string>, now: real)
    requires DeltaExact(s) && s.now <= now && cost >= 0.0
    ensures DeltaExact(State(now, Recorded(s.tracker, t, cost, model, now),
                             s.rows + [Row(t, cost, now, None)], s.procs))
  {
    var delta' := Recorded(s.tracker, t, cost, model, now).liveDelta;
    forall sc, u | u >= now
      ensures LiveSum(Entries(delta', KeyOf(sc)), u)
           == Total(s.rows + [Row(t, cost, now, None)], sc, ChargedWithinMinute(u))
    {
      RecordedEntries(s.tracker, t, cost, model, now, sc);
      ChargedLikeItsRow(Entries(s.tracker.liveDelta, KeyOf(sc)), s.rows, t, cost, sc, now, u);
    }
  }

  /** A new row, or a commit made no earlier than `since`, keeps a base faithful. */
  lemma FaithfulAfterRow(rows: seq<Row>, r: Row, t: Tenant, base: Spends, since: real)
    requires Faithful(rows, t, base, since) && r.cost >= 0.0 && r.committedAt.None?
    ensures Faithful(rows + [r], t, base, since)
  {
    forall sc | Named(sc) && InScope(t, sc)
      ensures Total(rows + [r], sc, CommittedBefore(since)) <= base.Of(sc) <= Total(rows + [r], sc, All)
    {
      TotalStep(rows, r, sc, CommittedBefore(since));
      TotalStep(rows, r, sc, All);
    }
  }

  lemma SoFarAfterRow(rows: seq<Row>, r: Row, t: Tenant, ph: Phase)
    requires ph.Querying? && FaithfulSoFar(rows, t, ph) && r.cost >= 0.0 && r.committedAt.None?
    ensures FaithfulSoFar(rows + [r], t, ph)
  {
    forall sc ensures Total(rows + [r], sc, CommittedBefore(ph.began)) == Total(rows, sc, CommittedBefore(ph.began))
    {
      TotalStep(rows, r, sc, CommittedBefore(ph.began));
    }
    forall sc ensures Total(rows + [r], sc, All) >= Total(rows, sc, All) {
      TotalStep(rows, r, sc, All);
    }
  }

  lemma CompleteKeepsInv(s: State, e: Event)
    requires Inv(s) && Enabled(s, e) && Timely(s, e) && e.act.Complete?
    ensures Inv(Apply(s, e))
  {
    RowsStayOk(s, e);
    var t, cost := s.procs[e.act.pid].req.tenant, e.act.cost;
    var r := Row(t, cost, e.at, None);
    var s' := Apply(s, e);
    RecordedStaysExact(s, t, cost, e.act.model, e.at);
    forall ck | ck in s'.tracker.cache
      ensures Faithful(s'.rows, ck.tenant, s'.tracker.cache[ck].base,
                       s'.tracker.cache[ck].expiry - CACHE_TTL - DB_TIMEOUT)
    {
      FaithfulAfterRow(s.rows, r, ck.tenant, s.tracker.cache[ck].base,
                       s.tracker.cache[ck].expiry - CACHE_TTL - DB_TIMEOUT);
    }
    forall p | p in s'.procs && s'.procs[p].phase.Querying?
      ensures FaithfulSoFar(s'.rows, s'.procs[p].req.tenant, s'.procs[p].phase)
    {
      SoFarAfterRow(s.rows, r, s.procs[p].req.tenant, s.procs[p].phase);
    }
  }

  /** Committing a row at `now` changes no total but those of what is committed by later. */
  lemma {:induction false} CommitKeepsTotals(rows: seq<Row>, i: nat, now: real, sc: Scope, sel: Selection)
    requires i < |rows| && rows[i].committedAt.None?
    requires sel.All? || sel.ChargedWithinMinute? || (sel.CommittedBefore? && sel.t <= now)
    ensures Total(rows[i := rows[i].(committedAt := Some(now))], sc, sel) == Total(rows, sc, sel)
  {
    var rows' := rows[i := rows[i].(committedAt := Some(now))];
    TotalAtMost(rows, rows', sc, sel, sel);
    TotalAtMost(rows', rows, sc, sel, sel);
  }

  lemma CommitKeepsInv(s: State, e: Event)
    requires Inv(s) && Enabled(s, e) && Timely(s, e) && e.act.Commit?
    ensures Inv(Apply(s, e))
  {
    hide Total, Entries, LiveSum, InScope, Named;
    RowsStayOk(s, e);
    var s' := Apply(s, e);
    forall sc, sel: Selection | sel.All? || sel.ChargedWithinMinute? || (sel.CommittedBefore? && sel.t <= e.at)
      ensures Total(s'.rows, sc, sel) == Total(s.rows, sc, sel)
    {
      CommitKeepsTotals(s.rows, e.act.row, e.at, sc, sel);
    }
    forall ck | ck in s'.tracker.cache
      ensures Faithful(s'.rows, ck.tenant, s'.tracker.cache[ck].base,
                       s'.tracker.cache[ck].expiry - CACHE_TTL - DB_TIMEOUT)
    {
      assert Faithful(s.rows, ck.tenant, s.tracker.cache[ck].base, s.tracker.cache[ck].expiry - CACHE_TTL - DB_TIMEOUT);
    }
  }

  lemma StepKeepsInv(s: State, e: Event)
    requires Inv(s) && Enabled(s, e) && Timely(s, e)
    ensures Inv(Apply(s, e))
  {
    match e.act
    case Arrive(_, _) => ArriveKeepsInv(s, e);
    case ReadSum(_) => ReadSumKeepsInv(s, e);
    case Answer(_, _) => AnswerKeepsInv(s, e);
    case Complete(_, _, _) => CompleteKeepsInv(s, e);
    case Abort(_) => RowsStayOk(s, e);
    case Commit(_) => CommitKeepsInv(s, e);
    case Fail(_) => assert false;
  }

  // ---------------------------------------------------------------- the two-sided bound

  /** The base the judgement of an arriving or answered request starts from. */
  ghost predicate BaseFor(s: State, e: Event, req: Request, base: Spends)
    requires Enabled(s, e)
  {
    match e.act
    case Arrive(_, r) =>
      r == req && AnyCap(r.caps) && r.Key() in s.tracker.cache
      && s.tracker.cache[r.Key()].expiry > e.at && base == s.tracker.cache[r.Key()].base
    case Answer(pid, perModel) =>
      req == s.procs[pid].req && base == s.procs[pid].phase.got.(perModel := perModel)
    case _ => false
  }

  /** What the gateway reports for a scope is never less than what was really spent there, and
      exceeds it by at most what the scope spent in the last minute. */
  lemma ReportIsTwoSided(s: State, e: Event, req: Request, base: Spends, sc: Scope)
    requires Inv(s) && Enabled(s, e) && Timely(s, e) && BaseFor(s, e, req, base)
    requires Named(sc) && InScope(req.tenant, sc)
    ensures var reported := Report(s.tracker.liveDelta, req.tenant, req.caps.Substr(), base, e.at).Of(sc);
            && Total(s.rows, sc, All) <= reported
            && reported <= Total(s.rows, sc, All) + Total(s.rows, sc, ChargedWithinMinute(e.at))
  {
    RowsStayOk(s, e);
    var since := if e.act.Arrive? then s.tracker.cache[req.Key()].expiry - CACHE_TTL - DB_TIMEOUT
                 else s.procs[e.act.pid].phase.began;
    assert Total(s.rows, sc, CommittedBefore(since)) <= base.Of(sc) <= Total(s.rows, sc, All);
    assert LiveSum(Entries(s.tracker.liveDelta, KeyOf(sc)), e.at) == Total(s.rows, sc, ChargedWithinMinute(e.at));
    assert Report(s.tracker.liveDelta, req.tenant, req.caps.Substr(), base, e.at).Of(sc)
        == base.Of(sc) + LiveSum(Entries(s.tracker.liveDelta, KeyOf(sc)), e.at);
    TotalCovered(s.rows, sc, CommittedBefore(since), ChargedWithinMinute(e.at));
  }

  /** Every state a run can reach satisfies the invariant. */
  lemma {:induction false} RunKeepsInv(s: State, events: seq<Event>)
    requires Inv(s) && Possible(s, events)
    ensures Inv(Run(s, events))
    decreases |events|
  {
    if events != [] {
      StepKeepsInv(s, events[0]);
      RunKeepsInv(Apply(s, events[0]), events[1..]);
    }
  }

  lemma FreshIsOk(start: real)
    ensures Inv(Fresh(start))
  {
  }

  /** Two-sided spend bound: in every run of a fresh gateway, at every spend report. */
  lemma SpendReportBound(start: real, events: seq<Event>, e: Event, req: Request, base: Spends, sc: Scope)
    requires Possible(Fresh(start), events)
    requires var s := Run(Fresh(start), events);
             Enabled(s, e) && Timely(s, e) && BaseFor(s, e, req, base)
    requires Named(sc) && InScope(req.tenant, sc)
    ensures var s := Run(Fresh(start), events);
            var reported := Report(s.tracker.liveDelta, req.tenant, req.caps.Substr(), base, e.at).Of(sc);
            && Total(s.rows, sc, All) <= reported
            && reported <= Total(s.rows, sc, All) + Total(s.rows, sc, ChargedWithinMinute(e.at))
  {
    RunKeepsInv(Fresh(start), events);
    ReportIsTwoSided(Run(Fresh(start), events), e, req, base, sc);
  }

  // ---------------------------------------------------------------- bounded overshoot

  /** The requests of a scope between an allowing check and their completion. */
  function InFlightIn(s: State, sc: Scope): set<nat> {
    set p | p in s.procs && s.procs[p].phase.InFlight? && InScope(s.procs[p].req.tenant, sc)
  }

  /** The load a scope is under: every request of the scope carries its cap, each completion in
      it costs at most `most`, and at most `k` are in flight. */
  predicate Loaded(s: State, e: Event, sc: Scope, cap: real, k: nat, most: real)
    requires Enabled(s, e)
  {
    && (e.act.Arrive? && InScope(e.act.req.tenant, sc) ==> e.act.req.caps.Of(sc) == Some(cap))
    && (e.act.Complete? && InScope(s.procs[e.act.pid].req.tenant, sc) ==> e.act.cost <= most)
    && |InFlightIn(Apply(s, e), sc)| <= k
  }

  predicate AllLoaded(s: State, events: seq<Event>, sc: Scope, cap: real, k: nat, most: real)
    requires Possible(s, events)
    decreases |events|
  {
    events == [] ||
    (Loaded(s, events[0], sc, cap, k, most) && AllLoaded(Apply(s, events[0]), events[1..], sc, cap, k, most))
  }

  /** The most that `n` requests can cost. */
  function Worst(most: real, n: nat): real {
    if n == 0 then 0.0 else Worst(most, n - 1) + most
  }

  lemma {:induction false} WorstIsProduct(most: real, n: nat)
    ensures Worst(most, n) == most * n as real
  {
    if n > 0 {
      WorstIsProduct(most, n - 1);
      assert most * (n - 1) as real + most == most * n as real;
    }
  }

  lemma {:induction false} WorstGrows(most: real, n: nat, k: nat)
    requires most >= 0.0 && n <= k
    ensures 0.0 <= Worst(most, n) <= Worst(most, k)
  {
    if n > 0 {
      WorstGrows(most, n - 1, k - 1);
    } else if k > 0 {
      WorstGrows(most, n, k - 1);
    }
  }

  /** Spend so far plus the worst the requests in flight can still add. */
  function Exposure(s: State, sc: Scope, most: real): real {
    Total(s.rows, sc, All) + Worst(most, |InFlightIn(s, sc)|)
  }

  ghost predicate CapsAgree(s: State, sc: Scope, cap: real) {
    forall p :: p in s.procs && InScope(s.procs[p].req.tenant, sc) ==> s.procs[p].req.caps.Of(sc) == Some(cap)
  }

  /** An allowing check has just seen the scope's spend below its cap. */
  lemma AllowedMeansBelowCap(s: State, e: Event, sc: Scope, cap: real)
    requires Inv(s) && Enabled(s, e) && Timely(s, e) && Named(sc) && cap > 0.0 && CapsAgree(s, sc, cap)
    requires e.act.Arrive? || e.act.Answer?
    requires e.act.Arrive? && InScope(e.act.req.tenant, sc) ==> e.act.req.caps.Of(sc) == Some(cap)
    requires var s' := Apply(s, e); e.act.pid in InFlightIn(s', sc)
    ensures Total(s.rows, sc, All) < cap
  {
    var req := if e.act.Arrive? then e.act.req else s.procs[e.act.pid].req;
    var base := if e.act.Arrive? then s.tracker.cache[req.Key()].base
                else s.procs[e.act.pid].phase.got.(perModel := e.act.perModel);
    ReportIsTwoSided(s, e, req, base, sc);
  }

  /** How one event changes the set of requests in flight in a scope. */
  lemma InFlightChanges(s: State, e: Event, sc: Scope)
    requires Enabled(s, e)
    ensures var before, after := InFlightIn(s, sc), InFlightIn(Apply(s, e), sc);
            match e.act
            case Arrive(pid, _) => pid in after || after == before
            case Answer(pid, _) => pid in after || after == before
            case Fail(pid) => pid in after || after == before
            case Complete(pid, _, _) => after == before - {pid}
            case Abort(pid) => after == before - {pid}
            case ReadSum(_) => after == before
            case Commit(_) => after == before
  {
  }

  lemma CapsStayAgreed(s: State, e: Event, sc: Scope, cap: real, k: nat, most: real)
    requires Enabled(s, e) && Loaded(s, e, sc, cap, k, most) && CapsAgree(s, sc, cap)
    ensures CapsAgree(Apply(s, e), sc, cap)
  {
  }

  /** A request that leaves takes its worst case with it. */
  lemma LeavingKeepsExposure(before: set<nat>, after: set<nat>, pid: nat, most: real)
    requires most >= 0.0 && after == before - {pid}
    ensures Worst(most, |after|) + (if pid in before then most else 0.0) == Worst(most, |before|)
  {
    if pid in before {
      assert |after| == |before| - 1;
    } else {
      assert after == before;
    }
  }

  /** What one event adds to a scope's spend. */
  function Added(s: State, e: Event, sc: Scope): real
    requires Enabled(s, e)
  {
    if e.act.Complete? && InScope(s.procs[e.act.pid].req.tenant, sc) then e.act.cost else 0.0
  }

  lemma TotalChanges(s: State, e: Event, sc: Scope)
    requires Enabled(s, e)
    ensures Total(Apply(s, e).rows, sc, All) == Total(s.rows, sc, All) + Added(s, e, sc)
  {
    match e.act
    case Complete(pid, cost, _) => TotalStep(s.rows, Row(s.procs[pid].req.tenant, cost, e.at, None), sc, All);
    case Commit(i) => CommitKeepsTotals(s.rows, i, e.at, sc, All);
    case _ =>
  }

  lemma StepKeepsExposure(s: State, e: Event, sc: Scope, cap: real, k: nat, most: real)
    requires Inv(s) && Enabled(s, e) && Timely(s, e) && Loaded(s, e, sc, cap, k, most)
    requires Named(sc) && cap > 0.0 && most >= 0.0 && CapsAgree(s, sc, cap)
    requires Exposure(s, sc, most) < cap + Worst(most, k)
    ensures Exposure(Apply(s, e), sc, most) < cap + Worst(most, k)
  {
    var before, after := InFlightIn(s, sc), InFlightIn(Apply(s, e), sc);
    InFlightChanges(s, e, sc);
    TotalChanges(s, e, sc);
    if (e.act.Arrive? || e.act.Answer?) && e.act.pid in after {
      AllowedMeansBelowCap(s, e, sc, cap);
      WorstGrows(most, |after|, k);
    } else if e.act.Complete? || e.act.Abort? {
      LeavingKeepsExposure(before, after, e.act.pid, most);
    } else {
      assert after == before;
    }
  }

  lemma {:induction false} RunKeepsExposure(s: State, events: seq<Event>, sc: Scope, cap: real, k: nat, most: real)
    requires Inv(s) && Possible(s, events) && AllLoaded(s, events, sc, cap, k, most)
    requires Named(sc) && cap > 0.0 && most >= 0.0 && CapsAgree(s, sc, cap)
    requires Exposure(s, sc, most) < cap + Worst(most, k)
    ensures Exposure(Run(s, events), sc, most) < cap + Worst(most, k)
    decreases |events|
  {
    if events != [] {
      StepKeepsInv(s, events[0]);
      StepKeepsExposure(s, events[0], sc, cap, k, most);
      CapsStayAgreed(s, events[0], sc, cap, k, most);
      RunKeepsExposure(Apply(s, events[0]), events[1..], sc, cap, k, most);
    }
  }

  /** Bounded overshoot: under a positive cap, with at most `k` requests in flight that cost at
      most `most` each, a scope's spend stays strictly below `cap + k * most` in every run. */
  lemma BoundedOvershoot(start: real, events: seq<Event>, sc: Scope, cap: real, k: nat, most: real)
    requires Possible(Fresh(start), events) && AllLoaded(Fresh(start), events, sc, cap, k, most)
    requires Named(sc) && cap > 0.0 && most >= 0.0
    ensures Total(Run(Fresh(start), events).rows, sc, All) < cap + most * k as real
  {
    var s0 := Fresh(start);
    assert InFlightIn(s0, sc) == {};
    WorstGrows(most, 0, k);
    RunKeepsExposure(s0, events, sc, cap, k, most);
    WorstGrows(most, 0, |InFlightIn(Run(s0, events), sc)|);
    WorstIsProduct(most, k);
  }

  // ---------------------------------------------------------------- where the caps do not bind

  /** A request whose scope has reached its cap is let through on arrival exactly when none of its caps
      is other than zero: the fast path takes a zero cap for an unset one. */
  lemma {:induction false} ReachedCapAdmitsIff(s: State, e: Event, sc: Scope, cap: real)
    requires Inv(s) && Enabled(s, e) && Timely(s, e) && Named(sc)
    requires e.act.Arrive? && InScope(e.act.req.tenant, sc) && e.act.req.caps.Of(sc) == Some(cap)
    requires Total(s.rows, sc, All) >= cap
    ensures e.act.pid in InFlightIn(Apply(s, e), sc) <==> !AnyCap(e.act.req.caps)
  {
    hide Inv, Total, Report, Timely, ReadKeys, Pruned;
    var r := e.act.req;
    if AnyCap(r.caps) && r.Key() in s.tracker.cache && s.tracker.cache[r.Key()].expiry > e.at {
      ReportIsTwoSided(s, e, r, s.tracker.cache[r.Key()].base, sc);
    }
  }

  /** A request that had to wait for SQL is not let through when its scope has reached its cap meanwhile. */
  lemma {:induction false} ReachedCapRefusesAnswer(s: State, e: Event, sc: Scope, cap: real)
    requires Inv(s) && Enabled(s, e) && Timely(s, e) && Named(sc) && e.act.Answer?
    requires InScope(s.procs[e.act.pid].req.tenant, sc) && s.procs[e.act.pid].req.caps.Of(sc) == Some(cap)
    requires Total(s.rows, sc, All) >= cap
    ensures e.act.pid !in Apply(s, e).procs
  {
    hide Inv, Total, Report, Timely, ReadKeys, Pruned;
    var p := s.procs[e.act.pid];
    ReportIsTwoSided(s, e, p.req, p.phase.got.(perModel := e.act.perModel), sc);
  }

  /** So it is at every state a run of a fresh gateway can reach. */
  lemma {:induction false} ReachedCapInRuns(start: real, events: seq<Event>, e: Event, sc: Scope, cap: real)
    requires Possible(Fresh(start), events) && Named(sc)
    requires var s := Run(Fresh(start), events);
             && Enabled(s, e) && Timely(s, e) && Total(s.rows, sc, All) >= cap
             && (e.act.Arrive? ==> InScope(e.act.req.tenant, sc) && e.act.req.caps.Of(sc) == Some(cap))
             && (e.act.Answer? ==> var r := s.procs[e.act.pid].req; InScope(r.tenant, sc) && r.caps.Of(sc) == Some(cap))
    ensures e.act.Arrive? ==>
      (e.act.pid in InFlightIn(Apply(Run(Fresh(start), events), e), sc) <==> !AnyCap(e.act.req.caps))
    ensures e.act.Answer? ==> e.act.pid !in Apply(Run(Fresh(start), events), e).procs
  {
    hide Possible, Run, Enabled, Timely, Total, Apply, InFlightIn, AnyCap, Inv;
    FreshIsOk(start);
    RunKeepsInv(Fresh(start), events);
    if e.act.Arrive? {
      ReachedCapAdmitsIff(Run(Fresh(start), events), e, sc, cap);
    } else if e.act.Answer? {
      ReachedCapRefusesAnswer(Run(Fresh(start), events), e, sc, cap);
    }
  }

  /** Every request of the scope is capped at nothing there, and has some cap that is not zero. */
  predicate CappedAtNothing(events: seq<Event>, sc: Scope) {
    forall i :: 0 <= i < |events| && events[i].act.Arrive? && InScope(events[i].act.req.tenant, sc) ==>
      events[i].act.req.caps.Of(sc) == Some(0.0) && AnyCap(events[i].act.req.caps)
  }

  ghost predicate NothingSpent(s: State, sc: Scope) {
    Total(s.rows, sc, All) == 0.0 && InFlightIn(s, sc) == {} && CapsAgree(s, sc, 0.0)
  }

  lemma {:induction false} StepSpendsNothing(s: State, e: Event, sc: Scope)
    requires Inv(s) && Enabled(s, e) && Timely(s, e) && Named(sc) && NothingSpent(s, sc)
    requires CappedAtNothing([e], sc)
    ensures NothingSpent(Apply(s, e), sc)
  {
    assert [e][0] == e;
    if e.act.Arrive? && InScope(e.act.req.tenant, sc) {
      ReachedCapAdmitsIff(s, e, sc, 0.0);
    }
    if e.act.Answer? && InScope(s.procs[e.act.pid].req.tenant, sc) {
      ReachedCapRefusesAnswer(s, e, sc, 0.0);
    }
    TotalChanges(s, e, sc);
    InFlightChanges(s, e, sc);
    hide Inv, Total, Timely;
    ZeroCapsAgree(s, e, sc);
    hide CapsAgree;
    LeavesNoOne(s, e, sc);
  }

  lemma ZeroCapsAgree(s: State, e: Event, sc: Scope)
    requires Enabled(s, e) && CapsAgree(s, sc, 0.0)
    requires e.act.Arrive? && InScope(e.act.req.tenant, sc) ==> e.act.req.caps.Of(sc) == Some(0.0)
    ensures CapsAgree(Apply(s, e), sc, 0.0)
  {
    hide Start, Finish, Recorded;
  }

  /** Nobody else enters the scope. */
  lemma LeavesNoOne(s: State, e: Event, sc: Scope)
    requires Enabled(s, e) && InFlightIn(s, sc) == {}
    requires e.act.Arrive? || e.act.Answer? || e.act.Fail? ==> e.act.pid !in InFlightIn(Apply(s, e), sc)
    ensures InFlightIn(Apply(s, e), sc) == {}
  {
    InFlightChanges(s, e, sc);
  }

  /** A zero cap holds, in every run, for a scope whose requests all carry another cap that is not zero. */
  lemma {:induction false} ZeroCapHolds(s: State, events: seq<Event>, sc: Scope)
    requires Inv(s) && Possible(s, events) && Named(sc) && NothingSpent(s, sc) && CappedAtNothing(events, sc)
    ensures NothingSpent(Run(s, events), sc)
    decreases |events|
  {
    hide Inv, NothingSpent, Apply, Timely, Enabled;
    if events != [] {
      StepKeepsInv(s, events[0]);
      StepSpendsNothing(s, events[0], sc);
      ZeroCapHolds(Apply(s, events[0]), events[1..], sc);
    }
  }

  /** Without one it does not: a client capped at nothing and not otherwise is let through and spends. */
  lemma ZeroCapIsNotEnforced(client: string, ws: string, cost: real)
    requires client != "" && cost >= 0.0
    ensures var r := Request(Tenant(Some(client), ws, None), Caps(Some(0.0), None, None, None));
            var events := [Event(0.0, Arrive(1, r)), Event(0.0, Complete(1, cost, None))];
            Possible(Fresh(0.0), events) && Total(Run(Fresh(0.0), events).rows, ClientScope(client), All) == cost
  {
    var r := Request(Tenant(Some(client), ws, None), Caps(Some(0.0), None, None, None));
    var e0, e1 := Event(0.0, Arrive(1, r)), Event(0.0, Complete(1, cost, None));
    var s0 := Fresh(0.0);
    var s1 := Apply(s0, e0);
    assert s1 == State(0.0, s0.tracker, [], map[1 := Proc(r, InFlight)]);
    var s2 := Apply(s1, e1);
    TotalStep([], Row(r.tenant, cost, 0.0, None), ClientScope(client), All);
    assert [] + [Row(r.tenant, cost, 0.0, None)] == [Row(r.tenant, cost, 0.0, None)];
    assert s2.rows == [Row(r.tenant, cost, 0.0, None)];
    hide Apply;
    assert [e0, e1][1..] == [e1] && [e1][1..] == [];
    assert Possible(s2, []) && Run(s2, []) == s2;
    assert Possible(s1, [e1]) && Run(s1, [e1]) == s2;
  }

  lemma ChargedModelEntries(tr: Tracker, t: Tenant, cost: real, model: string, substr: string, now: real)
    requires cost > 0.0 && model != ""
    ensures Entries(Recorded(tr, t, cost, Some(model), now).liveDelta, ModelKey(t.ws, substr))
         == Entries(tr.liveDelta, ModelKey(t.ws, substr)) +
            (if substr == model then [Entry(cost, now + LIVE_DELTA_TTL)] else [])
  {
    var items := Entries(tr.liveDelta, ModelKey(t.ws, substr));
    assert items + [] == items;
  }

  /** The per-model delta is written under the full model id and read under the cap's substring,
      so a completion moves the reported per-model spend exactly when the two are equal. */
  lemma PerModelDeltaSeenIff(tr: Tracker, t: Tenant, cost: real, model: string, substr: string, base: Spends, now: real)
    requires cost > 0.0 && model != "" && substr != ""
    ensures var after := Recorded(tr, t, cost, Some(model), now).liveDelta;
            Report(after, t, Some(substr), base, now).perModel
            == Report(tr.liveDelta, t, Some(substr), base, now).perModel + (if substr == model then cost else 0.0)
  {
    hide Recorded, Entries, LiveSum;
    var items := Entries(tr.liveDelta, ModelKey(t.ws, substr));
    ChargedModelEntries(tr, t, cost, model, substr, now);
    LiveSumStep(items, Entry(cost, now + LIVE_DELTA_TTL), now);
    assert items + [] == items;
  }
}
