/** The per-model cap over whole runs, and when a check reads SQL again. */
module BudgetModels {
  import opened Common
  import opened Budgets
  import opened BudgetRuns

  // ---------------------------------------------------------------- the history of a run

  /** One completion, with the full id of the model that served it. */
  datatype Spent = Spent(ws: string, model: Option<string>, cost: real, at: real)

  /** One answer of SQL: for whom, under which substring, and the per-model sum. */
  datatype Answered = Answered(tenant: Tenant, substr: Option<string>, perModel: real, at: real)

  function SpentBy(s: State, e: Event): seq<Spent>
    requires Enabled(s, e)
  {
    match e.act
    case Complete(pid, cost, model) => [Spent(s.procs[pid].req.tenant.ws, model, cost, e.at)]
    case _ => []
  }

  function AnsweredBy(s: State, e: Event): seq<Answered>
    requires Enabled(s, e)
  {
    match e.act
    case Answer(pid, perModel) =>
      var r := s.procs[pid].req;
      [Answered(r.tenant, if r.caps.perModel.Some? then Some(r.caps.perModel.value.0) else None, perModel, e.at)]
    case _ => []
  }

  function Completions(s: State, events: seq<Event>): seq<Spent>
    requires Possible(s, events)
    decreases |events|
  {
    if events == [] then [] else SpentBy(s, events[0]) + Completions(Apply(s, events[0]), events[1..])
  }

  function Answers(s: State, events: seq<Event>): seq<Answered>
    requires Possible(s, events)
    decreases |events|
  {
    if events == [] then [] else AnsweredBy(s, events[0]) + Answers(Apply(s, events[0]), events[1..])
  }

  /** What a workspace spent, in the minute before `t`, under exactly this model id. */
  function LastMinute(past: seq<Spent>, ws: string, model: string, t: real): real {
    if past == [] then 0.0
    else
      var c := past[|past| - 1];
      LastMinute(past[..|past| - 1], ws, model, t) +
      (if c.ws == ws && c.model == Some(model) && c.at + 60.0 > t then c.cost else 0.0)
  }

  lemma LastMinuteStep(past: seq<Spent>, c: Spent, ws: string, model: string, t: real)
    ensures LastMinute(past + [c], ws, model, t) ==
      LastMinute(past, ws, model, t) + (if c.ws == ws && c.model == Some(model) && c.at + 60.0 > t then c.cost else 0.0)
  {
    assert (past + [c])[..|past|] == past;
  }

  ghost predicate CostsNatural(past: seq<Spent>) {
    forall i :: 0 <= i < |past| ==> past[i].cost >= 0.0
  }

  lemma {:induction false} LastMinuteIsNatural(past: seq<Spent>, ws: string, model: string, t: real)
    requires CostsNatural(past)
    ensures LastMinute(past, ws, model, t) >= 0.0
  {
    if past != [] {
      LastMinuteIsNatural(past[..|past| - 1], ws, model, t);
    }
  }

  // ---------------------------------------------------------------- invariants

  /** The per-model delta holds exactly what was spent under the id in the last minute. */
  ghost predicate ModelDeltaExact(s: State, past: seq<Spent>) {
    forall ws, m, t :: m != "" && t >= s.now ==>
      LiveSum(Entries(s.tracker.liveDelta, ModelKey(ws, m)), t) == LastMinute(past, ws, m, t)
  }

  /** A snapshot holds what SQL answered for its tenant and substring, for half a second. */
  predicate Holds(ck: CacheKey, snap: Snapshot, a: Answered) {
    a.tenant == ck.tenant && a.substr == ck.model && a.perModel == snap.base.perModel && snap.expiry == a.at + 0.5
  }

  ghost predicate CacheIsAnswers(s: State, answers: seq<Answered>) {
    forall ck :: ck in s.tracker.cache ==>
      exists i :: 0 <= i < |answers| && Holds(ck, s.tracker.cache[ck], answers[i])
  }

  ghost predicate Known(s: State, past: seq<Spent>, answers: seq<Answered>) {
    ModelDeltaExact(s, past) && CostsNatural(past) && CacheIsAnswers(s, answers)
  }

  /** Only a completion adds to the deltas; everything else at most prunes them. */
  lemma DeltaMoves(s: State, e: Event) returns (keys: set<DeltaKey>)
    requires Enabled(s, e) && !e.act.Complete?
    ensures var delta := Apply(s, e).tracker.liveDelta;
            delta == s.tracker.liveDelta || delta == Pruned(s.tracker.liveDelta, keys, e.at)
  {
    hide Pruned, Report, Decide, ReadKeys;
    keys := match e.act
            case Arrive(_, req) => ReadKeys(req.tenant, req.caps.Substr())
            case Answer(pid, _) => ReadKeys(s.procs[pid].req.tenant, s.procs[pid].req.caps.Substr())
            case Fail(pid) => ReadKeys(s.procs[pid].req.tenant, s.procs[pid].req.caps.Substr())
            case _ => {};
  }

  lemma PrunedModelSum(delta: map<DeltaKey, seq<Entry>>, keys: set<DeltaKey>, now: real, k: DeltaKey, t: real)
    requires t >= now
    ensures LiveSum(Entries(Pruned(delta, keys, now), k), t) == LiveSum(Entries(delta, k), t)
  {
    PruningIsInvisible(Entries(delta, k), now, t);
  }

  lemma ModelEntriesAfter(tr: Tracker, t: Tenant, cost: real, model: Option<string>, now: real, ws: string, m: string)
    requires m != ""
    ensures Entries(Recorded(tr, t, cost, model, now).liveDelta, ModelKey(ws, m)) ==
            Entries(tr.liveDelta, ModelKey(ws, m)) +
            (if t.ws == ws && model == Some(m) && cost > 0.0 then [Entry(cost, now + 60.0)] else [])
  {
    var items := Entries(tr.liveDelta, ModelKey(ws, m));
    assert items + [] == items;
  }

  lemma StepKeepsModelDelta(s: State, past: seq<Spent>, e: Event)
    requires ModelDeltaExact(s, past) && Enabled(s, e)
    ensures ModelDeltaExact(Apply(s, e), past + SpentBy(s, e))
  {
    hide LiveSum, Pruned, Recorded, LastMinute, Start, Finish, ReadNext;
    var s', past' := Apply(s, e), past + SpentBy(s, e);
    if e.act.Complete? {
      var t, cost, model := s.procs[e.act.pid].req.tenant, e.act.cost, e.act.model;
      forall ws, m, u | m != "" && u >= e.at
        ensures LiveSum(Entries(s'.tracker.liveDelta, ModelKey(ws, m)), u) == LastMinute(past', ws, m, u)
      {
        var items := Entries(s.tracker.liveDelta, ModelKey(ws, m));
        ModelEntriesAfter(s.tracker, t, cost, model, e.at, ws, m);
        LiveSumStep(items, Entry(cost, e.at + 60.0), u);
        LastMinuteStep(past, Spent(t.ws, model, cost, e.at), ws, m, u);
        assert items + [] == items;
      }
    } else {
      assert past' == past;
      var keys := DeltaMoves(s, e);
      NowIs(s, e);
      forall ws, m, u | m != "" && u >= e.at
        ensures LiveSum(Entries(s'.tracker.liveDelta, ModelKey(ws, m)), u) == LastMinute(past', ws, m, u)
      {
        PrunedModelSum(s.tracker.liveDelta, keys, e.at, ModelKey(ws, m), u);
      }
    }
  }

  lemma NowIs(s: State, e: Event)
    requires Enabled(s, e)
    ensures Apply(s, e).now == e.at
  {
    hide Start, Finish, Recorded, ReadNext;
  }

  lemma StepKeepsAnswers(s: State, answers: seq<Answered>, e: Event)
    requires CacheIsAnswers(s, answers) && Enabled(s, e) && !e.act.Fail?
    ensures CacheIsAnswers(Apply(s, e), answers + AnsweredBy(s, e))
  {
    hide Pruned, Report, Decide, ReadKeys, Charge, Overlaps;
    var s', all := Apply(s, e), answers + AnsweredBy(s, e);
    forall ck | ck in s'.tracker.cache
      ensures exists i :: 0 <= i < |all| && Holds(ck, s'.tracker.cache[ck], all[i])
    {
      if ck in s.tracker.cache && s'.tracker.cache[ck] == s.tracker.cache[ck] {
        var i :| 0 <= i < |answers| && Holds(ck, s.tracker.cache[ck], answers[i]);
        assert Holds(ck, s'.tracker.cache[ck], all[i]);
      } else {
        assert Holds(ck, s'.tracker.cache[ck], all[|answers|]);
      }
    }
  }

  lemma StepIsKnown(s: State, past: seq<Spent>, answers: seq<Answered>, e: Event)
    requires Known(s, past, answers) && Enabled(s, e) && Timely(s, e)
    ensures Known(Apply(s, e), past + SpentBy(s, e), answers + AnsweredBy(s, e))
  {
    hide Apply, ModelDeltaExact, CacheIsAnswers;
    StepKeepsModelDelta(s, past, e);
    StepKeepsAnswers(s, answers, e);
  }

  lemma FirstEvent(s: State, events: seq<Event>)
    requires Possible(s, events) && events != []
    ensures var e, rest := events[0], events[1..];
            && Enabled(s, e) && Timely(s, e) && Possible(Apply(s, e), rest)
            && Run(s, events) == Run(Apply(s, e), rest)
            && Completions(s, events) == SpentBy(s, e) + Completions(Apply(s, e), rest)
            && Answers(s, events) == AnsweredBy(s, e) + Answers(Apply(s, e), rest)
  {
    hide Apply, SpentBy, AnsweredBy, Enabled, Timely;
  }

  lemma NoEvents(s: State)
    ensures Run(s, []) == s && Completions(s, []) == [] && Answers(s, []) == []
  {
  }

  lemma Assoc<T>(a: seq<T>, b: seq<T>, c: seq<T>)
    ensures a + b + c == a + (b + c)
  {
  }

  lemma {:induction false} RunIsKnown(s: State, past: seq<Spent>, answers: seq<Answered>, events: seq<Event>)
    requires Known(s, past, answers) && Possible(s, events)
    ensures Known(Run(s, events), past + Completions(s, events), answers + Answers(s, events))
    decreases |events|
  {
    hide Known, Apply, SpentBy, AnsweredBy, Enabled, Timely, Possible, Run, Completions, Answers;
    if events == [] {
      NoEvents(s);
      assert past + [] == past && answers + [] == answers;
    } else {
      var e, rest := events[0], events[1..];
      FirstEvent(s, events);
      StepIsKnown(s, past, answers, e);
      RunIsKnown(Apply(s, e), past + SpentBy(s, e), answers + AnsweredBy(s, e), rest);
      Assoc(past, SpentBy(s, e), Completions(Apply(s, e), rest));
      Assoc(answers, AnsweredBy(s, e), Answers(Apply(s, e), rest));
    }
  }

  lemma FreshIsKnown(start: real, events: seq<Event>)
    requires Possible(Fresh(start), events)
    ensures Known(Run(Fresh(start), events), Completions(Fresh(start), events), Answers(Fresh(start), events))
  {
    hide Run, Possible, Completions, Answers;
    NothingKnown(start);
    RunIsKnown(Fresh(start), [], [], events);
    assert [] + Completions(Fresh(start), events) == Completions(Fresh(start), events);
    assert [] + Answers(Fresh(start), events) == Answers(Fresh(start), events);
  }

  lemma NothingKnown(start: real)
    ensures Known(Fresh(start), [], [])
  {
  }

  // ---------------------------------------------------------------- the per-model cap

  /** A request that waited for SQL goes on only if what SQL answered for its per-model cap, and what was
      spent in the last minute under exactly the cap's substring as an id, are together below the cap; and
      that is all it takes when it has no other cap. */
  lemma {:induction false} AnswerJudgesPerModel(s: State, past: seq<Spent>, answers: seq<Answered>, e: Event,
                                                substr: string, cap: real)
    requires Known(s, past, answers) && Enabled(s, e) && e.act.Answer? && substr != ""
    requires s.procs[e.act.pid].req.caps.perModel == Some((substr, cap))
    ensures var r := s.procs[e.act.pid].req;
            var spend := e.act.perModel + LastMinute(past, r.tenant.ws, substr, e.at);
            && e.act.perModel <= spend
            && (e.act.pid in Apply(s, e).procs ==> spend < cap)
            && (r.caps.client.None? && r.caps.workspace.None? && r.caps.user.None? ==>
                 (e.act.pid in Apply(s, e).procs <==> spend < cap))
  {
    hide LiveSum, LastMinute, Pruned, Entries;
    var r := s.procs[e.act.pid].req;
    LastMinuteIsNatural(past, r.tenant.ws, substr, e.at);
    assert LiveSum(Entries(s.tracker.liveDelta, ModelKey(r.tenant.ws, substr)), e.at)
        == LastMinute(past, r.tenant.ws, substr, e.at);
    hide ModelDeltaExact, CacheIsAnswers;
  }

  /** A request that is let through on arrival under a per-model cap had an answer of SQL, at most half a
      second old and for the same tenant and substring, that with the last minute's spend under that id is
      below the cap. */
  lemma {:induction false} ArrivalJudgesPerModel(s: State, past: seq<Spent>, answers: seq<Answered>, e: Event,
                                                 substr: string, cap: real)
    requires Known(s, past, answers) && Enabled(s, e) && e.act.Arrive? && substr != ""
    requires e.act.req.caps.perModel == Some((substr, cap))
    ensures var r, s' := e.act.req, Apply(s, e);
            e.act.pid in s'.procs && s'.procs[e.act.pid].phase.InFlight? ==>
              exists i :: 0 <= i < |answers| && RecentFor(answers[i], r.tenant, substr, e.at)
                          && answers[i].perModel + LastMinute(past, r.tenant.ws, substr, e.at) < cap
  {
    hide LiveSum, LastMinute, Pruned, Entries;
    var r, s' := e.act.req, Apply(s, e);
    assert LiveSum(Entries(s.tracker.liveDelta, ModelKey(r.tenant.ws, substr)), e.at)
        == LastMinute(past, r.tenant.ws, substr, e.at);
    if e.act.pid in s'.procs && s'.procs[e.act.pid].phase.InFlight? {
      var ck := CacheKey(r.tenant, Some(substr));
      assert ck in s.tracker.cache && e.at < s.tracker.cache[ck].expiry;
      var i :| 0 <= i < |answers| && Holds(ck, s.tracker.cache[ck], answers[i]);
      assert RecentFor(answers[i], r.tenant, substr, e.at);
    }
  }

  predicate RecentFor(a: Answered, t: Tenant, substr: string, now: real) {
    a.tenant == t && a.substr == Some(substr) && now < a.at + 0.5
  }

  /** So it is at every state a run of a fresh gateway can reach: a per-model cap that SQL says is reached
      lets nothing through that waited for it, whatever the deltas hold. */
  lemma {:induction false} PerModelCapInRuns(start: real, events: seq<Event>, e: Event, substr: string, cap: real)
    requires Possible(Fresh(start), events) && substr != ""
    requires var s := Run(Fresh(start), events);
             && Enabled(s, e)
             && (e.act.Arrive? ==> e.act.req.caps.perModel == Some((substr, cap)))
             && (e.act.Answer? ==> s.procs[e.act.pid].req.caps.perModel == Some((substr, cap)))
    ensures var s := Run(Fresh(start), events);
            var past, answers := Completions(Fresh(start), events), Answers(Fresh(start), events);
            && (e.act.Answer? && e.act.perModel >= cap ==> e.act.pid !in Apply(s, e).procs)
            && (e.act.Arrive? && e.act.pid in Apply(s, e).procs && Apply(s, e).procs[e.act.pid].phase.InFlight? ==>
                 exists i :: 0 <= i < |answers| && RecentFor(answers[i], e.act.req.tenant, substr, e.at)
                             && answers[i].perModel + LastMinute(past, e.act.req.tenant.ws, substr, e.at) < cap)
  {
    hide Possible, Run, Known, Apply, Completions, Answers, LastMinute;
    FreshIsKnown(start, events);
    var s := Run(Fresh(start), events);
    var past, answers := Completions(Fresh(start), events), Answers(Fresh(start), events);
    if e.act.Arrive? {
      ArrivalJudgesPerModel(s, past, answers, e, substr, cap);
    } else if e.act.Answer? {
      AnswerJudgesPerModel(s, past, answers, e, substr, cap);
    }
  }

  /** The per-model spend a refusal names is what SQL answered plus the last minute's spend under the id. */
  lemma {:induction false} RefusalNamesPerModelSpend(s: State, past: seq<Spent>, answers: seq<Answered>, r: Request,
                                                     fetched: Spends, now: real, substr: string, cap: real)
    requires Known(s, past, answers) && s.now <= now && substr != "" && r.caps.perModel == Some((substr, cap))
    ensures var d, spend := Finish(s.tracker, r, Some(fetched), now).1,
                            fetched.perModel + LastMinute(past, r.tenant.ws, substr, now);
            && (d.Allowed? ==> spend < cap)
            && (d.Denied? && d.scope == "per_model" ==> d.cap == cap && d.spend == spend)
  {
    hide LiveSum, LastMinute, Pruned, Entries;
    assert LiveSum(Entries(s.tracker.liveDelta, ModelKey(r.tenant.ws, substr)), now)
        == LastMinute(past, r.tenant.ws, substr, now);
  }

  // ---------------------------------------------------------------- reading SQL again

  /** A completion makes a later check wait for SQL again exactly when it cost something and was made by
      the same client in the same workspace, or by the same user there. */
  lemma {:induction false} NextCheckReadsAgainIff(tr: Tracker, t: Tenant, cost: real, model: Option<string>, done: real,
                                                  r: Request, now: real)
    requires AnyCap(r.caps) && Start(tr, r, now).1.Some?
    ensures Start(Recorded(tr, t, cost, model, done), r, now).1.None? <==>
      cost > 0.0 && r.tenant.ws == t.ws && (r.tenant.client == t.client || r.tenant.user == t.user)
  {
    hide Pruned, Report, Decide, Charge;
  }

  // ---------------------------------------------------------------- when SQL fails

  predicate PositiveCaps(caps: Caps) {
    && (caps.client.Some? ==> caps.client.value > 0.0)
    && (caps.workspace.Some? ==> caps.workspace.value > 0.0)
    && (caps.user.Some? ==> caps.user.value > 0.0)
    && (caps.perModel.Some? ==> caps.perModel.value.1 > 0.0)
  }

  /** When SQL fails and nothing was spent in the last minute, every request with positive caps is let
      through, whatever it has spent before. */
  lemma {:induction false} FailsOpen(tr: Tracker, r: Request, now: real)
    requires tr.liveDelta == map[] && PositiveCaps(r.caps)
    ensures Finish(tr, r, None, now).1.Allowed?
  {
  }

  /** What SQL sums does not include a row that is not committed yet: hence the deltas. */
  lemma {:induction false} SqlSeesCommittedRows(rows: seq<Row>, r: Row, t: Tenant, ph: Phase)
    requires ph.Querying? && ph.done < 3 && r.committedAt.None?
    ensures ReadNext(rows + [r], t, ph) == ReadNext(rows, t, ph)
  {
    forall sc ensures Total(rows + [r], sc, Committed) == Total(rows, sc, Committed) {
      TotalStep(rows, r, sc, Committed);
    }
  }
}
