/** The active-event table: what the consumer and the direct deletions make of it, how it is
    reloaded, and why it agrees with `fires` after every evaluation. */
module ActiveTable {
  import opened Common
  import opened AlertMachine
  import opened AlertTrace
  import opened AlertRecovery

  /** The columns of an active event that the processor reads back. */
  datatype Row = Row(tags: string, severity: int, triggerTime: int, triggerValue: string, number: int,
                     firstTrigger: int)

  type Table = map<EventKey, Row>

  function RowOf(f: Fired): Row {
    Row(f.tags, f.severity, f.triggerTime, f.triggerValue, f.number, f.firstTrigger)
  }

  /** One effect, once it has reached the table. */
  function Persist(t: Table, eff: Effect): Table {
    match eff
    case FirePush(h, f, _) => t[h := RowOf(f)]
    case RecoverPush(h, _) => t - {h}
    case ActiveDelete(h) => t - {h}
  }

  function PersistAll(t: Table, effs: seq<Effect>): Table {
    if effs == [] then t else Persist(PersistAll(t, effs[..|effs| - 1]), effs[|effs| - 1])
  }

  /** A row as it comes back: the judge type, and the times kept out of the table, are lost, and a
      zero first trigger time is replaced by the trigger time. */
  function LoadRow(r: Row): Fired {
    Fired(r.tags, r.severity, Origin, r.triggerTime, r.triggerValue, 0, r.number,
          if r.firstTrigger == 0 then r.triggerTime else r.firstTrigger)
  }

  function Load(t: Table, ruleId: int, datasourceId: int): map<EventKey, Fired> {
    map h | h in t && h.ruleId == ruleId && h.datasourceId == datasourceId :: LoadRow(t[h])
  }

  /** The machine that RecoverAlertCurEventFromDb leaves behind, given the rows it does not skip. */
  function Reloaded(rule: Rule, datasourceId: int, t: Table): Machine {
    var fires := Load(t, rule.id, datasourceId);
    Machine(rule, datasourceId, fires, map[], map h | h in fires :: 0, [])
  }

  /** What a reload can be expected to give back of a record. */
  function Durable(f: Fired): Fired {
    f.(judge := Origin, sentTime := 0)
  }

  predicate Touched(trace: seq<Effect>, h: EventKey) {
    exists eff <- trace :: eff.hash == h
  }

  lemma {:induction false} TableFollowsTrace(t: Table, trace: seq<Effect>, h: EventKey, start: Option<Fired>)
    ensures Lookup(PersistAll(t, trace), h) ==
            if !Touched(trace, h) then Lookup(t, h)
            else match Track(trace, h, start) case Some(f) => Some(RowOf(f)) case None => None
    ensures !Touched(trace, h) ==> Track(trace, h, start) == start
  {
    if trace == [] {
    } else {
      TableFollowsTrace(t, trace[..|trace| - 1], h, start);
      assert trace == trace[..|trace| - 1] + [trace[|trace| - 1]];
    }
  }

  lemma ReloadedIsTracked(rule: Rule, datasourceId: int, t: Table, rules: set<Rule>, stamped: bool)
    requires rule in rules
    ensures Tracked(Reloaded(rule, datasourceId, t), Beginning(Load(t, rule.id, datasourceId), rules, stamped))
  {
  }

  /** Memory/table refinement.  After every run from a reload, `fires` and the table have the same
      hashes and notification numbers, and reloading gives back the record of `h` exactly when its
      first trigger time is not the zero that DB2Mem takes for "unset". */
  lemma MemoryAgreesWithTable(rule: Rule, datasourceId: int, t: Table, xs: seq<Evaluation>, rules: set<Rule>,
                              h: EventKey)
    requires rule in rules
    requires PossibleRun(Reloaded(rule, datasourceId, t), xs)
    requires AllWithin(xs, Beginning(Load(t, rule.id, datasourceId), rules, false))
    ensures var m := Run(Reloaded(rule, datasourceId, t), xs);
            var t' := PersistAll(t, m.trace);
            && (h in m.fires <==> h in t' && h.ruleId == rule.id && h.datasourceId == datasourceId)
            && (h in m.fires ==>
                  var f := m.fires[h];
                  && t'[h].number == f.number
                  && (LoadRow(t'[h]) == Durable(f) <==> (f.firstTrigger == 0 ==> f.triggerTime == 0)))
            && (h.ruleId != rule.id || h.datasourceId != datasourceId ==> Lookup(t', h) == Lookup(t, h))
  {
    var m0 := Reloaded(rule, datasourceId, t);
    var b := Beginning(m0.fires, rules, false);
    ReloadedIsTracked(rule, datasourceId, t, rules, false);
    RunKeeps(m0, xs, b);
    var m := Run(m0, xs);
    TableFollowsTrace(t, m.trace, h, Lookup(b.fires, h));
    assert Track(m.trace, h, Lookup(b.fires, h)) == Lookup(m.fires, h);
  }

  lemma {:induction false} FirstTriggerStaysSet(trace: seq<Effect>, h: EventKey, start: map<EventKey, Fired>)
    requires LegalTrace(trace, start)
    requires h in start ==> start[h].firstTrigger != 0
    requires forall eff <- trace :: eff.FirePush? ==> eff.fired.triggerTime != 0
    ensures var open := Track(trace, h, Lookup(start, h)); open.Some? ==> open.value.firstTrigger != 0
  {
    if trace == [] {
    } else {
      FirstTriggerStaysSet(trace[..|trace| - 1], h, start);
    }
  }

  /** Whether a row shows the first trigger time that memory has: always once the hash was touched, before
      that unless DB2Mem replaced a zero. */
  lemma RowFirstTrigger(m: Machine, t: Table, b: Beginning, h: EventKey)
    requires Tracked(m, b) && b.fires == Load(t, m.rule.id, m.datasourceId) && h in m.fires
    ensures var t' := PersistAll(t, m.trace);
            && h in t' && (!Touched(m.trace, h) ==> h in t)
            && (t'[h].firstTrigger == m.fires[h].firstTrigger <==>
                Touched(m.trace, h) || t[h].firstTrigger != 0 || t[h].triggerTime == 0)
  {
    TableFollowsTrace(t, m.trace, h, Lookup(b.fires, h));
    assert Track(m.trace, h, Lookup(b.fires, h)) == Lookup(m.fires, h);
  }

  lemma RestartAt(m: Machine, t: Table, b: Beginning, h: EventKey)
    requires Tracked(m, b) && b.stamped && b.fires == Load(t, m.rule.id, m.datasourceId)
    requires forall k <- b.fires :: b.fires[k].firstTrigger != 0
    ensures Lookup(Load(PersistAll(t, m.trace), m.rule.id, m.datasourceId), h) ==
            if h in m.fires then Some(Durable(m.fires[h])) else None
  {
    TableFollowsTrace(t, m.trace, h, Lookup(b.fires, h));
    FirstTriggerStaysSet(m.trace, h, b.fires);
    assert Track(m.trace, h, Lookup(b.fires, h)) == Lookup(m.fires, h);
  }

  /** With nonzero trigger times a restart rebuilds the whole view, at any point of any run.  An own row
      needs a first trigger time or a trigger time; the rows of other rules may be anything. */
  lemma RestartRebuilds(rule: Rule, datasourceId: int, t: Table, xs: seq<Evaluation>, rules: set<Rule>)
    requires rule in rules
    requires PossibleRun(Reloaded(rule, datasourceId, t), xs)
    requires AllWithin(xs, Beginning(Load(t, rule.id, datasourceId), rules, true))
    requires forall h <- t :: h.ruleId == rule.id && h.datasourceId == datasourceId ==>
                                t[h].firstTrigger != 0 || t[h].triggerTime != 0
    ensures var m := Run(Reloaded(rule, datasourceId, t), xs);
            Load(PersistAll(t, m.trace), rule.id, datasourceId) == map h | h in m.fires :: Durable(m.fires[h])
  {
    var m0 := Reloaded(rule, datasourceId, t);
    var b := Beginning(m0.fires, rules, true);
    ReloadedIsTracked(rule, datasourceId, t, rules, true);
    RunKeeps(m0, xs, b);
    RestartView(Run(m0, xs), t, b);
  }

  lemma RestartView(m: Machine, t: Table, b: Beginning)
    requires Tracked(m, b) && b.stamped && b.fires == Load(t, m.rule.id, m.datasourceId)
    requires forall k <- b.fires :: b.fires[k].firstTrigger != 0
    ensures Load(PersistAll(t, m.trace), m.rule.id, m.datasourceId) == map h | h in m.fires :: Durable(m.fires[h])
  {
    var loaded := Load(PersistAll(t, m.trace), m.rule.id, m.datasourceId);
    var rebuilt := map h | h in m.fires :: Durable(m.fires[h]);
    forall h ensures Lookup(loaded, h) == Lookup(rebuilt, h) { RestartAt(m, t, b, h); }
    SameLookups(loaded, rebuilt);
  }

  // ------------------------------------------- the consumer runs behind

  /** The table together with the pushes that are still queued. */
  datatype Backlog = Backlog(table: Table, queue: seq<Effect>)

  /** The processor's side: a push is queued, a direct deletion reaches the table at once. */
  function Emit(k: Backlog, eff: Effect): Backlog {
    if eff.ActiveDelete? then k.(table := Persist(k.table, eff)) else k.(queue := k.queue + [eff])
  }

  /** The consumer's side: take up to `n` pushes off the other end of the queue. */
  function Consume(k: Backlog, n: nat): Backlog
    decreases n
  {
    if n == 0 || k.queue == [] then k
    else Consume(Backlog(Persist(k.table, k.queue[0]), k.queue[1..]), n - 1)
  }

  /** Effects are emitted one by one; after each, the consumer gets `pops` steps. */
  function Interleave(k: Backlog, effs: seq<Effect>, pops: seq<nat>): Backlog
    requires |pops| == |effs|
  {
    if effs == [] then k
    else Consume(Emit(Interleave(k, effs[..|effs| - 1], pops[..|effs| - 1]), effs[|effs| - 1]), pops[|effs| - 1])
  }

  /** No direct deletion of a hash comes after a push of that hash. */
  ghost predicate DeletesFirst(effs: seq<Effect>) {
    forall i, j :: 0 <= i < j < |effs| && effs[j].ActiveDelete? && effs[i].hash == effs[j].hash ==>
      effs[i].ActiveDelete?
  }

  lemma {:induction false} PersistAllSplit(t: Table, a: seq<Effect>, c: seq<Effect>)
    ensures PersistAll(t, a + c) == PersistAll(PersistAll(t, a), c)
  {
    if c == [] {
      assert a + c == a;
    } else {
      PersistAllSplit(t, a, c[..|c| - 1]);
      assert (a + c)[..|a + c| - 1] == a + c[..|c| - 1];
    }
  }

  lemma {:induction false} ConsumeKeepsOutcome(k: Backlog, n: nat)
    ensures PersistAll(Consume(k, n).table, Consume(k, n).queue) == PersistAll(k.table, k.queue)
    ensures Elements(Consume(k, n).queue) <= Elements(k.queue)
    decreases n
  {
    if n != 0 && k.queue != [] {
      PersistAllSplit(k.table, [k.queue[0]], k.queue[1..]);
      assert [k.queue[0]] + k.queue[1..] == k.queue;
      assert PersistAll(k.table, [k.queue[0]]) == Persist(k.table, k.queue[0]);
      ConsumeKeepsOutcome(Backlog(Persist(k.table, k.queue[0]), k.queue[1..]), n - 1);
    }
  }

  lemma {:induction false} DeleteCommutes(t: Table, queue: seq<Effect>, d: Effect)
    requires d.ActiveDelete? && forall eff <- queue :: eff.hash != d.hash
    ensures PersistAll(Persist(t, d), queue) == Persist(PersistAll(t, queue), d)
  {
    if queue == [] {
    } else {
      DeleteCommutes(t, queue[..|queue| - 1], d);
    }
  }

  lemma {:induction false} InterleavingOutcome(t: Table, effs: seq<Effect>, pops: seq<nat>)
    requires |pops| == |effs| && DeletesFirst(effs)
    ensures var k := Interleave(Backlog(t, []), effs, pops);
            && PersistAll(k.table, k.queue) == PersistAll(t, effs)
            && (forall eff <- k.queue :: eff in effs && !eff.ActiveDelete?)
  {
    if effs == [] {
    } else {
      var last := effs[|effs| - 1];
      var k := Interleave(Backlog(t, []), effs[..|effs| - 1], pops[..|effs| - 1]);
      InterleavingOutcome(t, effs[..|effs| - 1], pops[..|effs| - 1]);
      if last.ActiveDelete? {
        DeleteCommutes(k.table, k.queue, last);
      } else {
        PersistAllSplit(k.table, k.queue, [last]);
        assert PersistAll(PersistAll(k.table, k.queue), [last]) == Persist(PersistAll(k.table, k.queue), last);
      }
      var e := Emit(k, last);
      ConsumeKeepsOutcome(e, pops[|effs| - 1]);
      forall eff <- Interleave(Backlog(t, []), effs, pops).queue ensures eff in effs && !eff.ActiveDelete? {
        assert eff in Elements(e.queue);
      }
    }
  }

  /** However far the consumer lags, once the queue is drained the table is what persisting every
      effect in program order would have made of it. */
  lemma DrainedOutcome(t: Table, effs: seq<Effect>, pops: seq<nat>)
    requires |pops| == |effs| && DeletesFirst(effs)
    requires Interleave(Backlog(t, []), effs, pops).queue == []
    ensures Interleave(Backlog(t, []), effs, pops).table == PersistAll(t, effs)
  {
    InterleavingOutcome(t, effs, pops);
  }

  // ------------------------------- one evaluation deletes before it pushes

  /** What the trace has gained over `past`: deletions come first, and a hash that was pushed is
      alerting or no longer in `fires`. */
  ghost predicate Orderly(m: Machine, past: seq<Effect>, alerting: set<EventKey>) {
    && past <= m.trace
    && DeletesFirst(m.trace[|past|..])
    && (forall eff <- m.trace[|past|..] :: eff.ActiveDelete? || eff.hash in alerting || eff.hash !in m.fires)
  }

  lemma OrderlyPush(m: Machine, past: seq<Effect>, alerting: set<EventKey>, m': Machine, eff: Effect)
    requires Orderly(m, past, alerting) && m'.trace == m.trace + [eff] && !eff.ActiveDelete?
    requires eff.hash in alerting || eff.hash !in m'.fires
    requires m'.fires.Keys <= m.fires.Keys + alerting
    ensures Orderly(m', past, alerting)
  {
    assert m'.trace[|past|..] == m.trace[|past|..] + [eff];
  }

  lemma OrderlyDelete(m: Machine, past: seq<Effect>, alerting: set<EventKey>, m': Machine, eff: Effect)
    requires Orderly(m, past, alerting) && m'.trace == m.trace + [eff] && eff.ActiveDelete?
    requires (eff.hash in m.fires && eff.hash !in alerting) || forall d <- m.trace[|past|..] :: d.ActiveDelete?
    requires m'.fires.Keys <= m.fires.Keys
    ensures Orderly(m', past, alerting)
  {
    assert m'.trace[|past|..] == m.trace[|past|..] + [eff];
  }

  lemma {:induction false} MergePointsOrderly(m: Machine, ps: seq<RecoverPoint>, alerting: set<EventKey>)
    ensures var r := MergePoints(m, ps).m;
            Orderly(r, m.trace, alerting) && forall d <- r.trace[|m.trace|..] :: d.ActiveDelete?
  {
    if ps == [] {
    } else {
      MergePointsOrderly(m, ps[..|ps| - 1], alerting);
      var s := MergePoints(m, ps[..|ps| - 1]);
      var s' := MergePoints(m, ps);
      if s'.m != s.m {
        var eff := s'.m.trace[|s.m.trace|];
        OrderlyDelete(s.m, m.trace, alerting, s'.m, eff);
        assert s'.m.trace[|m.trace|..] == s.m.trace[|m.trace|..] + [eff];
      }
    }
  }

  lemma {:induction false} RecoverAllOrderly(m: Machine, past: seq<Effect>, alerting: set<EventKey>,
                                             ps: seq<RecoverPoint>, now: int, byRecover: bool)
    requires Orderly(m, past, alerting)
    ensures Orderly(RecoverAll(m, ps, now, byRecover), past, alerting)
  {
    if ps == [] {
    } else {
      RecoverAllOrderly(m, past, alerting, ps[..|ps| - 1], now, byRecover);
      var r := RecoverAll(m, ps[..|ps| - 1], now, byRecover);
      var r' := RecoverAll(m, ps, now, byRecover);
      if r' != r { OrderlyPush(r, past, alerting, r', r'.trace[|r.trace|]); }
    }
  }

  lemma {:induction false} FireAllOrderly(m: Machine, past: seq<Effect>, alerting: set<EventKey>, es: seq<Event>)
    requires Orderly(m, past, alerting) && forall e <- es :: e.hash in alerting
    ensures Orderly(FireAll(m, es), past, alerting)
  {
    if es == [] {
    } else {
      FireAllOrderly(m, past, alerting, es[..|es| - 1]);
      var r, r' := FireAll(m, es[..|es| - 1]), FireAll(m, es);
      if r' != r { OrderlyPush(r, past, alerting, r', r'.trace[|r.trace|]); }
    }
  }

  lemma {:induction false} HandleGroupsOrderly(m: Machine, past: seq<Effect>, alerting: set<EventKey>, cfg: Settings,
                                               gs: seq<seq<Event>>)
    requires Orderly(m, past, alerting) && forall g <- gs, e <- g :: e.hash in alerting
    ensures Orderly(HandleGroups(m, cfg, gs), past, alerting)
  {
    if gs == [] {
    } else {
      HandleGroupsOrderly(m, past, alerting, cfg, gs[..|gs| - 1]);
      var r, g := HandleGroups(m, cfg, gs[..|gs| - 1]), gs[|gs| - 1];
      ObserveAllQuiet(r, g);
      FireListFromGroup(r, cfg, g);
      FireAllOrderly(ObserveAll(r, g), past, alerting, FireList(r, cfg, g));
    }
  }

  lemma {:induction false} SelectAllOrderly(m: Machine, past: seq<Effect>, alerting: set<EventKey>, hs: seq<EventKey>)
    requires Orderly(m, past, alerting) && NoDuplicates(hs) && forall h <- hs :: h !in alerting
    ensures Orderly(SelectAll(m, hs).m, past, alerting)
  {
    if hs == [] {
    } else {
      SelectAllOrderly(m, past, alerting, hs[..|hs| - 1]);
      MergeByTags(m, hs[..|hs| - 1]);
      var s, s' := SelectAll(m, hs[..|hs| - 1]), SelectAll(m, hs);
      if s'.m != s.m { OrderlyDelete(s.m, past, alerting, s'.m, s'.m.trace[|s.m.trace|]); }
    }
  }

  /** What one evaluation adds to the trace. */
  ghost function NewEffects(m: Machine, x: Evaluation): seq<Effect>
    requires Possible(m, x)
  {
    EvalIsOrderly(m, x);
    Eval(m, x).trace[|m.trace|..]
  }

  lemma EvalIsOrderly(m: Machine, x: Evaluation)
    requires Possible(m, x)
    ensures Orderly(Eval(m, x), m.trace, x.alerting)
  {
    var past := m.trace;
    if x.settings.inhibit {
      MergePointsOrderly(m, x.recoverPoints, x.alerting);
      var s := MergePoints(m, x.recoverPoints);
      RecoverAllOrderly(s.m, past, x.alerting, KeptPoints(s.kept, x.labelOrder), x.recoverNow, true);
    } else {
      RecoverAllOrderly(m, past, x.alerting, x.recoverPoints, x.recoverNow, true);
    }
    if x.cached.Some? {
      HandleGroupsOrderly(RecoverByPoints(m, x).(rule := x.cached.value), past, x.alerting, x.settings, x.groups);
      var cleared := ClearPendings(FirePhase(m, x), x.alerting);
      if x.settings.inhibit {
        var s := SelectAll(cleared, x.hashOrder);
        SelectAllOrderly(cleared, past, x.alerting, x.hashOrder);
        RecoverAllOrderly(s.m, past, x.alerting, PlainPoints(KeptHashes(s.kept, x.tagOrder)), x.now, false);
      } else {
        RecoverAllOrderly(cleared, past, x.alerting, PlainPoints(x.hashOrder), x.now, false);
      }
    }
  }

  /** The table after a run in which every evaluation is followed by `pops[i]` chances for the
      consumer, and the queue is empty before the next evaluation starts. */
  ghost predicate DrainedRun(m: Machine, t: Table, xs: seq<Evaluation>, pops: seq<seq<nat>>, t': Table) {
    && |pops| == |xs| && PossibleRun(m, xs)
    && if xs == [] then t' == t
       else
         var n := |xs| - 1;
         exists between: Table ::
           && DrainedRun(m, t, xs[..n], pops[..n], between)
           && |pops[n]| == |NewEffects(Run(m, xs[..n]), xs[n])|
           && Interleave(Backlog(between, []), NewEffects(Run(m, xs[..n]), xs[n]), pops[n]) == Backlog(t', [])
  }

  /** A consumer that may lag arbitrarily within an evaluation, but persists in push order and is
      drained between evaluations, leaves the table that `MemoryAgreesWithTable` speaks of. */
  lemma {:induction false} DrainedRunOutcome(m: Machine, t: Table, xs: seq<Evaluation>, pops: seq<seq<nat>>, t': Table)
    requires m.trace == [] && DrainedRun(m, t, xs, pops, t')
    ensures t' == PersistAll(t, Run(m, xs).trace)
  {
    if xs == [] {
    } else {
      var n := |xs| - 1;
      var before, x := Run(m, xs[..n]), xs[n];
      var effs := NewEffects(before, x);
      var between: Table :| DrainedRun(m, t, xs[..n], pops[..n], between) && |pops[n]| == |effs|
                            && Interleave(Backlog(between, []), effs, pops[n]) == Backlog(t', []);
      DrainedRunOutcome(m, t, xs[..n], pops[..n], between);
      EvalIsOrderly(before, x);
      DrainedOutcome(between, effs, pops[n]);
      PersistAllSplit(t, before.trace, effs);
      assert Run(m, xs).trace == before.trace + effs;
    }
  }
}
