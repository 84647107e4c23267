/** What every run of the alert machine keeps: the trace of pushes is a word of the
    notification automaton, the automaton's state is what `fires` holds, and no hash fires or
    is pending without being known to the recovery map. */
module AlertTrace {
  import opened Common
  import opened AlertMachine

  /** What the trace alone says about `h`: the record of its last fire push, unless a recovery
      or a deletion came after it. */
  function Track(trace: seq<Effect>, h: EventKey, start: Option<Fired>): Option<Fired> {
    if trace == [] then start
    else
      var last := trace[|trace| - 1];
      if last.hash != h then Track(trace[..|trace| - 1], h, start)
      else if last.FirePush? then Some(last.fired)
      else None
  }

  /** The notification automaton: which effect may follow, given the open episode of its hash. */
  predicate Legal(open: Option<Fired>, eff: Effect) {
    match eff
    case FirePush(_, f, rule) =>
      if open.None? then f.number == 1 && f.firstTrigger == f.triggerTime
      else
        && f.number == open.value.number + 1
        && f.firstTrigger == open.value.firstTrigger
        && rule.repeatStep != 0
        && f.sentTime >= open.value.sentTime + rule.repeatStep * 60
        && (rule.maxNumber == 0 || f.number <= rule.maxNumber)
    case RecoverPush(_, f) =>
      open.Some? && f == open.value.(triggerValue := f.triggerValue)
    case ActiveDelete(_) => true
  }

  predicate LegalTrace(trace: seq<Effect>, start: map<EventKey, Fired>) {
    trace == [] ||
    (var last := trace[|trace| - 1];
     && LegalTrace(trace[..|trace| - 1], start)
     && Legal(Track(trace[..|trace| - 1], last.hash, Lookup(start, last.hash)), last))
  }

  /** How a run began: the `fires` it started from, the versions of the rule it will see, and
      whether all its events will carry a nonzero trigger time. */
  datatype Beginning = Beginning(fires: map<EventKey, Fired>, rules: set<Rule>, stamped: bool)

  predicate Acceptable(m: Machine, e: Event, b: Beginning) {
    Owned(m, e.hash) && (b.stamped ==> e.triggerTime != 0)
  }

  predicate Permitted(m: Machine, eff: Effect, b: Beginning) {
    && Owned(m, eff.hash)
    && (eff.FirePush? ==> eff.rule in b.rules && (b.stamped ==> eff.fired.triggerTime != 0))
  }

  /** The invariant of every state between operations. */
  ghost predicate Tracked(m: Machine, b: Beginning) {
    && LegalTrace(m.trace, b.fires)
    && (forall h :: Track(m.trace, h, Lookup(b.fires, h)) == Lookup(m.fires, h))
    && m.fires.Keys <= m.recovers.Keys
    && m.pendings.Keys <= m.recovers.Keys
    && (forall h <- m.fires :: Owned(m, h))
    && m.rule in b.rules
    && (forall eff <- m.trace :: Permitted(m, eff, b))
  }

  /** An operation keeps the identity of the machine and its invariant. */
  ghost predicate Keeps(m: Machine, m': Machine, b: Beginning) {
    Tracked(m', b) && m'.rule == m.rule && m'.datasourceId == m.datasourceId
  }

  // ------------------------------------------------ every operation keeps it

  lemma TrackAppend(trace: seq<Effect>, eff: Effect, h: EventKey, start: Option<Fired>)
    ensures Track(trace + [eff], h, start) ==
            if eff.hash != h then Track(trace, h, start)
            else if eff.FirePush? then Some(eff.fired) else None
  {
    assert (trace + [eff])[..|trace|] == trace;
  }

  lemma EffectKeepsTracked(m: Machine, b: Beginning, m': Machine, eff: Effect)
    requires Tracked(m, b)
    requires m'.trace == m.trace + [eff] && m'.rule == m.rule && m'.datasourceId == m.datasourceId
    requires Legal(Lookup(m.fires, eff.hash), eff) && Permitted(m, eff, b)
    requires forall h :: Lookup(m'.fires, h) ==
                         if h != eff.hash then Lookup(m.fires, h)
                         else if eff.FirePush? then Some(eff.fired) else None
    requires m'.fires.Keys <= m'.recovers.Keys && m'.pendings.Keys <= m'.recovers.Keys
    ensures Keeps(m, m', b)
  {
    assert m'.trace[..|m.trace|] == m.trace;
    assert Track(m.trace, eff.hash, Lookup(b.fires, eff.hash)) == Lookup(m.fires, eff.hash);
    forall h ensures Track(m'.trace, h, Lookup(b.fires, h)) == Lookup(m'.fires, h) {
      TrackAppend(m.trace, eff, h, Lookup(b.fires, h));
    }
    forall h <- m'.fires ensures Owned(m', h) {
      assert Lookup(m'.fires, h).Some?;
      assert h != eff.hash ==> Lookup(m.fires, h).Some?;
    }
  }

  lemma {:induction false} ObserveAllKeeps(m: Machine, es: seq<Event>, b: Beginning)
    requires Tracked(m, b)
    ensures Keeps(m, ObserveAll(m, es), b) && ObserveAll(m, es).fires == m.fires
    ensures forall e <- es :: e.hash in ObserveAll(m, es).recovers
    ensures m.recovers.Keys <= ObserveAll(m, es).recovers.Keys
  {
    if es == [] {
    } else {
      ObserveAllKeeps(m, es[..|es| - 1], b);
    }
  }

  lemma FireKeeps(m: Machine, e: Event, b: Beginning)
    requires Tracked(m, b) && e.hash in m.recovers && Acceptable(m, e, b)
    ensures Keeps(m, Fire(m, e), b) && Fire(m, e).recovers == m.recovers
  {
    var m' := Fire(m, e);
    if m' != m {
      EffectKeepsTracked(m, b, m', m'.trace[|m.trace|]);
    }
  }

  lemma {:induction false} FireAllKeeps(m: Machine, es: seq<Event>, b: Beginning)
    requires Tracked(m, b) && forall e <- es :: e.hash in m.recovers && Acceptable(m, e, b)
    ensures Keeps(m, FireAll(m, es), b) && FireAll(m, es).recovers == m.recovers
  {
    if es == [] {
    } else {
      FireAllKeeps(m, es[..|es| - 1], b);
      FireKeeps(FireAll(m, es[..|es| - 1]), es[|es| - 1], b);
    }
  }

  lemma {:induction false} EligibleFromGroup(m: Machine, interval: int, es: seq<Event>)
    ensures forall e <- EligibleOf(m, interval, es) :: e in es
  {
    if es == [] {
    } else {
      EligibleFromGroup(m, interval, es[..|es| - 1]);
    }
  }

  lemma {:induction false} AdmitMembers(es: seq<Event>, inhibit: bool, top: int)
    ensures forall e :: e in Admit(es, inhibit, top) <==> e in es && (inhibit ==> e.severity <= top)
  {
    if es == [] {
    } else {
      AdmitMembers(es[..|es| - 1], inhibit, top);
      assert es == es[..|es| - 1] + [es[|es| - 1]];
    }
  }

  lemma FireListFromGroup(m: Machine, cfg: Settings, g: seq<Event>)
    ensures forall e <- FireList(m, cfg, g) :: e in g
  {
    EligibleFromGroup(m, cfg.interval, g);
    var eligible := EligibleOf(m, cfg.interval, g);
    AdmitMembers(eligible, cfg.inhibit, TopSeverity(eligible));
  }

  lemma HandleGroupKeeps(m: Machine, cfg: Settings, g: seq<Event>, b: Beginning)
    requires Tracked(m, b) && forall e <- g :: Acceptable(m, e, b)
    ensures Keeps(m, HandleGroup(m, cfg, g), b)
  {
    ObserveAllKeeps(m, g, b);
    FireListFromGroup(m, cfg, g);
    FireAllKeeps(ObserveAll(m, g), FireList(m, cfg, g), b);
  }

  lemma {:induction false} HandleGroupsKeeps(m: Machine, cfg: Settings, gs: seq<seq<Event>>, b: Beginning)
    requires Tracked(m, b) && forall g <- gs, e <- g :: Acceptable(m, e, b)
    ensures Keeps(m, HandleGroups(m, cfg, gs), b)
  {
    if gs == [] {
    } else {
      HandleGroupsKeeps(m, cfg, gs[..|gs| - 1], b);
      HandleGroupKeeps(HandleGroups(m, cfg, gs[..|gs| - 1]), cfg, gs[|gs| - 1], b);
    }
  }

  lemma RecoverSingleKeeps(m: Machine, p: RecoverPoint, now: int, byRecover: bool, b: Beginning)
    requires Tracked(m, b)
    ensures Keeps(m, RecoverSingle(m, p, now, byRecover), b)
  {
    if Recoverable(m, p.hash, now, byRecover) {
      var m' := RecoverSingle(m, p, now, byRecover);
      EffectKeepsTracked(m, b, m', m'.trace[|m.trace|]);
    }
  }

  lemma {:induction false} RecoverAllKeeps(m: Machine, ps: seq<RecoverPoint>, now: int, byRecover: bool, b: Beginning)
    requires Tracked(m, b)
    ensures Keeps(m, RecoverAll(m, ps, now, byRecover), b)
  {
    if ps == [] {
    } else {
      RecoverAllKeeps(m, ps[..|ps| - 1], now, byRecover, b);
      RecoverSingleKeeps(RecoverAll(m, ps[..|ps| - 1], now, byRecover), ps[|ps| - 1], now, byRecover, b);
    }
  }

  lemma {:induction false} SelectAllKeeps(m: Machine, hs: seq<EventKey>, b: Beginning)
    requires Tracked(m, b)
    ensures Keeps(m, SelectAll(m, hs).m, b)
    ensures forall t <- SelectAll(m, hs).kept :: Owned(m, SelectAll(m, hs).kept[t].hash)
  {
    if hs == [] {
    } else {
      var s := SelectAll(m, hs[..|hs| - 1]);
      SelectAllKeeps(m, hs[..|hs| - 1], b);
      var s' := Select(s, hs[|hs| - 1]);
      if s'.m != s.m {
        EffectKeepsTracked(s.m, b, s'.m, s'.m.trace[|s.m.trace|]);
      }
    }
  }

  lemma {:induction false} MergePointsKeeps(m: Machine, ps: seq<RecoverPoint>, b: Beginning)
    requires Tracked(m, b) && forall p <- ps :: Owned(m, p.hash)
    ensures Keeps(m, MergePoints(m, ps).m, b)
    ensures forall l <- MergePoints(m, ps).kept :: Owned(m, MergePoints(m, ps).kept[l].hash)
  {
    if ps == [] {
    } else {
      var s := MergePoints(m, ps[..|ps| - 1]);
      MergePointsKeeps(m, ps[..|ps| - 1], b);
      var s' := MergePoint(s, ps[|ps| - 1]);
      if s'.m != s.m {
        EffectKeepsTracked(s.m, b, s'.m, s'.m.trace[|s.m.trace|]);
      }
    }
  }

  /** The evaluation is one that a run beginning as `b` announced. */
  ghost predicate Within(x: Evaluation, b: Beginning) {
    && (x.cached.Some? ==> x.cached.value in b.rules)
    && (b.stamped ==> forall g <- x.groups, e <- g :: e.triggerTime != 0)
  }

  ghost predicate AllWithin(xs: seq<Evaluation>, b: Beginning) {
    forall x <- xs :: Within(x, b)
  }

  lemma RecoverByPointsKeeps(m: Machine, x: Evaluation, b: Beginning)
    requires Tracked(m, b) && Possible(m, x)
    ensures Keeps(m, RecoverByPoints(m, x), b)
  {
    if x.settings.inhibit {
      var s := MergePoints(m, x.recoverPoints);
      MergePointsKeeps(m, x.recoverPoints, b);
      RecoverAllKeeps(s.m, KeptPoints(s.kept, x.labelOrder), x.recoverNow, true, b);
    } else {
      RecoverAllKeeps(m, x.recoverPoints, x.recoverNow, true, b);
    }
  }

  lemma FirePhaseKeeps(m: Machine, x: Evaluation, b: Beginning)
    requires Tracked(m, b) && Possible(m, x) && x.cached.Some? && Within(x, b)
    ensures Tracked(FirePhase(m, x), b)
    ensures FirePhase(m, x).rule == x.cached.value && FirePhase(m, x).datasourceId == m.datasourceId
  {
    RecoverByPointsKeeps(m, x, b);
    HandleGroupsKeeps(RecoverByPoints(m, x).(rule := x.cached.value), x.settings, x.groups, b);
  }

  lemma EvalKeeps(m: Machine, x: Evaluation, b: Beginning)
    requires Tracked(m, b) && Possible(m, x) && Within(x, b)
    ensures Tracked(Eval(m, x), b)
    ensures Eval(m, x).rule.id == m.rule.id && Eval(m, x).datasourceId == m.datasourceId
  {
    RecoverByPointsKeeps(m, x, b);
    if x.cached.Some? {
      FirePhaseKeeps(m, x, b);
      var cleared := ClearPendings(FirePhase(m, x), x.alerting);
      if x.settings.inhibit {
        var s := SelectAll(cleared, x.hashOrder);
        SelectAllKeeps(cleared, x.hashOrder, b);
        RecoverAllKeeps(s.m, PlainPoints(KeptHashes(s.kept, x.tagOrder)), x.now, false, b);
      } else {
        RecoverAllKeeps(cleared, PlainPoints(x.hashOrder), x.now, false, b);
      }
    }
  }

  /** Push-trace automaton and inclusion, over every run. */
  lemma {:induction false} RunKeeps(m: Machine, xs: seq<Evaluation>, b: Beginning)
    requires Tracked(m, b) && PossibleRun(m, xs) && AllWithin(xs, b)
    ensures Tracked(Run(m, xs), b)
    ensures Run(m, xs).rule.id == m.rule.id && Run(m, xs).datasourceId == m.datasourceId
  {
    if xs == [] {
    } else {
      RunKeeps(m, xs[..|xs| - 1], b);
      EvalKeeps(Run(m, xs[..|xs| - 1]), xs[|xs| - 1], b);
    }
  }

  /** The "do not has pending event" exit of RecoverSingle needs a hash in `fires` that the
      recovery map does not know: no reachable state has one. */
  lemma NoMissingPendingEvent(m: Machine, xs: seq<Evaluation>, b: Beginning, h: EventKey)
    requires Tracked(m, b) && PossibleRun(m, xs) && AllWithin(xs, b)
    ensures h in Run(m, xs).fires || h in Run(m, xs).pendings ==> h in Run(m, xs).recovers
  {
    RunKeeps(m, xs, b);
  }

  // --------------------------------------------------- notification bounds

  /** Fire pushes of `h` since its last recovery or deletion. */
  function EpisodeFires(trace: seq<Effect>, h: EventKey): nat {
    if trace == [] then 0
    else
      var last := trace[|trace| - 1];
      var before := EpisodeFires(trace[..|trace| - 1], h);
      if last.hash != h then before else if last.FirePush? then before + 1 else 0
  }

  /** The number the open episode of `h` started from: that of the loaded record if it is still
      the same episode, otherwise zero. */
  function EpisodeBase(trace: seq<Effect>, h: EventKey, start: Option<Fired>): int {
    if trace == [] then (if start.Some? then start.value.number else 0)
    else
      var last := trace[|trace| - 1];
      if last.hash == h && !last.FirePush? then 0 else EpisodeBase(trace[..|trace| - 1], h, start)
  }

  /** Notifications of an episode are numbered without gaps, under any rules. */
  lemma {:induction false} EpisodeNumbers(trace: seq<Effect>, h: EventKey, start: map<EventKey, Fired>)
    requires LegalTrace(trace, start)
    ensures var open := Track(trace, h, Lookup(start, h));
            var base, fires := EpisodeBase(trace, h, Lookup(start, h)), EpisodeFires(trace, h);
            && (open.Some? ==> open.value.number == base + fires)
            && (open.None? ==> base == fires == 0)
  {
    if trace == [] {
    } else {
      EpisodeNumbers(trace[..|trace| - 1], h, start);
    }
  }

  /** Under one positive maximum no push of an episode is numbered above it. */
  lemma {:induction false} EpisodeBound(trace: seq<Effect>, h: EventKey, start: map<EventKey, Fired>, max: int)
    requires LegalTrace(trace, start) && max > 0
    requires forall eff <- trace :: eff.FirePush? ==> eff.rule.maxNumber == max
    ensures var base, fires := EpisodeBase(trace, h, Lookup(start, h)), EpisodeFires(trace, h);
            fires > 0 ==> base + fires <= max
  {
    if trace == [] {
    } else {
      EpisodeBound(trace[..|trace| - 1], h, start, max);
      EpisodeNumbers(trace[..|trace| - 1], h, start);
    }
  }

  lemma {:induction false} RepeatStepZero(trace: seq<Effect>, h: EventKey, start: map<EventKey, Fired>)
    requires LegalTrace(trace, start)
    requires forall eff <- trace :: eff.FirePush? ==> eff.rule.repeatStep == 0
    ensures Track(trace, h, Lookup(start, h)).None? ==> EpisodeFires(trace, h) == 0
    ensures Track(trace, h, Lookup(start, h)).Some? && h !in start ==> EpisodeFires(trace, h) == 1
    ensures EpisodeFires(trace, h) <= 1
  {
    if trace == [] {
    } else {
      RepeatStepZero(trace[..|trace| - 1], h, start);
    }
  }

  lemma {:induction false} LegalPrefix(trace: seq<Effect>, start: map<EventKey, Fired>, n: nat)
    requires LegalTrace(trace, start) && n <= |trace|
    ensures LegalTrace(trace[..n], start)
  {
    if n < |trace| {
      LegalPrefix(trace[..|trace| - 1], start, n);
      assert trace[..|trace| - 1][..n] == trace[..n];
    } else {
      assert trace[..n] == trace;
    }
  }

  lemma {:induction false} TrackUntouched(trace: seq<Effect>, i: nat, j: nat, h: EventKey, start: Option<Fired>)
    requires i < j <= |trace| && trace[i].hash == h && trace[i].FirePush?
    requires forall k :: i < k < j ==> trace[k].hash != h
    ensures Track(trace[..j], h, start) == Some(trace[i].fired)
    decreases j
  {
    assert trace[..j][..j - 1] == trace[..j - 1];
    if i < j - 1 { TrackUntouched(trace, i, j - 1, h, start); }
  }

  /** `i` and `j` are consecutive fire pushes of one episode of `h`. */
  ghost predicate ConsecutiveFires(trace: seq<Effect>, i: int, j: int, h: EventKey) {
    && 0 <= i < j < |trace|
    && trace[i].FirePush? && trace[j].FirePush? && trace[i].hash == h && trace[j].hash == h
    && (forall k :: i < k < j ==> trace[k].hash != h)
  }

  lemma FiresAreSpaced(trace: seq<Effect>, start: map<EventKey, Fired>, i: int, j: int, h: EventKey)
    requires LegalTrace(trace, start) && ConsecutiveFires(trace, i, j, h)
    ensures trace[j].fired.sentTime >= trace[i].fired.sentTime + trace[j].rule.repeatStep * 60
  {
    LegalPrefix(trace, start, j + 1);
    assert trace[..j + 1][..j] == trace[..j];
    TrackUntouched(trace, i, j, h, Lookup(start, h));
  }

  /** Under one rule: an episode's pushes are numbered without gaps, at most up to a positive `maxNumber`,
      counting the ones before a reload; consecutive ones are at least the repeat step apart; if the step is
      zero an episode that began in memory has exactly one. */
  lemma NotificationBounds(m: Machine, xs: seq<Evaluation>, start: map<EventKey, Fired>, rule: Rule, h: EventKey)
    requires Tracked(m, Beginning(start, {rule}, false)) && PossibleRun(m, xs)
    requires AllWithin(xs, Beginning(start, {rule}, false))
    ensures var trace, fires := Run(m, xs).trace, Run(m, xs).fires;
            var base, count := EpisodeBase(trace, h, Lookup(start, h)), EpisodeFires(trace, h);
            && (h in fires ==> fires[h].number == base + count)
            && (rule.maxNumber > 0 && count > 0 ==> base + count <= rule.maxNumber)
            && (rule.repeatStep == 0 ==> count <= 1 && (h in fires && h !in start ==> count == 1))
            && (forall i, j :: ConsecutiveFires(trace, i, j, h) ==>
                  trace[j].fired.sentTime >= trace[i].fired.sentTime + rule.repeatStep * 60)
  {
    RunKeeps(m, xs, Beginning(start, {rule}, false));
    var trace := Run(m, xs).trace;
    assert Track(trace, h, Lookup(start, h)) == Lookup(Run(m, xs).fires, h);
    EpisodeNumbers(trace, h, start);
    if rule.maxNumber > 0 { EpisodeBound(trace, h, start, rule.maxNumber); }
    if rule.repeatStep == 0 { RepeatStepZero(trace, h, start); }
    forall i, j | ConsecutiveFires(trace, i, j, h)
      ensures trace[j].fired.sentTime >= trace[i].fired.sentTime + rule.repeatStep * 60
    {
      FiresAreSpaced(trace, start, i, j, h);
      assert trace[j] in trace;
    }
  }
}
