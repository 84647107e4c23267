/** The alert state machine of one rule on one datasource, as functions on values.

    The three maps of the source hold event objects.  Here each map keeps only the fields that
    are ever read back through it: `fires` the notification record, `pendings` the first
    evaluation time, `recovers` (pendingsUseByRecover) the last evaluation time.  The class
    `Processor` works on shared event objects and is proved to compute these functions.
    Orders in which Go visits a map are explicit arguments. */
module AlertMachine {
  import opened Common

  /** A label set, as its canonical text. */
  type Labels = string

  /** An event hash, identified with the text it digests. */
  datatype EventKey = EventKey(ruleId: int, labels: Labels, datasourceId: int, severity: int, query: string)

  datatype Judge = Origin | NotRecoverWhenNoData | RecoverOnCondition

  datatype Rule = Rule(id: int, forDuration: int, recoverDuration: int, repeatStep: int, maxNumber: int)

  const SEVERITY_LOWEST := 4

  /** A freshly built event, as it arrives at handleEvent. */
  datatype Event = Event(hash: EventKey, tags: string, severity: int, judge: Judge,
                         triggerTime: int, triggerValue: string, evalTime: int)

  /** What `fires` remembers about a hash. */
  datatype Fired = Fired(tags: string, severity: int, judge: Judge, triggerTime: int, triggerValue: string,
                         sentTime: int, number: int, firstTrigger: int)

  /** Everything the machine does to the outside: pushes onto the event queue, with the event as
      it was at that moment, and direct deletions from the active-event table.  A fire push
      records the rule in force. */
  datatype Effect =
    | FirePush(hash: EventKey, fired: Fired, rule: Rule)
    | RecoverPush(hash: EventKey, fired: Fired)
    | ActiveDelete(hash: EventKey)

  datatype Machine = Machine(rule: Rule, datasourceId: int, fires: map<EventKey, Fired>, pendings: map<EventKey, int>,
                             recovers: map<EventKey, int>, trace: seq<Effect>)

  /** The hash was computed by this rule on this datasource. */
  predicate Owned(m: Machine, h: EventKey) {
    h.ruleId == m.rule.id && h.datasourceId == m.datasourceId
  }

  /** A request to recover one hash, with the value to show, if any. */
  datatype RecoverPoint = RecoverPoint(hash: EventKey, value: Option<string>)

  datatype Settings = Settings(interval: int, inhibit: bool)

  // ---------------------------------------------------------------- firing

  /** The recovery map takes note of the evaluation. */
  function Remember(m: Machine, e: Event): Machine {
    m.(recovers := m.recovers[e.hash := e.evalTime])
  }

  /** Under a for-duration the hash becomes pending, if it is not already. */
  function Pend(m: Machine, e: Event): Machine {
    if m.rule.forDuration == 0 || e.hash in m.pendings then m
    else m.(pendings := m.pendings[e.hash := e.evalTime])
  }

  function Observe(m: Machine, e: Event): Machine {
    Pend(Remember(m, e), e)
  }

  function ObserveAll(m: Machine, es: seq<Event>): Machine {
    if es == [] then m else Observe(ObserveAll(m, es[..|es| - 1]), es[|es| - 1])
  }

  /** Observing events touches neither `fires` nor the trace. */
  lemma {:induction false} ObserveAllQuiet(m: Machine, es: seq<Event>)
    ensures var r := ObserveAll(m, es); r.fires == m.fires && r.trace == m.trace && r.rule == m.rule
  {
    if es == [] {
    } else {
      ObserveAllQuiet(m, es[..|es| - 1]);
    }
  }

  predicate Eligible(m: Machine, interval: int, e: Event) {
    m.rule.forDuration == 0
    || (e.hash in m.pendings && e.evalTime - m.pendings[e.hash] + interval >= m.rule.forDuration)
  }

  /** The events of a group that have lasted long enough, each judged when it is observed. */
  function EligibleOf(m: Machine, interval: int, es: seq<Event>): seq<Event> {
    if es == [] then []
    else
      var e := es[|es| - 1];
      EligibleOf(m, interval, es[..|es| - 1]) + (if Eligible(ObserveAll(m, es), interval, e) then [e] else [])
  }

  function TopSeverity(es: seq<Event>): int {
    if es == [] then SEVERITY_LOWEST
    else
      var top := TopSeverity(es[..|es| - 1]);
      if top > es[|es| - 1].severity then es[|es| - 1].severity else top
  }

  /** The loop of handleEvent as one fold: the machine, the ripe events and their top severity. */
  datatype Gathered = Gathered(m: Machine, ripe: seq<Event>, top: int)

  function Gather(s: Gathered, interval: int, e: Event): Gathered {
    var m := Observe(s.m, e);
    if Eligible(m, interval, e) then Gathered(m, s.ripe + [e], if s.top > e.severity then e.severity else s.top)
    else s.(m := m)
  }

  function GatherAll(m: Machine, interval: int, es: seq<Event>): Gathered {
    if es == [] then Gathered(m, [], SEVERITY_LOWEST)
    else Gather(GatherAll(m, interval, es[..|es| - 1]), interval, es[|es| - 1])
  }

  lemma {:induction false} GatherAllIsGroupwise(m: Machine, interval: int, es: seq<Event>)
    ensures var eligible := EligibleOf(m, interval, es);
            GatherAll(m, interval, es) == Gathered(ObserveAll(m, es), eligible, TopSeverity(eligible))
  {
    if es == [] {
    } else {
      var front, e := es[..|es| - 1], es[|es| - 1];
      GatherAllIsGroupwise(m, interval, front);
      GatherOne(ObserveAll(m, front), EligibleOf(m, interval, front), interval, e);
    }
  }

  lemma GatherOne(m: Machine, ripe: seq<Event>, interval: int, e: Event)
    ensures var r := Observe(m, e);
            var more := ripe + (if Eligible(r, interval, e) then [e] else []);
            Gather(Gathered(m, ripe, TopSeverity(ripe)), interval, e) == Gathered(r, more, TopSeverity(more))
  {
    assert (ripe + [e])[..|ripe|] == ripe;
    assert ripe + [] == ripe;
  }

  function Admit(es: seq<Event>, inhibit: bool, top: int): seq<Event> {
    if es == [] then []
    else
      var e := es[|es| - 1];
      Admit(es[..|es| - 1], inhibit, top) + (if inhibit && e.severity > top then [] else [e])
  }

  function PushFire(m: Machine, e: Event, number: int, firstTrigger: int): Machine {
    var f := Fired(e.tags, e.severity, e.judge, e.triggerTime, e.triggerValue, e.evalTime, number, firstTrigger);
    Effected(m.(fires := m.fires[e.hash := f]), FirePush(e.hash, f, m.rule))
  }

  function Fire(m: Machine, e: Event): Machine {
    if e.hash in m.fires then
      var f := m.fires[e.hash];
      if m.rule.repeatStep == 0 then m
      else if e.evalTime < f.sentTime + m.rule.repeatStep * 60 then m
      else if m.rule.maxNumber != 0 && f.number >= m.rule.maxNumber then m
      else PushFire(m, e, f.number + 1, f.firstTrigger)
    else PushFire(m, e, 1, e.triggerTime)
  }

  function FireAll(m: Machine, es: seq<Event>): Machine {
    if es == [] then m else Fire(FireAll(m, es[..|es| - 1]), es[|es| - 1])
  }

  /** The events of a group that reach fireEvent. */
  function FireList(m: Machine, cfg: Settings, g: seq<Event>): seq<Event> {
    var eligible := EligibleOf(m, cfg.interval, g);
    Admit(eligible, cfg.inhibit, TopSeverity(eligible))
  }

  function HandleGroup(m: Machine, cfg: Settings, g: seq<Event>): Machine {
    FireAll(ObserveAll(m, g), FireList(m, cfg, g))
  }

  function HandleGroups(m: Machine, cfg: Settings, gs: seq<seq<Event>>): Machine {
    if gs == [] then m else HandleGroup(HandleGroups(m, cfg, gs[..|gs| - 1]), cfg, gs[|gs| - 1])
  }

  // ------------------------------------------------------------- recovering

  function Erase<V>(m: map<EventKey, V>, h: EventKey): map<EventKey, V> {
    m - {h}
  }

  /** DeleteProcessEvent: the hash leaves all three maps. */
  function Detach(m: Machine, h: EventKey): Machine {
    m.(fires := Erase(m.fires, h), pendings := Erase(m.pendings, h), recovers := Erase(m.recovers, h))
  }

  function Effected(m: Machine, eff: Effect): Machine {
    m.(trace := m.trace + [eff])
  }

  /** The guard of RecoverSingle: is `h` recovered by a call at time `now`? */
  predicate Recoverable(m: Machine, h: EventKey, now: int, byRecover: bool) {
    && h in m.fires
    && (m.rule.recoverDuration > 0 ==> h in m.recovers && now - m.recovers[h] >= m.rule.recoverDuration)
    && (m.fires[h].judge == Origin || byRecover)
  }

  function RecoverSingle(m: Machine, p: RecoverPoint, now: int, byRecover: bool): Machine {
    if !Recoverable(m, p.hash, now, byRecover) then m
    else
      var f := m.fires[p.hash];
      var shown := if p.value.Some? then f.(triggerValue := p.value.value) else f;
      Effected(Detach(m, p.hash), RecoverPush(p.hash, shown))
  }

  function RecoverAll(m: Machine, ps: seq<RecoverPoint>, now: int, byRecover: bool): Machine {
    if ps == [] then m
    else RecoverSingle(RecoverAll(m, ps[..|ps| - 1], now, byRecover), ps[|ps| - 1], now, byRecover)
  }

  /** An inhibited recovery: the hash leaves `fires` and `pendings` without a push. */
  function DropInhibited(m: Machine, h: EventKey): Machine {
    Effected(m.(fires := Erase(m.fires, h), pendings := Erase(m.pendings, h)), ActiveDelete(h))
  }

  /** DeleteProcessEvent together with the table deletion that always follows it. */
  function Forget(m: Machine, h: EventKey): Machine {
    Effected(Detach(m, h), ActiveDelete(h))
  }

  /** The merge of recovering hashes by tags: a copy of the event kept for each tags value so
      far, and the machine after the ones that lost their place were dropped. */
  datatype Kept = Kept(hash: EventKey, severity: int)

  datatype Selection = Selection(m: Machine, kept: map<string, Kept>)

  function Select(s: Selection, h: EventKey): Selection {
    if h !in s.m.fires then s
    else
      var f := s.m.fires[h];
      if f.tags !in s.kept then s.(kept := s.kept[f.tags := Kept(h, f.severity)])
      else if s.kept[f.tags].severity > f.severity then
        Selection(DropInhibited(s.m, s.kept[f.tags].hash), s.kept[f.tags := Kept(h, f.severity)])
      else s
  }

  function SelectAll(m: Machine, hs: seq<EventKey>): Selection {
    if hs == [] then Selection(m, map[]) else Select(SelectAll(m, hs[..|hs| - 1]), hs[|hs| - 1])
  }

  function PlainPoints(hs: seq<EventKey>): seq<RecoverPoint> {
    seq(|hs|, i requires 0 <= i < |hs| => RecoverPoint(hs[i], None))
  }

  function KeptHashes(kept: map<string, Kept>, order: seq<string>): seq<EventKey>
    requires forall t <- order :: t in kept
  {
    seq(|order|, i requires 0 <= i < |order| => kept[order[i]].hash)
  }

  function KeptPoints(kept: map<Labels, RecoverPoint>, order: seq<Labels>): seq<RecoverPoint>
    requires forall l <- order :: l in kept
  {
    seq(|order|, i requires 0 <= i < |order| => kept[order[i]])
  }

  function ClearPendings(m: Machine, alerting: set<EventKey>): Machine {
    m.(pendings := map h | h in m.pendings && h in alerting :: m.pendings[h])
  }

  /** HandleRecover, visiting the hashes to recover as `hashOrder` and, under inhibition, the
      kept hashes in the order `tagOrder` of their tags. */
  function HandleRecover(m: Machine, alerting: set<EventKey>, now: int, inhibit: bool,
                         hashOrder: seq<EventKey>, tagOrder: seq<string>): Machine
    requires inhibit ==> Elements(tagOrder) <= SelectAll(ClearPendings(m, alerting), hashOrder).kept.Keys
  {
    var cleared := ClearPendings(m, alerting);
    if !inhibit then RecoverAll(cleared, PlainPoints(hashOrder), now, false)
    else
      var s := SelectAll(cleared, hashOrder);
      assert forall t <- tagOrder :: t in Elements(tagOrder);
      RecoverAll(s.m, PlainPoints(KeptHashes(s.kept, tagOrder)), now, false)
  }

  // ------------------------------------------------------- building events

  /** A point that crossed its threshold. */
  datatype AnomalyPoint = AnomalyPoint(labels: Labels, severity: int, query: string)

  /** What building an event, the event pipeline and the mutes left of it; None if dropped. */
  datatype Content = Content(tags: string, severity: int, judge: Judge, triggerTime: int, triggerValue: string)

  function HashOf(ruleId: int, datasourceId: int, p: AnomalyPoint): EventKey {
    EventKey(ruleId, p.labels, datasourceId, p.severity, p.query)
  }

  /** All hashes of the points, muted and dropped ones included. */
  function AlertingKeys(ruleId: int, datasourceId: int, points: seq<AnomalyPoint>): set<EventKey> {
    set p <- points :: HashOf(ruleId, datasourceId, p)
  }

  /** The surviving events, in the order of their points. */
  function BuiltEvents(ruleId: int, datasourceId: int, points: seq<AnomalyPoint>, outcomes: seq<Option<Content>>,
                       now: int): seq<Event>
    requires |points| == |outcomes|
  {
    if points == [] then []
    else
      var n := |points| - 1;
      var rest := BuiltEvents(ruleId, datasourceId, points[..n], outcomes[..n], now);
      rest + Survivor(HashOf(ruleId, datasourceId, points[n]), outcomes[n], now)
  }

  function Survivor(h: EventKey, outcome: Option<Content>, now: int): seq<Event> {
    match outcome
    case None => []
    case Some(c) => [Event(h, c.tags, c.severity, c.judge, c.triggerTime, c.triggerValue, now)]
  }

  /** The event that a point and what became of it call for. */
  ghost predicate IsEventOf(e: Event, ruleId: int, datasourceId: int, p: AnomalyPoint, outcome: Option<Content>,
                            now: int)
  {
    && e.hash == EventKey(ruleId, p.labels, datasourceId, p.severity, p.query) && e.evalTime == now
    && outcome == Some(Content(e.tags, e.severity, e.judge, e.triggerTime, e.triggerValue))
  }

  /** The positions of the points whose events survived, from left to right. */
  ghost predicate Surviving(at: seq<nat>, outcomes: seq<Option<Content>>) {
    Positions(at, |outcomes|) && forall i: nat :: i in at <==> i < |outcomes| && outcomes[i].Some?
  }

  lemma SurvivingStep(at: seq<nat>, outcomes: seq<Option<Content>>)
    requires outcomes != [] && Surviving(at, outcomes[..|outcomes| - 1])
    ensures var n := |outcomes| - 1; Surviving(if outcomes[n].Some? then at + [n] else at, outcomes)
  {
    var n := |outcomes| - 1;
    assert forall i :: 0 <= i < n ==> outcomes[..n][i] == outcomes[i];
    assert n !in at;
  }

  /** Exactly one event for each point that survived, in the order of the points, with the hash of its rule,
      labels, datasource, severity and query; `at` are the positions of these points. */
  lemma {:induction false} BuiltEventsExactly(ruleId: int, datasourceId: int, points: seq<AnomalyPoint>,
                                              outcomes: seq<Option<Content>>, now: int)
    returns (at: seq<nat>)
    requires |points| == |outcomes|
    ensures Surviving(at, outcomes)
    ensures var built := BuiltEvents(ruleId, datasourceId, points, outcomes, now);
            && |built| == |at|
            && forall k :: 0 <= k < |at| ==>
                 IsEventOf(built[k], ruleId, datasourceId, points[at[k]], outcomes[at[k]], now)
  {
    if points == [] {
      at := [];
    } else {
      var n := |points| - 1;
      var before := BuiltEventsExactly(ruleId, datasourceId, points[..n], outcomes[..n], now);
      SurvivingStep(before, outcomes);
      at := if outcomes[n].Some? then before + [n] else before;
      var rest := BuiltEvents(ruleId, datasourceId, points[..n], outcomes[..n], now);
      var built := BuiltEvents(ruleId, datasourceId, points, outcomes, now);
      forall k | 0 <= k < |at|
        ensures IsEventOf(built[k], ruleId, datasourceId, points[at[k]], outcomes[at[k]], now)
      {
        if k < |before| {
          assert built[k] == rest[k];
          assert points[..n][before[k]] == points[at[k]] && outcomes[..n][before[k]] == outcomes[at[k]];
        }
      }
    }
  }

  /** The alerting hashes are those of all points, whatever became of their events. */
  lemma AlertingKeysExactly(ruleId: int, datasourceId: int, points: seq<AnomalyPoint>, h: EventKey)
    ensures h in AlertingKeys(ruleId, datasourceId, points) <==>
            exists p <- points :: h == EventKey(ruleId, p.labels, datasourceId, p.severity, p.query)
  {
  }

  function WithLabels(es: seq<Event>, l: Labels): seq<Event> {
    if es == [] then []
    else WithLabels(es[..|es| - 1], l) + (if es[|es| - 1].hash.labels == l then [es[|es| - 1]] else [])
  }

  function LabelsOf(es: seq<Event>): set<Labels> {
    set e <- es :: e.hash.labels
  }

  function GroupsInOrder(es: seq<Event>, order: seq<Labels>): seq<seq<Event>> {
    seq(|order|, i requires 0 <= i < |order| => WithLabels(es, order[i]))
  }

  lemma {:induction false} WithLabelsMembers(es: seq<Event>, l: Labels)
    ensures forall e :: e in WithLabels(es, l) <==> e in es && e.hash.labels == l
  {
    if es == [] {
    } else {
      WithLabelsMembers(es[..|es| - 1], l);
      assert es == es[..|es| - 1] + [es[|es| - 1]];
    }
  }

  /** A group holds the events with its labels, each as often and in the order as they were built. */
  lemma {:induction false} WithLabelsInOrder(es: seq<Event>, l: Labels) returns (at: seq<nat>)
    ensures Positions(at, |es|) && forall i: nat :: i in at <==> i < |es| && es[i].hash.labels == l
    ensures |WithLabels(es, l)| == |at| && forall k :: 0 <= k < |at| ==> WithLabels(es, l)[k] == es[at[k]]
  {
    if es == [] {
      at := [];
    } else {
      var n := |es| - 1;
      at := WithLabelsInOrder(es[..n], l);
      if es[n].hash.labels == l { at := at + [n]; }
    }
  }

  /** Splitting the events by labels, in whatever order, gives groups as Possible asks for. */
  lemma SplitIsGrouped(es: seq<Event>, order: seq<Labels>)
    requires NoDuplicates(order)
    ensures GroupedByLabels(GroupsInOrder(es, order))
  {
    forall l { WithLabelsMembers(es, l); }
    assert forall i :: 0 <= i < |order| ==> GroupsInOrder(es, order)[i] == WithLabels(es, order[i]);
  }

  // ------------------------------------------------------- one evaluation

  /** The merge of recover points by labels in Eval, under inhibition. */
  datatype Merge = Merge(m: Machine, kept: map<Labels, RecoverPoint>)

  function MergePoint(s: Merge, p: RecoverPoint): Merge {
    if p.hash.labels !in s.kept then s.(kept := s.kept[p.hash.labels := p])
    else
      var rival := s.kept[p.hash.labels];
      if rival.hash.severity > p.hash.severity then
        Merge(Forget(s.m, rival.hash), s.kept[p.hash.labels := p])
      else s
  }

  function MergePoints(m: Machine, ps: seq<RecoverPoint>): Merge {
    if ps == [] then Merge(m, map[]) else MergePoint(MergePoints(m, ps[..|ps| - 1]), ps[|ps| - 1])
  }

  /** Everything one call of Eval depends on besides the machine: what the queries returned, what
      became of each event in the pipeline and the mutes, the clock, the rule cache, and the
      order in which maps were visited. */
  datatype Evaluation = Evaluation(
    settings: Settings,
    recoverPoints: seq<RecoverPoint>, recoverNow: int, labelOrder: seq<Labels>,
    cached: Option<Rule>, now: int, alerting: set<EventKey>, groups: seq<seq<Event>>,
    hashOrder: seq<EventKey>, tagOrder: seq<string>)

  function RecoverByPoints(m: Machine, x: Evaluation): Machine
    requires x.settings.inhibit ==> Elements(x.labelOrder) <= MergePoints(m, x.recoverPoints).kept.Keys
  {
    if !x.settings.inhibit then RecoverAll(m, x.recoverPoints, x.recoverNow, true)
    else
      var s := MergePoints(m, x.recoverPoints);
      assert forall l <- x.labelOrder :: l in Elements(x.labelOrder);
      RecoverAll(s.m, KeptPoints(s.kept, x.labelOrder), x.recoverNow, true)
  }

  function FirePhase(m: Machine, x: Evaluation): Machine
    requires x.cached.Some?
    requires x.settings.inhibit ==> Elements(x.labelOrder) <= MergePoints(m, x.recoverPoints).kept.Keys
  {
    HandleGroups(RecoverByPoints(m, x).(rule := x.cached.value), x.settings, x.groups)
  }

  /** The evaluation is one the source can perform from `m`: the orders enumerate exactly what is
      visited, the groups split the surviving events by labels, and every event is built at `now`
      for a hash that is reported as alerting. */
  ghost predicate Possible(m: Machine, x: Evaluation) {
    && (x.settings.inhibit ==> Enumerates(x.labelOrder, MergePoints(m, x.recoverPoints).kept.Keys))
    && (forall p <- x.recoverPoints :: Owned(m, p.hash))
    && (x.cached.Some? ==>
          && x.cached.value.id == m.rule.id
          && GroupedByLabels(x.groups)
          && (forall g <- x.groups, e <- g :: Owned(m, e.hash) && e.hash in x.alerting && e.evalTime == x.now)
          && Enumerates(x.hashOrder, FirePhase(m, x).fires.Keys - x.alerting)
          && (x.settings.inhibit ==>
                Enumerates(x.tagOrder, SelectAll(ClearPendings(FirePhase(m, x), x.alerting), x.hashOrder).kept.Keys)))
  }

  ghost predicate GroupedByLabels(gs: seq<seq<Event>>) {
    && (forall g <- gs, e <- g, d <- g :: e.hash.labels == d.hash.labels)
    && (forall i, j, e, d :: 0 <= i < j < |gs| && e in gs[i] && d in gs[j] ==> e.hash.labels != d.hash.labels)
  }

  function Eval(m: Machine, x: Evaluation): Machine
    requires Possible(m, x)
  {
    if x.cached.None? then RecoverByPoints(m, x)
    else HandleRecover(FirePhase(m, x), x.alerting, x.now, x.settings.inhibit, x.hashOrder, x.tagOrder)
  }

  /** A run: evaluations one after the other, each possible where it happens. */
  ghost predicate PossibleRun(m: Machine, xs: seq<Evaluation>)
    decreases |xs|, 0
  {
    xs == [] || (PossibleRun(m, xs[..|xs| - 1]) && Possible(Run(m, xs[..|xs| - 1]), xs[|xs| - 1]))
  }

  ghost function Run(m: Machine, xs: seq<Evaluation>): Machine
    requires PossibleRun(m, xs)
    decreases |xs|
  {
    if xs == [] then m else Eval(Run(m, xs[..|xs| - 1]), xs[|xs| - 1])
  }

  lemma RunMore(m: Machine, xs: seq<Evaluation>, x: Evaluation)
    requires PossibleRun(m, xs) && Possible(Run(m, xs), x)
    ensures PossibleRun(m, xs + [x]) && Run(m, xs + [x]) == Eval(Run(m, xs), x)
  {
    assert (xs + [x])[..|xs|] == xs;
  }
}
