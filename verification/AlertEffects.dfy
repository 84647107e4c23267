/** Exactly what an evaluation pushes about one hash, and exactly what becomes of its record. */
module AlertEffects {
  import opened Common
  import opened AlertMachine
  import opened AlertTrace
  import opened AlertRecovery
  import opened AlertHistory
  import opened AlertConfluence

  // ----------------------------------------------------------- notifications

  function OfHash(es: seq<Event>, h: EventKey): seq<Event> {
    if es == [] then []
    else OfHash(es[..|es| - 1], h) + (if es[|es| - 1].hash == h then [es[|es| - 1]] else [])
  }

  function Current(open: Option<Fired>, ns: seq<Fired>): Option<Fired> {
    if ns == [] then open else Some(ns[|ns| - 1])
  }

  /** The notifications that events of one hash call for, one after the other, from the open record. */
  function Notices(rule: Rule, open: Option<Fired>, es: seq<Event>): seq<Fired> {
    if es == [] then []
    else
      var before := Notices(rule, open, es[..|es| - 1]);
      before + (match Renewed(rule, Current(open, before), es[|es| - 1]) case Some(f) => [f] case None => [])
  }

  function Pushes(rule: Rule, h: EventKey, ns: seq<Fired>): seq<Effect> {
    seq(|ns|, i requires 0 <= i < |ns| => FirePush(h, ns[i], rule))
  }

  /** Firing events does to `h` what the notifications due for its own events say, and nothing else. */
  ghost predicate Notified(m: Machine, r: Machine, es: seq<Event>, h: EventKey) {
    var ns := Notices(m.rule, Lookup(m.fires, h), es);
    && r.rule == m.rule
    && Lookup(r.fires, h) == Current(Lookup(m.fires, h), ns)
    && Project(r.trace, h) == Project(m.trace, h) + Pushes(m.rule, h, ns)
  }

  lemma NotifiedMore(m: Machine, r: Machine, es: seq<Event>, e: Event)
    requires Notified(m, r, es, e.hash)
    ensures Notified(m, Fire(r, e), es + [e], e.hash)
  {
    FireOwn(r, e);
    var h, open := e.hash, Lookup(m.fires, e.hash);
    var ns, ns' := Notices(m.rule, open, es), Notices(m.rule, open, es + [e]);
    assert (es + [e])[..|es|] == es;
    var next := Renewed(m.rule, Current(open, ns), e);
    if next.Some? {
      assert Pushes(m.rule, h, ns') == Pushes(m.rule, h, ns) + [FirePush(h, next.value, m.rule)];
    } else {
      assert ns' == ns;
    }
  }

  lemma {:induction false} FireAllExactly(m: Machine, es: seq<Event>, h: EventKey)
    ensures Notified(m, FireAll(m, es), OfHash(es, h), h)
  {
    if es == [] {
      assert Pushes(m.rule, h, []) == [];
    } else {
      var before, e := es[..|es| - 1], es[|es| - 1];
      FireAllExactly(m, before, h);
      if e.hash == h {
        NotifiedMore(m, FireAll(m, before), OfHash(before, h), e);
      } else {
        FireForeign(FireAll(m, before), e, h);
        assert OfHash(es, h) == OfHash(before, h);
      }
    }
  }

  /** The events of `h` that reach fireEvent, over all groups. */
  function Reaching(m: Machine, cfg: Settings, gs: seq<seq<Event>>, h: EventKey): seq<Event> {
    if gs == [] then []
    else Reaching(m, cfg, gs[..|gs| - 1], h) + OfHash(FireList(m, cfg, gs[|gs| - 1]), h)
  }

  lemma {:induction false} OfForeignHash(es: seq<Event>, h: EventKey)
    requires !InGroup(es, h)
    ensures OfHash(es, h) == []
  {
    if es == [] {
    } else {
      assert es[|es| - 1] in es;
      OfForeignHash(es[..|es| - 1], h);
    }
  }

  lemma NoneReaching(m: Machine, cfg: Settings, g: seq<Event>, h: EventKey)
    requires !InGroup(g, h)
    ensures OfHash(FireList(m, cfg, g), h) == []
  {
    FireListFromGroup(m, cfg, g);
    OfForeignHash(FireList(m, cfg, g), h);
  }

  lemma {:induction false} NoneReachingAll(m: Machine, cfg: Settings, gs: seq<seq<Event>>, h: EventKey)
    requires !Handled(gs, h)
    ensures Reaching(m, cfg, gs, h) == []
  {
    if gs == [] {
    } else {
      assert gs[|gs| - 1] in gs;
      NoneReachingAll(m, cfg, gs[..|gs| - 1], h);
      NoneReaching(m, cfg, gs[|gs| - 1], h);
    }
  }

  lemma GroupNotifies(m: Machine, cfg: Settings, g: seq<Event>, h: EventKey)
    ensures Notified(m, HandleGroup(m, cfg, g), OfHash(FireList(m, cfg, g), h), h)
  {
    ObserveAllQuiet(m, g);
    FireAllExactly(ObserveAll(m, g), FireList(m, cfg, g), h);
  }

  /** The fire phase pushes about `h` exactly the notifications due for its events that reach fireEvent,
      and leaves the last one as its record. */
  lemma {:induction false} FirePhaseNotifies(m: Machine, cfg: Settings, gs: seq<seq<Event>>, h: EventKey)
    requires Apart(gs)
    ensures Notified(m, HandleGroups(m, cfg, gs), Reaching(m, cfg, gs, h), h)
  {
    if gs == [] {
      assert Pushes(m.rule, h, []) == [];
    } else {
      var before, g := gs[..|gs| - 1], gs[|gs| - 1];
      if InGroup(g, h) {
        LastGroupIsNew(gs, h);
        NoneReachingAll(m, cfg, before, h);
        assert Reaching(m, cfg, gs, h) == OfHash(FireList(m, cfg, g), h);
        LastGroup(m, cfg, gs, h);
        GroupNotifies(m, cfg, g, h);
      } else {
        FirePhaseNotifies(m, cfg, before, h);
        GroupForeign(HandleGroups(m, cfg, before), cfg, g, h);
        NoneReaching(m, cfg, g, h);
        assert Reaching(m, cfg, gs, h) == Reaching(m, cfg, before, h);
      }
    }
  }

  // ----------------------------------------------------------- recoveries

  /** The value given by the first point that names `h`. */
  ghost function FirstValue(ps: seq<RecoverPoint>, h: EventKey): Option<string> {
    if ps == [] then None
    else if Called(ps[..|ps| - 1], h) then FirstValue(ps[..|ps| - 1], h)
    else if ps[|ps| - 1].hash == h then ps[|ps| - 1].value
    else None
  }

  function Shown(f: Fired, value: Option<string>): Fired {
    if value.Some? then f.(triggerValue := value.value) else f
  }

  ghost function Recovery(m: Machine, ps: seq<RecoverPoint>, now: int, byRecover: bool, h: EventKey): seq<Effect> {
    if Called(ps, h) && Recoverable(m, h, now, byRecover)
    then [RecoverPush(h, Shown(m.fires[h], FirstValue(ps, h)))] else []
  }

  lemma RecoverSingleTrace(m: Machine, p: RecoverPoint, now: int, byRecover: bool, h: EventKey)
    ensures Project(RecoverSingle(m, p, now, byRecover).trace, h) ==
            Project(m.trace, h) +
            (if p.hash == h && Recoverable(m, h, now, byRecover)
             then [RecoverPush(h, Shown(m.fires[h], p.value))] else [])
  {
    if Recoverable(m, p.hash, now, byRecover) {
      ProjectAppend(m.trace, RecoverPush(p.hash, Shown(m.fires[p.hash], p.value)), h);
    }
  }

  lemma RecoveryStep(m: Machine, before: seq<RecoverPoint>, last: RecoverPoint, now: int, byRecover: bool, h: EventKey)
    ensures Recovery(m, before + [last], now, byRecover, h) ==
            if Called(before, h) then Recovery(m, before, now, byRecover, h)
            else if last.hash == h && Recoverable(m, h, now, byRecover)
            then [RecoverPush(h, Shown(m.fires[h], last.value))]
            else []
  {
    CalledStep(before, last, h);
    assert (before + [last])[..|before|] == before;
  }

  lemma RecoverOneMore(m: Machine, r: Machine, before: seq<RecoverPoint>, last: RecoverPoint, now: int,
                       byRecover: bool, h: EventKey)
    requires r.rule == m.rule && Without(m, r, Called(before, h) && Recoverable(m, h, now, byRecover), h)
    requires Project(r.trace, h) == Project(m.trace, h) + Recovery(m, before, now, byRecover, h)
    ensures Project(RecoverSingle(r, last, now, byRecover).trace, h) ==
            Project(m.trace, h) + Recovery(m, before + [last], now, byRecover, h)
  {
    var gone := Called(before, h) && Recoverable(m, h, now, byRecover);
    RecoverSingleTrace(r, last, now, byRecover, h);
    RecoverableIsLocal(m, r, gone, h, now, byRecover);
    RecoveryStep(m, before, last, now, byRecover, h);
    if last.hash == h && Recoverable(r, h, now, byRecover) {
      assert Lookup(r.fires, h) == Some(m.fires[h]);
    }
  }

  /** A batch of RecoverSingle calls pushes about `h` one recovery, of its record with the value of the
      first point that names it, exactly if it is named and recoverable. */
  lemma {:induction false} RecoverAllPushes(m: Machine, ps: seq<RecoverPoint>, now: int, byRecover: bool, h: EventKey)
    ensures Project(RecoverAll(m, ps, now, byRecover).trace, h) ==
            Project(m.trace, h) + Recovery(m, ps, now, byRecover, h)
  {
    if ps == [] {
    } else {
      var before, last := ps[..|ps| - 1], ps[|ps| - 1];
      RecoverAllPushes(m, before, now, byRecover, h);
      RecoverAllEffect(m, before, now, byRecover, h);
      RecoverOneMore(m, RecoverAll(m, before, now, byRecover), before, last, now, byRecover, h);
      assert before + [last] == ps;
    }
  }

  lemma CalledStep(before: seq<RecoverPoint>, last: RecoverPoint, h: EventKey)
    ensures Called(before + [last], h) <==> Called(before, h) || last.hash == h
  {
    if last.hash == h { assert last in before + [last]; }
  }

  lemma SelectDeletesOne(s: Selection, k: EventKey, h: EventKey)
    requires forall t <- s.kept :: s.kept[t].hash in s.m.fires
    ensures var r := Select(s, k).m;
            && (h in r.fires ==> h in s.m.fires)
            && Project(r.trace, h) ==
               Project(s.m.trace, h) + (if h in s.m.fires && h !in r.fires then [ActiveDelete(h)] else [])
  {
    if Select(s, k).m != s.m {
      ProjectAppend(s.m.trace, ActiveDelete(s.kept[s.m.fires[k].tags].hash), h);
    }
  }

  /** The merge by tags deletes from the table exactly the hashes it drops, once each. */
  lemma {:induction false} SelectDeletes(m: Machine, hs: seq<EventKey>, h: EventKey)
    requires NoDuplicates(hs)
    ensures var r := SelectAll(m, hs).m;
            && (h in r.fires ==> h in m.fires)
            && Project(r.trace, h) ==
               Project(m.trace, h) + (if h in m.fires && h !in r.fires then [ActiveDelete(h)] else [])
  {
    if hs == [] {
    } else {
      var before := hs[..|hs| - 1];
      SelectDeletes(m, before, h);
      assert forall t <- SelectAll(m, before).kept ::
             SelectAll(m, before).kept[t].hash in SelectAll(m, before).m.fires by {
        MergeByTags(m, before);
      }
      SelectDeletesOne(SelectAll(m, before), hs[|hs| - 1], h);
    }
  }

  /** What the recovery phase does about `h` with inhibition on: a silent deletion if the merge drops it,
      a recovery of its record if it is kept for its tags and recoverable, and otherwise nothing. */
  lemma InhibitedRecoveryPushes(m: Machine, alerting: set<EventKey>, now: int, hashOrder: seq<EventKey>,
                                tagOrder: seq<string>, h: EventKey)
    requires Enumerates(hashOrder, m.fires.Keys - alerting)
    requires Enumerates(tagOrder, SelectAll(ClearPendings(m, alerting), hashOrder).kept.Keys)
    ensures var r := HandleRecover(m, alerting, now, true, hashOrder, tagOrder);
            var s := SelectAll(ClearPendings(m, alerting), hashOrder);
            var dropped := h in m.fires && h !in s.m.fires;
            var called := h in KeptHashes(s.kept, tagOrder) && Recoverable(m, h, now, false);
            && !(dropped && called)
            && Lookup(r.fires, h) == (if dropped || called then None else Lookup(m.fires, h))
            && Project(r.trace, h) ==
               Project(m.trace, h) + (if dropped then [ActiveDelete(h)] else []) +
               (if called then [RecoverPush(h, m.fires[h])] else [])
  {
    var cleared := ClearPendings(m, alerting);
    var s := SelectAll(cleared, hashOrder);
    var calls := PlainPoints(KeptHashes(s.kept, tagOrder));
    SelectDeletes(cleared, hashOrder, h);
    MergeByTags(cleared, hashOrder);
    RecoverAllPushes(s.m, calls, now, false, h);
    RecoverAllEffect(s.m, calls, now, false, h);
    PlainCalled(KeptHashes(s.kept, tagOrder), h);
    PlainValue(KeptHashes(s.kept, tagOrder), h);
    InhibitedCalls(cleared, hashOrder, tagOrder);
    if h in s.m.fires { assert s.m.fires[h] == m.fires[h]; }
  }

  lemma {:induction false} PlainValue(hs: seq<EventKey>, h: EventKey)
    ensures FirstValue(PlainPoints(hs), h) == None
  {
    if hs == [] {
    } else {
      assert PlainPoints(hs)[..|hs| - 1] == PlainPoints(hs[..|hs| - 1]);
      PlainValue(hs[..|hs| - 1], h);
    }
  }

  lemma PlainRecoveryPushes(m: Machine, alerting: set<EventKey>, now: int, hashOrder: seq<EventKey>,
                            tagOrder: seq<string>, h: EventKey)
    requires Enumerates(hashOrder, m.fires.Keys - alerting)
    ensures var r := HandleRecover(m, alerting, now, false, hashOrder, tagOrder);
            var over := h in m.fires && h !in alerting && Recoverable(m, h, now, false);
            && Project(r.trace, h) == Project(m.trace, h) + (if over then [RecoverPush(h, m.fires[h])] else [])
            && Lookup(r.fires, h) == (if over then None else Lookup(m.fires, h))
  {
    var cleared := ClearPendings(m, alerting);
    var ps := PlainPoints(hashOrder);
    RecoverAllPushes(cleared, ps, now, false, h);
    RecoverAllEffect(cleared, ps, now, false, h);
    PlainCalled(hashOrder, h);
    PlainValue(hashOrder, h);
  }

  /** A first alert is notified: an event that reaches fireEvent for a hash that is not firing starts an
      episode, with number 1 and its own trigger time as the first one, and leaves the hash firing. */
  lemma FirstAlertIsNotified(m: Machine, x: Evaluation, h: EventKey)
    requires Possible(m, x) && x.cached.Some?
    requires h !in RecoverByPoints(m, x).fires
    requires Reaching(RecoverByPoints(m, x).(rule := x.cached.value), x.settings, x.groups, h) != []
    ensures var m1 := RecoverByPoints(m, x).(rule := x.cached.value);
            var es := Reaching(m1, x.settings, x.groups, h);
            var ns := Notices(m1.rule, None, es);
            && ns != [] && ns[0].number == 1 && (forall n <- ns :: n.firstTrigger == es[0].triggerTime)
            && Project(FirePhase(m, x).trace, h) == Project(m1.trace, h) + Pushes(m1.rule, h, ns)
            && h in x.alerting && Lookup(Eval(m, x).fires, h) == Some(ns[|ns| - 1])
  {
    var m1 := RecoverByPoints(m, x).(rule := x.cached.value);
    var es := Reaching(m1, x.settings, x.groups, h);
    GroupedIsApart(x.groups);
    FirePhaseNotifies(m1, x.settings, x.groups, h);
    NoticesBegin(m1.rule, es);
    ReachingIsAlerting(m, x, m1, h);
    AlertingKeepsRecord(m, x, h);
  }

  lemma ReachingIsAlerting(m: Machine, x: Evaluation, m1: Machine, h: EventKey)
    requires Possible(m, x) && x.cached.Some? && Reaching(m1, x.settings, x.groups, h) != []
    ensures h in x.alerting
  {
    if !Handled(x.groups, h) { NoneReachingAll(m1, x.settings, x.groups, h); }
    HandledIsAlerting(m, x, h);
  }

  lemma AlertingKeepsRecord(m: Machine, x: Evaluation, h: EventKey)
    requires Possible(m, x) && x.cached.Some? && h in x.alerting
    ensures Lookup(Eval(m, x).fires, h) == Lookup(FirePhase(m, x).fires, h)
  {
    AlertingSurvives(FirePhase(m, x), x.alerting, x.now, x.settings.inhibit, x.hashOrder, x.tagOrder, h);
  }

  lemma {:induction false} NoticesBegin(rule: Rule, es: seq<Event>)
    requires es != []
    ensures Notices(rule, None, es) != [] && Notices(rule, None, es)[0].number == 1
    ensures forall n <- Notices(rule, None, es) :: n.firstTrigger == es[0].triggerTime
  {
    if |es| == 1 {
      assert Notices(rule, None, es[..0]) == [];
    } else {
      var before := Notices(rule, None, es[..|es| - 1]);
      NoticesBegin(rule, es[..|es| - 1]);
      assert before[|before| - 1] in before;
    }
  }

  // ----------------------------------------------------------- recover points under inhibition

  /** What the merge of recover points by labels has achieved: for each label set a point of least
      severity is kept, and a hash was forgotten only if a strictly more severe point shares its labels. */
  ghost predicate Chosen(m: Machine, ps: seq<RecoverPoint>, s: Merge) {
    && (forall l <- s.kept :: s.kept[l] in ps && s.kept[l].hash.labels == l)
    && (forall p <- ps :: p.hash.labels in s.kept && s.kept[p.hash.labels].hash.severity <= p.hash.severity)
    && (forall h :: Spared(m, ps, s, h))
  }

  ghost predicate Beaten(ps: seq<RecoverPoint>, s: Merge, h: EventKey) {
    Called(ps, h) && h.labels in s.kept && s.kept[h.labels].hash.severity < h.severity
  }

  lemma {:induction false} MergeChooses(m: Machine, ps: seq<RecoverPoint>)
    ensures Chosen(m, ps, MergePoints(m, ps))
  {
    if ps == [] {
    } else {
      var before, p := ps[..|ps| - 1], ps[|ps| - 1];
      MergeChooses(m, before);
      ChosenStep(m, before, p, MergePoints(m, before));
      assert before + [p] == ps;
    }
  }

  /** What became of `h` in the merge. */
  ghost predicate Spared(m: Machine, ps: seq<RecoverPoint>, s: Merge, h: EventKey) {
    Without(m, s.m, false, h) || (Without(m, s.m, true, h) && Beaten(ps, s, h))
  }

  lemma SparedStep(m: Machine, ps: seq<RecoverPoint>, p: RecoverPoint, s: Merge, h: EventKey)
    requires Spared(m, ps, s, h) && forall l <- s.kept :: s.kept[l] in ps && s.kept[l].hash.labels == l
    ensures Spared(m, ps + [p], MergePoint(s, p), h)
  {
    var s', l := MergePoint(s, p), p.hash.labels;
    CalledStep(ps, p, h);
    if l in s.kept && s.kept[l].hash.severity > p.hash.severity && h == s.kept[l].hash {
      assert Called(ps, h) by { assert s.kept[l] in ps; }
      assert Without(m, s'.m, true, h);
    } else {
      assert Without(s.m, s'.m, false, h);
    }
  }

  lemma ChosenStep(m: Machine, ps: seq<RecoverPoint>, p: RecoverPoint, s: Merge)
    requires Chosen(m, ps, s)
    ensures Chosen(m, ps + [p], MergePoint(s, p))
  {
    forall h ensures Spared(m, ps + [p], MergePoint(s, p), h) {
      assert Spared(m, ps, s, h);
      SparedStep(m, ps, p, s, h);
    }
  }

  // ----------------------------------------------------------- deletions by the merge of recover points

  /** Point `i` names `h` and is strictly more severe than every earlier point with its labels. */
  ghost predicate Leads(ps: seq<RecoverPoint>, i: nat, h: EventKey) {
    && i < |ps| && ps[i].hash == h
    && forall k :: 0 <= k < i && ps[k].hash.labels == h.labels ==> ps[k].hash.severity > h.severity
  }

  predicate Beats(p: RecoverPoint, h: EventKey) {
    p.hash.labels == h.labels && p.hash.severity < h.severity
  }

  /** `h` leads at some point and is beaten by a later one. */
  ghost predicate Forgotten(ps: seq<RecoverPoint>, h: EventKey) {
    exists i, j :: 0 <= i < j < |ps| && Leads(ps, i, h) && Beats(ps[j], h)
  }

  /** Point `b` is the first of the least severity value among those with its labels. */
  ghost predicate LeastAt(ps: seq<RecoverPoint>, b: nat) {
    && b < |ps| && Leads(ps, b, ps[b].hash)
    && forall k :: b < k < |ps| ==> !Beats(ps[k], ps[b].hash)
  }

  lemma {:induction false} KeptIsLeast(m: Machine, ps: seq<RecoverPoint>, l: Labels) returns (b: nat)
    requires l in MergePoints(m, ps).kept
    ensures LeastAt(ps, b) && ps[b] == MergePoints(m, ps).kept[l] && ps[b].hash.labels == l
  {
    var n := |ps| - 1;
    var before, p := ps[..n], ps[n];
    var s := MergePoints(m, before);
    if l in s.kept {
      var b0 := KeptIsLeast(m, before, l);
      assert forall k :: 0 <= k < n ==> before[k] == ps[k];
      if p.hash.labels == l && s.kept[l].hash.severity > p.hash.severity {
        b := n;
        assert forall k :: 0 <= k < n && ps[k].hash.labels == l ==> ps[k].hash.severity > p.hash.severity;
      } else {
        b := b0;
      }
    } else {
      b := n;
      MergeChooses(m, before);
      assert forall k :: 0 <= k < n ==> ps[k] in before;
    }
  }

  lemma LeadsStep(ps: seq<RecoverPoint>, p: RecoverPoint, i: nat, h: EventKey)
    requires i < |ps|
    ensures Leads(ps + [p], i, h) <==> Leads(ps, i, h)
  {
    assert forall k :: 0 <= k <= i ==> (ps + [p])[k] == ps[k];
  }

  lemma ForgottenKept(ps: seq<RecoverPoint>, p: RecoverPoint, h: EventKey)
    requires Forgotten(ps, h)
    ensures Forgotten(ps + [p], h)
  {
    var i, j :| 0 <= i < j < |ps| && Leads(ps, i, h) && Beats(ps[j], h);
    LeadsStep(ps, p, i, h);
    assert (ps + [p])[j] == ps[j];
  }

  lemma BeatenIsForgotten(ps: seq<RecoverPoint>, p: RecoverPoint, b: nat)
    requires LeastAt(ps, b) && Beats(p, ps[b].hash)
    ensures Forgotten(ps + [p], ps[b].hash) && !Forgotten(ps, ps[b].hash)
  {
    var h := ps[b].hash;
    LeadsStep(ps, p, b, h);
    assert (ps + [p])[|ps|] == p;
    forall i, j | 0 <= i < j < |ps| && Leads(ps, i, h) ensures !Beats(ps[j], h) {}
  }

  /** A new point makes the leader forgotten that it beats, and no other. */
  lemma ForgottenNew(ps: seq<RecoverPoint>, p: RecoverPoint, h: EventKey, b: nat)
    requires LeastAt(ps, b) && ps[b].hash.labels == p.hash.labels
    requires Forgotten(ps + [p], h)
    ensures Forgotten(ps, h) || (h == ps[b].hash && Beats(p, h))
  {
    var i, j :| 0 <= i < j < |ps + [p]| && Leads(ps + [p], i, h) && Beats((ps + [p])[j], h);
    LeadsStep(ps, p, i, h);
    if j < |ps| {
      assert (ps + [p])[j] == ps[j];
      assert Forgotten(ps, h);
    } else if i < b && Beats(ps[b], h) {
      assert Forgotten(ps, h);
    }
  }

  lemma NothingNew(ps: seq<RecoverPoint>, p: RecoverPoint, h: EventKey)
    requires forall q <- ps :: q.hash.labels != p.hash.labels
    requires Forgotten(ps + [p], h)
    ensures Forgotten(ps, h)
  {
    var i, j :| 0 <= i < j < |ps + [p]| && Leads(ps + [p], i, h) && Beats((ps + [p])[j], h);
    LeadsStep(ps, p, i, h);
    assert ps[i] in ps && (ps + [p])[i] == ps[i];
    assert j < |ps| && (ps + [p])[j] == ps[j];
  }

  /** What one more point adds to the forgotten hashes: the kept hash of its labels, if it beats it. */
  lemma ForgottenStep(m: Machine, ps: seq<RecoverPoint>, p: RecoverPoint, h: EventKey)
    ensures var kept, l := MergePoints(m, ps).kept, p.hash.labels;
            var replaced := l in kept && kept[l].hash == h && Beats(p, h);
            && (Forgotten(ps + [p], h) <==> Forgotten(ps, h) || replaced)
            && !(Forgotten(ps, h) && replaced)
  {
    var l := p.hash.labels;
    if Forgotten(ps, h) { ForgottenKept(ps, p, h); }
    if l in MergePoints(m, ps).kept {
      var b := KeptIsLeast(m, ps, l);
      if Forgotten(ps + [p], h) { ForgottenNew(ps, p, h, b); }
      if Beats(p, ps[b].hash) { BeatenIsForgotten(ps, p, b); }
    } else {
      MergeChooses(m, ps);
      if Forgotten(ps + [p], h) { NothingNew(ps, p, h); }
    }
  }

  /** One point of the merge deletes the kept hash of its labels, if it beats it. */
  lemma MergePointTrace(s: Merge, p: RecoverPoint, h: EventKey)
    requires forall l <- s.kept :: s.kept[l].hash.labels == l
    ensures var l := p.hash.labels;
            Project(MergePoint(s, p).m.trace, h) ==
            Project(s.m.trace, h) +
            (if l in s.kept && s.kept[l].hash == h && Beats(p, h) then [ActiveDelete(h)] else [])
  {
    var l := p.hash.labels;
    if l in s.kept && s.kept[l].hash.severity > p.hash.severity {
      ProjectAppend(s.m.trace, ActiveDelete(s.kept[l].hash), h);
    }
  }

  /** The merge of recover points deletes from the table exactly the forgotten hashes, once each. */
  lemma {:induction false} MergeDeletes(m: Machine, ps: seq<RecoverPoint>, h: EventKey)
    ensures Project(MergePoints(m, ps).m.trace, h) ==
            Project(m.trace, h) + (if Forgotten(ps, h) then [ActiveDelete(h)] else [])
  {
    if ps == [] {
    } else {
      var before, p := ps[..|ps| - 1], ps[|ps| - 1];
      assert before + [p] == ps;
      MergeDeletes(m, before, h);
      ForgottenStep(m, before, p, h);
      assert forall l <- MergePoints(m, before).kept :: MergePoints(m, before).kept[l].hash.labels == l by {
        MergeChooses(m, before);
      }
      MergePointTrace(MergePoints(m, before), p, h);
    }
  }

  /** ... and takes exactly these out of all three maps. */
  lemma {:induction false} MergeForgets(m: Machine, ps: seq<RecoverPoint>, h: EventKey)
    ensures Without(m, MergePoints(m, ps).m, Forgotten(ps, h), h)
  {
    if ps == [] {
    } else {
      var before, p := ps[..|ps| - 1], ps[|ps| - 1];
      var s, s', l := MergePoints(m, before), MergePoints(m, ps), p.hash.labels;
      assert before + [p] == ps;
      MergeForgets(m, before, h);
      ForgottenStep(m, before, p, h);
      MergeChooses(m, before);
      assert Without(s.m, s'.m, l in s.kept && s.kept[l].hash == h && Beats(p, h), h);
    }
  }

  /** Recover points under inhibition, for every visiting order: one call for each label set, on a point of
      least severity whose hash the merge has left alone; exactly the hashes that lead at some point and
      are beaten later leave the maps without a push, each with one deletion from the table. */
  lemma InhibitedPoints(m: Machine, ps: seq<RecoverPoint>, order: seq<Labels>, h: EventKey)
    requires Enumerates(order, MergePoints(m, ps).kept.Keys)
    ensures var s := MergePoints(m, ps);
            var calls := KeptPoints(s.kept, order);
            && (forall p <- ps :: p.hash.labels in order)
            && (forall i :: 0 <= i < |calls| ==>
                  && calls[i] in ps && calls[i].hash.labels == order[i] && Without(m, s.m, false, calls[i].hash)
                  && forall p <- ps :: p.hash.labels == order[i] ==> calls[i].hash.severity <= p.hash.severity)
            && Without(m, s.m, Forgotten(ps, h), h)
            && Project(s.m.trace, h) == Project(m.trace, h) + (if Forgotten(ps, h) then [ActiveDelete(h)] else [])
  {
    MergeChooses(m, ps);
    MergeForgets(m, ps, h);
    MergeDeletes(m, ps, h);
    var s := MergePoints(m, ps);
    var calls := KeptPoints(s.kept, order);
    forall i | 0 <= i < |calls|
      ensures calls[i] in ps && calls[i].hash.labels == order[i] && Without(m, s.m, false, calls[i].hash)
    {
      assert order[i] in s.kept && calls[i] == s.kept[order[i]];
      assert Spared(m, ps, s, calls[i].hash);
    }
  }

  // ----------------------------------------------------------- a whole evaluation

  /** What the recover points do about `h`: under inhibition a deletion if it is forgotten, then a recovery
      if it is called and recoverable. */
  ghost function PointEffects(m: Machine, x: Evaluation, h: EventKey): seq<Effect>
    requires Possible(m, x)
  {
    if !x.settings.inhibit then Recovery(m, x.recoverPoints, x.recoverNow, true, h)
    else
      var s := MergePoints(m, x.recoverPoints);
      (if Forgotten(x.recoverPoints, h) then [ActiveDelete(h)] else []) +
      Recovery(s.m, KeptPoints(s.kept, x.labelOrder), x.recoverNow, true, h)
  }

  /** What the recovery phase does about `h` after the fire phase: under inhibition a deletion if the merge
      by tags drops it; a recovery if it is due. */
  ghost function RecoveryEffects(m: Machine, x: Evaluation, h: EventKey): seq<Effect>
    requires Possible(m, x) && x.cached.Some?
  {
    var fired := FirePhase(m, x);
    if !x.settings.inhibit then
      if h in fired.fires && h !in x.alerting && Recoverable(fired, h, x.now, false)
      then [RecoverPush(h, fired.fires[h])] else []
    else
      var s := SelectAll(ClearPendings(fired, x.alerting), x.hashOrder);
      (if h in fired.fires && h !in s.m.fires then [ActiveDelete(h)] else []) +
      (if h in KeptHashes(s.kept, x.tagOrder) && Recoverable(fired, h, x.now, false)
       then [RecoverPush(h, fired.fires[h])] else [])
  }

  lemma PointsPush(m: Machine, x: Evaluation, h: EventKey)
    requires Possible(m, x)
    ensures Project(RecoverByPoints(m, x).trace, h) == Project(m.trace, h) + PointEffects(m, x, h)
  {
    if x.settings.inhibit {
      InhibitedPointsPush(m, x, h);
    } else {
      RecoverAllPushes(m, x.recoverPoints, x.recoverNow, true, h);
    }
  }

  lemma InhibitedPointsPush(m: Machine, x: Evaluation, h: EventKey)
    requires Possible(m, x) && x.settings.inhibit
    ensures Project(RecoverByPoints(m, x).trace, h) == Project(m.trace, h) + PointEffects(m, x, h)
  {
    var s := MergePoints(m, x.recoverPoints);
    var deleted := if Forgotten(x.recoverPoints, h) then [ActiveDelete(h)] else [];
    var recovered := Recovery(s.m, KeptPoints(s.kept, x.labelOrder), x.recoverNow, true, h);
    calc {
      Project(RecoverByPoints(m, x).trace, h);
      { RecoverAllPushes(s.m, KeptPoints(s.kept, x.labelOrder), x.recoverNow, true, h); }
      Project(s.m.trace, h) + recovered;
      { MergeDeletes(m, x.recoverPoints, h); }
      Project(m.trace, h) + deleted + recovered;
      Project(m.trace, h) + (deleted + recovered);
    }
  }

  lemma RecoveryPushes(m: Machine, x: Evaluation, h: EventKey)
    requires Possible(m, x) && x.cached.Some?
    ensures Project(Eval(m, x).trace, h) == Project(FirePhase(m, x).trace, h) + RecoveryEffects(m, x, h)
    ensures Lookup(Eval(m, x).fires, h) ==
            if RecoveryEffects(m, x, h) == [] then Lookup(FirePhase(m, x).fires, h) else None
  {
    if x.settings.inhibit {
      InhibitedRecoveryPushes(FirePhase(m, x), x.alerting, x.now, x.hashOrder, x.tagOrder, h);
    } else {
      PlainRecoveryPushes(FirePhase(m, x), x.alerting, x.now, x.hashOrder, x.tagOrder, h);
    }
  }

  /** All that one evaluation says about `h`, inhibited or not: what the recover points do, then the
      notifications due, then what the recovery phase does; and what becomes of its record. */
  lemma EvalPushes(m: Machine, x: Evaluation, h: EventKey)
    requires Possible(m, x) && x.cached.Some?
    ensures var m1 := RecoverByPoints(m, x).(rule := x.cached.value);
            var ns := Notices(m1.rule, Lookup(m1.fires, h), Reaching(m1, x.settings, x.groups, h));
            && Project(Eval(m, x).trace, h) ==
               Project(m.trace, h) + PointEffects(m, x, h) + Pushes(m1.rule, h, ns) + RecoveryEffects(m, x, h)
            && Lookup(Eval(m, x).fires, h) ==
               (if RecoveryEffects(m, x, h) == [] then Current(Lookup(m1.fires, h), ns) else None)
  {
    var m1 := RecoverByPoints(m, x).(rule := x.cached.value);
    PointsPush(m, x, h);
    GroupedIsApart(x.groups);
    FirePhaseNotifies(m1, x.settings, x.groups, h);
    RecoveryPushes(m, x, h);
  }
}
