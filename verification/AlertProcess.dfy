/** The processor of one rule on one datasource, as it works on shared event objects.

    One event object may sit in all three maps at once, and UpdateLastEvalTime writes through
    whichever map it is called on.  The ghost `view` holds what the maps say in the fields that
    are ever read back through them, and Valid() ties it to the objects.  Every method is proved
    to act on the view as the functions of AlertMachine say: this is where the aliasing is shown
    to be harmless. */
module AlertProcess {
  import opened Common
  import opened AlertMachine
  import opened ActiveTable

  class AlertCurEvent {
    const hash: EventKey
    var tags: string
    var severity: int
    var judge: Judge
    var triggerTime: int
    var triggerValue: string
    var lastEvalTime: int
    var firstEvalTime: int
    var lastSentTime: int
    var notifyCurNumber: int
    var firstTriggerTime: int
    var isRecovered: bool
    /** The event as it was built. */
    ghost const built: Event

    constructor (e: Event)
      ensures built == e && Pristine()
    {
      built := e;
      hash, tags, severity, judge := e.hash, e.tags, e.severity, e.judge;
      triggerTime, triggerValue, lastEvalTime := e.triggerTime, e.triggerValue, e.evalTime;
      firstEvalTime, lastSentTime, notifyCurNumber, firstTriggerTime, isRecovered := 0, 0, 0, 0, false;
    }

    /** Still as it was built, apart from its notification fields. */
    ghost predicate Pristine()
      reads this
    {
      && built == Event(hash, tags, severity, judge, triggerTime, triggerValue, lastEvalTime)
      && !isRecovered
    }

    /** An event read back from the active table. */
    constructor FromRecord(h: EventKey, f: Fired)
      ensures RecordOf(this) == f && hash == h && lastEvalTime == 0 && !isRecovered
    {
      built := Event(h, f.tags, f.severity, f.judge, f.triggerTime, f.triggerValue, 0);
      hash, tags, severity, judge := h, f.tags, f.severity, f.judge;
      triggerTime, triggerValue, lastSentTime := f.triggerTime, f.triggerValue, f.sentTime;
      notifyCurNumber, firstTriggerTime, lastEvalTime, firstEvalTime, isRecovered :=
        f.number, f.firstTrigger, 0, 0, false;
    }
  }

  function RecordOf(e: AlertCurEvent): Fired
    reads e
  {
    Fired(e.tags, e.severity, e.judge, e.triggerTime, e.triggerValue, e.lastSentTime,
          e.notifyCurNumber, e.firstTriggerTime)
  }

  type EventObjects = map<EventKey, AlertCurEvent>

  class Processor {
    const datasourceId: int
    var rule: Rule
    var fires: EventObjects
    var pendings: EventObjects
    var pendingsUseByRecover: EventObjects
    var inhibit: bool
    var promEvalInterval: int
    /** The machine these objects represent, with everything pushed or deleted so far as it was at
        that moment. */
    ghost var view: Machine
    /** Every event object a map may hold. */
    ghost var repr: set<AlertCurEvent>

    constructor (rule: Rule, datasourceId: int, promEvalInterval: int)
      ensures Valid() && repr == {}
      ensures view == Machine(rule, datasourceId, map[], map[], map[], [])
      ensures this.promEvalInterval == promEvalInterval
    {
      this.rule, this.datasourceId, this.promEvalInterval, inhibit := rule, datasourceId, promEvalInterval, false;
      fires := map[];
      pendings := map[];
      pendingsUseByRecover := map[];
      view, repr := Machine(rule, datasourceId, map[], map[], map[], []), {};
    }

    /** The three maps and the view agree about `h`. */
    ghost predicate Shown(h: EventKey)
      reads this, repr
    {
      && (h in fires <==> h in view.fires)
      && (h in fires ==> fires[h] in repr && fires[h].hash == h && RecordOf(fires[h]) == view.fires[h])
      && (h in pendings <==> h in view.pendings)
      && (h in pendings ==>
            pendings[h] in repr && pendings[h].hash == h && pendings[h].firstEvalTime == view.pendings[h])
      && (h in pendingsUseByRecover <==> h in view.recovers)
      && (h in pendingsUseByRecover ==>
            && pendingsUseByRecover[h] in repr && pendingsUseByRecover[h].hash == h
            && pendingsUseByRecover[h].lastEvalTime == view.recovers[h])
    }

    ghost predicate Valid()
      reads this, repr
    {
      view.rule == rule && view.datasourceId == datasourceId && forall h :: Shown(h)
    }

    /** `e` is an event that some map holds. */
    ghost predicate Held(e: AlertCurEvent)
      reads this
    {
      || (e.hash in fires && fires[e.hash] == e)
      || (e.hash in pendings && pendings[e.hash] == e)
      || (e.hash in pendingsUseByRecover && pendingsUseByRecover[e.hash] == e)
    }

    /** `e` is not the event that `fires` holds for its hash. */
    ghost predicate NotFiring(e: AlertCurEvent)
      reads this
    {
      e.hash in fires ==> fires[e.hash] != e
    }

    method DeleteProcessEvent(hash: EventKey)
      requires Valid()
      modifies this`fires, this`pendings, this`pendingsUseByRecover, this`view
      ensures Valid()
      ensures view == Detach(old(view), hash)
      ensures fires == Erase(old(fires), hash)
    {
      fires := Erase(fires, hash);
      pendings := Erase(pendings, hash);
      pendingsUseByRecover := Erase(pendingsUseByRecover, hash);
      view := Detach(view, hash);
      forall h ensures Shown(h) { assert old(Shown(h)); }
    }

    /** The deletion from the active table, recorded in the trace. */
    method AlertCurEventDelByHash(hash: EventKey)
      requires Valid()
      modifies this`view
      ensures Valid() && view == Effected(old(view), ActiveDelete(hash))
    {
      view := Effected(view, ActiveDelete(hash));
      forall h ensures Shown(h) { assert old(Shown(h)); }
    }

    method RecoverSingle(byRecover: bool, hash: EventKey, now: int, value: Option<string>)
      requires Valid()
      modifies this`fires, this`pendings, this`pendingsUseByRecover, this`view, repr
      ensures Valid()
      ensures view == AlertMachine.RecoverSingle(old(view), RecoverPoint(hash, value), now, byRecover)
    {
      assert Shown(hash);
      if hash !in fires {
        return;
      }
      var event := fires[hash];
      if rule.recoverDuration > 0 {
        if hash !in pendingsUseByRecover {
          return;
        }
        if now - pendingsUseByRecover[hash].lastEvalTime < rule.recoverDuration {
          return;
        }
      }
      if event.judge != Origin && !byRecover {
        return;
      }
      DeleteProcessEvent(hash);
      Retire(event, now, value);
    }

    /** Mark an event that no map holds any more as recovered, and push it. */
    method Retire(event: AlertCurEvent, now: int, value: Option<string>)
      requires Valid() && event in repr
      requires event.hash !in view.fires && event.hash !in view.pendings && event.hash !in view.recovers
      modifies this`fires, this`view, event
      ensures Valid()
      ensures var f := old(RecordOf(event));
              var shown := if value.Some? then f.(triggerValue := value.value) else f;
              view == Effected(old(view), RecoverPush(event.hash, shown))
    {
      if value.Some? {
        event.triggerValue := value.value;
      }
      event.isRecovered := true;
      event.lastEvalTime := now;
      forall h ensures Shown(h) { assert old(Shown(event.hash)) && old(Shown(h)); }
      assert Shown(event.hash);
      PushEventToQueue(event);
    }

    method PushEventToQueue(e: AlertCurEvent)
      requires Valid() && NotFiring(e) && e in repr
      requires !e.isRecovered ==> e.Pristine()
      modifies this`fires, this`view, e`lastSentTime
      ensures Valid()
      ensures e.isRecovered ==> view == Effected(old(view), RecoverPush(e.hash, RecordOf(e)))
      ensures e.isRecovered ==> RecordOf(e) == old(RecordOf(e)) && fires == old(fires)
      ensures !e.isRecovered ==> view == PushFire(old(view), e.built, e.notifyCurNumber, e.firstTriggerTime)
                                 && fires == old(fires)[e.hash := e]
    {
      if !e.isRecovered {
        e.lastSentTime := e.lastEvalTime;
        fires := fires[e.hash := e];
        view := PushFire(view, e.built, e.notifyCurNumber, e.firstTriggerTime);
      } else {
        view := Effected(view, RecoverPush(e.hash, RecordOf(e)));
      }
      forall h ensures Shown(h) { assert old(Shown(h)); }
    }

    /** Number the event and push it. */
    method Notify(event: AlertCurEvent, number: int)
      requires Valid() && NotFiring(event) && event in repr && event.Pristine()
      modifies this`fires, this`view, event`notifyCurNumber, event`lastSentTime
      ensures Valid()
      ensures view == PushFire(old(view), event.built, number, event.firstTriggerTime)
      ensures fires == old(fires)[event.hash := event]
    {
      event.notifyCurNumber := number;
      forall h ensures Shown(h) { assert old(Shown(h)); }
      PushEventToQueue(event);
    }

    method FireEvent(event: AlertCurEvent)
      requires Valid() && NotFiring(event) && event in repr && event.Pristine()
      // the recovery map has already seen this evaluation of the hash
      requires event.hash in view.recovers && view.recovers[event.hash] == event.built.evalTime
      modifies this`fires, this`view, event`firstTriggerTime, event`notifyCurNumber, event`lastSentTime
      modifies (if event.hash in fires then {fires[event.hash]} else {})`lastEvalTime
      ensures Valid()
      ensures view == Fire(old(view), event.built) && view.recovers == old(view.recovers)
      ensures fires == old(fires) || fires == old(fires)[event.hash := event]
      ensures forall e <- repr :: old(e.Pristine()) && e.built.evalTime == event.built.evalTime ==> e.Pristine()
    {
      assert Shown(event.hash);
      if event.hash in fires {
        var fired := fires[event.hash];
        fired.lastEvalTime := event.lastEvalTime;
        event.firstTriggerTime := fired.firstTriggerTime;
        forall h ensures Shown(h) { assert old(Shown(h)); }
        if rule.repeatStep == 0 {
          return;
        }
        if event.lastEvalTime >= fired.lastSentTime + rule.repeatStep * 60 {
          if rule.maxNumber == 0 {
            Notify(event, fired.notifyCurNumber + 1);
          } else if fired.notifyCurNumber < rule.maxNumber {
            Notify(event, fired.notifyCurNumber + 1);
          }
        }
      } else {
        event.firstTriggerTime := event.triggerTime;
        forall h ensures Shown(h) { assert old(Shown(h)); }
        Notify(event, 1);
      }
    }

    /** One turn of the loop of inhibitEvent. */
    method FireUnlessInhibited(event: AlertCurEvent, highSeverity: int)
      requires Valid() && NotFiring(event) && event in repr && event.Pristine()
      requires event.hash in view.recovers && view.recovers[event.hash] == event.built.evalTime
      modifies this`fires, this`view, repr
      ensures Valid()
      ensures view ==
              if inhibit && event.built.severity > highSeverity then old(view) else Fire(old(view), event.built)
      ensures view.recovers == old(view.recovers)
      ensures fires == old(fires) || fires == old(fires)[event.hash := event]
      ensures forall e <- repr :: old(e.Pristine()) && e.built.evalTime == event.built.evalTime ==> e.Pristine()
    {
      if inhibit && event.severity > highSeverity {
        return;
      }
      assert Shown(event.hash);
      FireEvent(event);
    }

    /** The loop of inhibitEvent. */
    method FireAdmittedEvents(events: seq<AlertCurEvent>, highSeverity: int, ghost now: int)
      requires Valid() && NoDuplicates(events)
      requires forall e <- events :: e in repr && NotFiring(e) && e.Pristine() && e.built.evalTime == now
      requires forall e <- events :: e.hash in view.recovers && view.recovers[e.hash] == now
      modifies this`fires, this`view, repr
      ensures Valid()
      ensures view == FireAll(old(view), Admit(Built(events), inhibit, highSeverity))
      ensures forall h <- fires :: fires[h] in events || (h in old(fires) && fires[h] == old(fires)[h])
      ensures forall e <- repr :: old(e.Pristine()) && e.built.evalTime == now ==> e.Pristine()
    {
      ghost var v0, snaps := view, Built(events);
      for i := 0 to |events|
        invariant Valid() && view.recovers == v0.recovers
        invariant view == FireAll(v0, Admit(snaps[..i], inhibit, highSeverity))
        invariant forall j :: i <= j < |events| ==> NotFiring(events[j])
        invariant forall h <- fires :: fires[h] in events || (h in old(fires) && fires[h] == old(fires)[h])
        invariant forall e <- repr :: old(e.Pristine()) && e.built.evalTime == now ==> e.Pristine()
      {
        FireAdmitted(v0, snaps, i, inhibit, highSeverity);
        FireUnlessInhibited(events[i], highSeverity);
      }
      assert snaps[..|events|] == snaps;
    }

    method InhibitEvent(events: seq<AlertCurEvent>, highSeverity: int, ghost now: int)
      requires Valid() && NoDuplicates(events)
      requires forall e <- events :: e in repr && NotFiring(e) && e.Pristine() && e.built.evalTime == now
      requires forall e <- events :: e.hash in view.recovers && view.recovers[e.hash] == now
      modifies this`fires, this`view, repr
      ensures Valid()
      ensures view == FireAll(old(view), Admit(Built(events), inhibit, highSeverity))
      ensures forall e <- repr :: Held(e) ==> old(Held(e)) || e in events
      ensures forall e <- repr :: old(e.Pristine()) && e.built.evalTime == now ==> e.Pristine()
    {
      FireAdmittedEvents(events, highSeverity, now);
      forall e <- repr | Held(e) ensures old(Held(e)) || e in events {
        assert old(Shown(e.hash));
      }
    }

    /** handleEvent, recovery map: update the remembered event or keep this one. */
    method RememberEvent(event: AlertCurEvent)
      requires Valid() && event in repr && event.Pristine() && !Held(event)
      modifies this`pendingsUseByRecover, this`view
      modifies (if event.hash in pendingsUseByRecover then {pendingsUseByRecover[event.hash]} else {})`lastEvalTime
      ensures Valid()
      ensures view == Remember(old(view), event.built)
      ensures event.hash in pendings ==> pendings[event.hash] != event
      ensures forall e <- repr :: Held(e) ==> old(Held(e)) || e == event
      ensures forall e <- repr :: old(e.Pristine()) && e.built.evalTime == event.built.evalTime ==> e.Pristine()
    {
      assert Shown(event.hash);
      if event.hash in pendingsUseByRecover {
        pendingsUseByRecover[event.hash].lastEvalTime := event.lastEvalTime;
      } else {
        pendingsUseByRecover := pendingsUseByRecover[event.hash := event];
      }
      view := Remember(view, event.built);
      forall h ensures Shown(h) { assert old(Shown(h)); }
    }

    /** handleEvent, pending map, when a for-duration is set; returns the time of the first pending
        evaluation. */
    method PendEvent(event: AlertCurEvent) returns (preEvalTime: int)
      requires Valid() && event in repr && event.Pristine() && rule.forDuration != 0
      requires event.hash in pendings ==> pendings[event.hash] != event
      requires event.hash in view.recovers && view.recovers[event.hash] == event.built.evalTime
      modifies this`pendings, this`view, event`firstEvalTime
      modifies (if event.hash in pendings then {pendings[event.hash]} else {})`lastEvalTime
      ensures Valid()
      ensures view == Pend(old(view), event.built)
      ensures event.hash in view.pendings && preEvalTime == view.pendings[event.hash]
      ensures forall e <- repr :: Held(e) ==> old(Held(e)) || e == event
      ensures forall e <- repr :: old(e.Pristine()) && e.built.evalTime == event.built.evalTime ==> e.Pristine()
    {
      assert Shown(event.hash);
      if event.hash in pendings {
        pendings[event.hash].lastEvalTime := event.lastEvalTime;
        preEvalTime := pendings[event.hash].firstEvalTime;
      } else {
        event.firstEvalTime := event.lastEvalTime;
        pendings := pendings[event.hash := event];
        preEvalTime := event.firstEvalTime;
      }
      view := Pend(view, event.built);
      forall h ensures Shown(h) { assert old(Shown(h)); }
    }

    /** One turn of the loop of handleEvent; has the event lasted long enough to fire? */
    method ObserveEvent(event: AlertCurEvent) returns (ripe: bool)
      requires Valid() && event in repr && event.Pristine() && !Held(event)
      modifies this`pendings, this`pendingsUseByRecover, this`view, repr
      ensures Valid()
      ensures view == Observe(old(view), event.built)
      ensures ripe == Eligible(view, promEvalInterval, event.built)
      ensures forall e <- repr :: Held(e) ==> old(Held(e)) || e == event
      ensures forall e <- repr :: old(e.Pristine()) && e.built.evalTime == event.built.evalTime ==> e.Pristine()
    {
      assert Shown(event.hash);
      RememberEvent(event);
      if rule.forDuration == 0 {
        return true;
      }
      assert Shown(event.hash);
      var preEvalTime := PendEvent(event);
      ripe := event.lastEvalTime - preEvalTime + promEvalInterval >= rule.forDuration;
    }

    /** One turn of the loop of handleEvent. */
    method GatherEvent(event: AlertCurEvent, fireEvents: seq<AlertCurEvent>, severity: int)
      returns (fireEvents': seq<AlertCurEvent>, severity': int)
      requires Valid() && event in repr && event.Pristine() && !Held(event)
      requires NoDuplicates(fireEvents) && event !in fireEvents
      modifies this`pendings, this`pendingsUseByRecover, this`view, repr
      ensures Valid()
      ensures Gathered(view, Built(fireEvents'), severity') ==
              Gather(Gathered(old(view), Built(fireEvents), severity), promEvalInterval, event.built)
      ensures NoDuplicates(fireEvents') && forall e <- fireEvents' :: e in fireEvents || e == event
      ensures forall e <- repr :: Held(e) ==> old(Held(e)) || e == event
      ensures forall e <- repr :: old(e.Pristine()) && e.built.evalTime == event.built.evalTime ==> e.Pristine()
    {
      BuiltAppend(fireEvents, event);
      var ripe := ObserveEvent(event);
      fireEvents', severity' := fireEvents, severity;
      if ripe {
        fireEvents' := fireEvents + [event];
        if severity > event.severity {
          severity' := event.severity;
        }
      }
    }

    /** The loop of handleEvent: observe every event, collect the ripe ones and the highest severity
        among them. */
    method GatherEvents(events: seq<AlertCurEvent>, ghost now: int)
        returns (fireEvents: seq<AlertCurEvent>, severity: int)
      requires Valid() && NoDuplicates(events)
      requires forall e <- events :: e in repr && !Held(e) && e.Pristine() && e.built.evalTime == now
      modifies this`pendings, this`pendingsUseByRecover, this`view, repr
      ensures Valid()
      ensures Gathered(view, Built(fireEvents), severity) == GatherAll(old(view), promEvalInterval, Built(events))
      ensures NoDuplicates(fireEvents) && forall e <- fireEvents :: e in events
      ensures forall e <- fireEvents :: e in repr && NotFiring(e) && e.Pristine() && e.built.evalTime == now
      ensures forall e <- fireEvents :: e.hash in view.recovers && view.recovers[e.hash] == now
      ensures forall e <- repr :: Held(e) ==> old(Held(e)) || e in events
      ensures forall e <- repr :: old(e.Pristine()) && e.built.evalTime == now ==> e.Pristine()
    {
      fireEvents, severity := [], SEVERITY_LOWEST;
      ghost var v0, snaps, seen := view, Built(events), {};
      for i := 0 to |events|
        invariant Valid()
        invariant Gathered(view, Built(fireEvents), severity) == GatherAll(v0, promEvalInterval, snaps[..i])
        invariant NoDuplicates(fireEvents) && forall e <- fireEvents :: e in seen
        invariant (forall e <- seen :: e in events) && forall j :: i <= j < |events| ==> events[j] !in seen
        invariant forall e <- repr :: Held(e) ==> old(Held(e)) || e in seen
        invariant forall e <- repr :: old(e.Pristine()) && e.built.evalTime == now ==> e.Pristine()
      {
        GatherStep(v0, promEvalInterval, snaps, i);
        fireEvents, severity := GatherEvent(events[i], fireEvents, severity);
        seen := seen + {events[i]};
      }
      assert snaps[..|events|] == snaps;
      assert forall e <- fireEvents :: e.hash in view.recovers && view.recovers[e.hash] == now by {
        GatherAllRemembers(v0, promEvalInterval, events, now);
        assert forall e <- events :: e.hash == e.built.hash by { assert forall e <- events :: e.Pristine(); }
      }
      forall e <- fireEvents ensures NotFiring(e) { assert old(e.Pristine() && !Held(e)); }
    }

    method HandleEvent(events: seq<AlertCurEvent>, ghost now: int)
      requires Valid() && NoDuplicates(events)
      requires forall e <- events :: e in repr && !Held(e) && e.Pristine() && e.built.evalTime == now
      modifies this`fires, this`pendings, this`pendingsUseByRecover, this`view, repr
      ensures Valid()
      ensures view == HandleGroup(old(view), Settings(promEvalInterval, inhibit), Built(events))
      ensures forall e <- repr :: Held(e) ==> old(Held(e)) || e in events
      ensures forall e <- repr :: old(e.Pristine()) && e.built.evalTime == now ==> e.Pristine()
    {
      var fireEvents, severity := GatherEvents(events, now);
      label gathered:
      InhibitEvent(fireEvents, severity, now);
      forall e <- repr | Held(e) ensures old(Held(e)) || e in events {
        assert old@gathered(Held(e)) || e in fireEvents;
      }
      assert view == HandleGroup(old(view), Settings(promEvalInterval, inhibit), Built(events)) by {
        HandleGroupGathers(old(view), Settings(promEvalInterval, inhibit), Built(events));
      }
    }

    // ---------------------------------------------------------- recovery

    /** First loop of HandleRecover. */
    method ClearPendings(alertingKeys: set<EventKey>)
      requires Valid()
      modifies this`pendings, this`view
      ensures Valid() && view == AlertMachine.ClearPendings(old(view), alertingKeys)
    {
      var keys := pendings.Keys;
      while keys != {}
        invariant keys <= old(pendings).Keys && view == old(view)
        invariant forall h :: h in pendings <==> h in old(pendings) && (h in keys || h in alertingKeys)
        invariant forall h <- pendings :: h in old(pendings) && pendings[h] == old(pendings)[h]
      {
        var hash :| hash in keys;
        keys := keys - {hash};
        if hash !in alertingKeys {
          pendings := Erase(pendings, hash);
        }
      }
      view := AlertMachine.ClearPendings(view, alertingKeys);
      forall h ensures Shown(h) { assert old(Shown(h)); }
    }

    method RecoverHashes(hashArr: seq<EventKey>, now: int)
      requires Valid()
      modifies this`fires, this`pendings, this`pendingsUseByRecover, this`view, repr
      ensures Valid() && view == RecoverAll(old(view), PlainPoints(hashArr), now, false)
    {
      ghost var v0, points := view, PlainPoints(hashArr);
      for i := 0 to |hashArr|
        invariant Valid() && view == RecoverAll(v0, points[..i], now, false)
      {
        RecoverStep(v0, points, i, now, false);
        RecoverSingle(false, hashArr[i], now, None);
      }
      assert points[..|hashArr|] == points;
    }

    /** One turn of the first loop of HandleRecoverEvent under inhibition. */
    method SelectEvent(eventMap: map<string, Kept>, hash: EventKey) returns (eventMap': map<string, Kept>)
      requires Valid()
      modifies this`fires, this`pendings, this`view
      ensures Valid()
      ensures Selection(view, eventMap') == Select(Selection(old(view), eventMap), hash)
    {
      assert Shown(hash);
      eventMap' := eventMap;
      if hash !in fires {
        return;
      }
      var event := fires[hash];
      if event.tags !in eventMap {
        eventMap' := eventMap[event.tags := Kept(hash, event.severity)];
        return;
      }
      var e := eventMap[event.tags];
      if e.severity > event.severity {
        fires := Erase(fires, e.hash);
        pendings := Erase(pendings, e.hash);
        view := DropInhibited(view, e.hash);
        eventMap' := eventMap[event.tags := Kept(hash, event.severity)];
        forall h ensures Shown(h) { assert old(Shown(h)); }
      }
    }

    method HandleRecoverEvent(hashArr: seq<EventKey>, now: int, inhibit: bool) returns (ghost tagOrder: seq<string>)
      requires Valid()
      modifies this`fires, this`pendings, this`pendingsUseByRecover, this`view, repr
      ensures Valid()
      ensures !inhibit ==> view == RecoverAll(old(view), PlainPoints(hashArr), now, false)
      ensures inhibit ==>
                var s := SelectAll(old(view), hashArr);
                && Enumerates(tagOrder, s.kept.Keys)
                && view == RecoverAll(s.m, PlainPoints(KeptHashes(s.kept, tagOrder)), now, false)
    {
      tagOrder := [];
      if !inhibit {
        RecoverHashes(hashArr, now);
        return;
      }
      var eventMap: map<string, Kept> := map[];
      ghost var v0 := view;
      for i := 0 to |hashArr|
        invariant Valid() && Selection(view, eventMap) == SelectAll(v0, hashArr[..i])
      {
        SelectStep(v0, hashArr, i);
        eventMap := SelectEvent(eventMap, hashArr[i]);
      }
      assert hashArr[..|hashArr|] == hashArr;
      tagOrder := RecoverKept(eventMap, now);
    }

    /** Second loop of HandleRecoverEvent: recover what was kept, in whatever order the map yields it. */
    method RecoverKept(eventMap: map<string, Kept>, now: int) returns (ghost tagOrder: seq<string>)
      requires Valid()
      modifies this`fires, this`pendings, this`pendingsUseByRecover, this`view, repr
      ensures Valid() && Enumerates(tagOrder, eventMap.Keys)
      ensures view == RecoverAll(old(view), PlainPoints(KeptHashes(eventMap, tagOrder)), now, false)
    {
      tagOrder := [];
      var rest := eventMap.Keys;
      ghost var v0 := view;
      assert PlainPoints(KeptHashes(eventMap, [])) == [];
      while rest != {}
        invariant rest <= eventMap.Keys && Enumerates(tagOrder, eventMap.Keys - rest)
        invariant Valid() && view == RecoverAll(v0, PlainPoints(KeptHashes(eventMap, tagOrder)), now, false)
      {
        var tags :| tags in rest;
        RecoverKeptStep(v0, eventMap, tagOrder, tags, now);
        RecoverSingle(false, eventMap[tags].hash, now, None);
        tagOrder := tagOrder + [tags];
        rest := rest - {tags};
      }
    }

    method HandleRecover(alertingKeys: set<EventKey>, now: int, inhibit: bool)
      returns (ghost hashOrder: seq<EventKey>, ghost tagOrder: seq<string>)
      requires Valid()
      modifies this`fires, this`pendings, this`pendingsUseByRecover, this`view, repr
      ensures Valid()
      ensures Enumerates(hashOrder, old(view).fires.Keys - alertingKeys)
      ensures inhibit ==>
                var cleared := AlertMachine.ClearPendings(old(view), alertingKeys);
                Enumerates(tagOrder, SelectAll(cleared, hashOrder).kept.Keys)
      ensures view == AlertMachine.HandleRecover(old(view), alertingKeys, now, inhibit, hashOrder, tagOrder)
    {
      ClearPendings(alertingKeys);
      var hashArr := Recovering(alertingKeys);
      hashOrder := hashArr;
      tagOrder := HandleRecoverEvent(hashArr, now, inhibit);
    }

    /** Second loop of HandleRecover: the fired hashes that are not alerting, in some order. */
    method Recovering(alertingKeys: set<EventKey>) returns (hashArr: seq<EventKey>)
      requires Valid()
      ensures Enumerates(hashArr, view.fires.Keys - alertingKeys)
    {
      hashArr := [];
      var rest := fires.Keys;
      while rest != {}
        invariant rest <= fires.Keys && Enumerates(hashArr, fires.Keys - rest - alertingKeys)
      {
        var hash :| hash in rest;
        rest := rest - {hash};
        if hash !in alertingKeys {
          EnumeratesMore(hashArr, fires.Keys - rest - {hash} - alertingKeys, hash);
          hashArr := hashArr + [hash];
        }
      }
      forall h ensures h in fires <==> h in view.fires { assert Shown(h); }
    }

    // -------------------------------------------------------- Handle, Eval

    /** New events grouped by labels: no map holds them yet. */
    ghost predicate Ready(eventsMap: map<Labels, seq<AlertCurEvent>>, now: int)
      reads this, repr
    {
      forall l <- eventsMap :: ReadyGroup(eventsMap[l], l, now)
    }

    ghost predicate ReadyGroup(events: seq<AlertCurEvent>, l: Labels, now: int)
      reads this, repr
    {
      && NoDuplicates(events)
      && forall e <- events ::
           e in repr && !Held(e) && e.Pristine() && e.built.evalTime == now && e.built.hash.labels == l
    }

    /** Build one event and append it to its group. */
    method AddEvent(eventsMap: map<Labels, seq<AlertCurEvent>>, built: Event)
      returns (eventsMap': map<Labels, seq<AlertCurEvent>>)
      requires Valid() && Ready(eventsMap, built.evalTime)
      modifies this`repr
      ensures Valid() && Ready(eventsMap', built.evalTime) && repr >= old(repr) && fresh(repr - old(repr))
      ensures eventsMap'.Keys == eventsMap.Keys + {built.hash.labels}
      ensures forall l <- eventsMap' :: Built(eventsMap'[l]) ==
                (if l in eventsMap then Built(eventsMap[l]) else []) + (if l == built.hash.labels then [built] else [])
    {
      var event := new AlertCurEvent(built);
      assert !Held(event) by { assert Shown(event.hash); }
      repr := repr + {event};
      var l := built.hash.labels;
      var group := if l in eventsMap then eventsMap[l] else [];
      BuiltAppend(group, event);
      eventsMap' := eventsMap[l := group + [event]];
      forall h ensures Shown(h) { assert old(Shown(h)); }
      forall k <- eventsMap' ensures ReadyGroup(eventsMap'[k], k, built.evalTime) {
        assert k != l ==> old(ReadyGroup(eventsMap[k], k, built.evalTime));
        assert l in eventsMap ==> old(ReadyGroup(group, l, built.evalTime));
      }
    }

    /** One turn of the first loop of Handle, given what became of the event. */
    method AddOutcome(eventsMap: map<Labels, seq<AlertCurEvent>>, hash: EventKey, outcome: Option<Content>, now: int,
                      ghost built: seq<Event>)
      returns (eventsMap': map<Labels, seq<AlertCurEvent>>)
      requires Valid() && Ready(eventsMap, now) && Splits(eventsMap, built)
      modifies this`repr
      ensures Valid() && Ready(eventsMap', now) && Splits(eventsMap', built + Survivor(hash, outcome, now))
      ensures repr >= old(repr) && fresh(repr - old(repr))
    {
      if outcome.None? {
        assert built + [] == built;
        return eventsMap;
      }
      var c := outcome.value;
      var event := Event(hash, c.tags, c.severity, c.judge, c.triggerTime, c.triggerValue, now);
      SplitStep(built, event);
      eventsMap' := AddEvent(eventsMap, event);
    }

    /** First loop of Handle. */
    method BuildEvents(points: seq<AnomalyPoint>, outcomes: seq<Option<Content>>, now: int)
      returns (alertingKeys: set<EventKey>, eventsMap: map<Labels, seq<AlertCurEvent>>)
      requires Valid() && |points| == |outcomes|
      modifies this`repr
      ensures Valid() && Ready(eventsMap, now) && repr >= old(repr) && fresh(repr - old(repr))
      ensures alertingKeys == AlertingKeys(rule.id, datasourceId, points)
      ensures Splits(eventsMap, BuiltEvents(rule.id, datasourceId, points, outcomes, now))
    {
      alertingKeys, eventsMap := {}, map[];
      for i := 0 to |points|
        invariant Valid() && Ready(eventsMap, now) && repr >= old(repr) && fresh(repr - old(repr))
        invariant alertingKeys == AlertingKeys(rule.id, datasourceId, points[..i])
        invariant Splits(eventsMap, BuiltEvents(rule.id, datasourceId, points[..i], outcomes[..i], now))
      {
        var hash := HashOf(rule.id, datasourceId, points[i]);
        BuiltStep(rule.id, datasourceId, points, outcomes, now, i);
        alertingKeys := alertingKeys + {hash};
        ghost var built := BuiltEvents(rule.id, datasourceId, points[..i], outcomes[..i], now);
        eventsMap := AddOutcome(eventsMap, hash, outcomes[i], now, built);
      }
      assert points[..|points|] == points && outcomes[..|outcomes|] == outcomes;
    }

    /** One turn of the loop over the groups; the groups still to come stay ready. */
    method HandleOneGroup(eventsMap: map<Labels, seq<AlertCurEvent>>, l: Labels, ghost rest: set<Labels>,
                          ghost now: int)
      requires Valid() && l in rest && rest <= eventsMap.Keys && forall k <- rest :: ReadyGroup(eventsMap[k], k, now)
      modifies this`fires, this`pendings, this`pendingsUseByRecover, this`view, repr
      ensures Valid() && forall k <- rest - {l} :: ReadyGroup(eventsMap[k], k, now)
      ensures view == HandleGroup(old(view), Settings(promEvalInterval, inhibit), Built(eventsMap[l]))
    {
      assert ReadyGroup(eventsMap[l], l, now);
      HandleEvent(eventsMap[l], now);
      forall k | k in rest && k != l ensures ReadyGroup(eventsMap[k], k, now) {
        assert old(ReadyGroup(eventsMap[k], k, now)) && old(ReadyGroup(eventsMap[l], l, now));
      }
    }

    /** Second loop of Handle: the groups, in whatever order the map yields them. */
    method HandleGroups(eventsMap: map<Labels, seq<AlertCurEvent>>, now: int, ghost built: seq<Event>)
      returns (ghost order: seq<Labels>)
      requires Valid() && Ready(eventsMap, now)
      requires Splits(eventsMap, built)
      modifies this`fires, this`pendings, this`pendingsUseByRecover, this`view, repr
      ensures Valid() && Enumerates(order, eventsMap.Keys)
      ensures view ==
              AlertMachine.HandleGroups(old(view), Settings(promEvalInterval, inhibit), GroupsInOrder(built, order))
    {
      order := [];
      var rest := eventsMap.Keys;
      ghost var v0, cfg := view, Settings(promEvalInterval, inhibit);
      while rest != {}
        invariant rest <= eventsMap.Keys && Enumerates(order, eventsMap.Keys - rest)
        invariant Valid() && forall l <- rest :: ReadyGroup(eventsMap[l], l, now)
        invariant view == AlertMachine.HandleGroups(v0, cfg, GroupsInOrder(built, order))
      {
        var l :| l in rest;
        GroupStep(v0, cfg, built, order, l);
        EnumeratesMore(order, eventsMap.Keys - rest, l);
        HandleOneGroup(eventsMap, l, rest, now);
        order := order + [l];
        rest := rest - {l};
        assert eventsMap.Keys - rest == eventsMap.Keys - (rest + {l}) + {l};
      }
    }

    method Handle(points: seq<AnomalyPoint>, outcomes: seq<Option<Content>>, cached: Option<Rule>, now: int,
                  inhibit: bool)
      returns (ghost order: seq<Labels>, ghost hashOrder: seq<EventKey>, ghost tagOrder: seq<string>)
      requires Valid() && |points| == |outcomes| && (cached.Some? ==> cached.value.id == rule.id)
      modifies this`rule, this`inhibit, this`fires, this`pendings, this`pendingsUseByRecover, this`view, this`repr, repr
      ensures Valid() && repr >= old(repr) && fresh(repr - old(repr))
      ensures cached.None? ==> view == old(view)
      ensures cached.Some? ==>
                var built := BuiltEvents(old(rule).id, datasourceId, points, outcomes, now);
                var alerting := AlertingKeys(old(rule).id, datasourceId, points);
                var cfg := Settings(promEvalInterval, inhibit);
                var v := old(view).(rule := cached.value);
                var fired := AlertMachine.HandleGroups(v, cfg, GroupsInOrder(built, order));
                && Enumerates(order, LabelsOf(built))
                && Enumerates(hashOrder, fired.fires.Keys - alerting)
                && (inhibit ==>
                      var cleared := AlertMachine.ClearPendings(fired, alerting);
                      Enumerates(tagOrder, SelectAll(cleared, hashOrder).kept.Keys))
                && view == AlertMachine.HandleRecover(fired, alerting, now, inhibit, hashOrder, tagOrder)
    {
      this.inhibit := inhibit;
      order, hashOrder, tagOrder := [], [], [];
      if cached.None? {
        forall h ensures Shown(h) { assert old(Shown(h)); }
        return;
      }
      rule := cached.value;
      view := view.(rule := cached.value);
      forall h ensures Shown(h) { assert old(Shown(h)); }
      var alertingKeys, eventsMap := BuildEvents(points, outcomes, now);
      order := HandleGroups(eventsMap, now, BuiltEvents(rule.id, datasourceId, points, outcomes, now));
      hashOrder, tagOrder := HandleRecover(alertingKeys, now, inhibit);
    }

    /** One turn of the merge loop of Eval. */
    method MergeRecoverPoint(pointsMap: map<Labels, RecoverPoint>, point: RecoverPoint)
      returns (pointsMap': map<Labels, RecoverPoint>)
      requires Valid()
      modifies this`fires, this`pendings, this`pendingsUseByRecover, this`view
      ensures Valid()
      ensures Merge(view, pointsMap') == MergePoint(Merge(old(view), pointsMap), point)
    {
      pointsMap' := pointsMap;
      var tagHash := point.hash.labels;
      if tagHash !in pointsMap {
        pointsMap' := pointsMap[tagHash := point];
        return;
      }
      var p := pointsMap[tagHash];
      if p.hash.severity > point.hash.severity {
        DeleteProcessEvent(p.hash);
        AlertCurEventDelByHash(p.hash);
        pointsMap' := pointsMap[tagHash := point];
      }
    }

    method RecoverPoints(points: seq<RecoverPoint>, now: int)
      requires Valid()
      modifies this`fires, this`pendings, this`pendingsUseByRecover, this`view, repr
      ensures Valid() && view == RecoverAll(old(view), points, now, true)
    {
      ghost var v0 := view;
      for i := 0 to |points|
        invariant Valid() && view == RecoverAll(v0, points[..i], now, true)
      {
        RecoverStep(v0, points, i, now, true);
        RecoverSingle(true, points[i].hash, now, points[i].value);
      }
      assert points[..|points|] == points;
    }

    method RecoverMerged(pointsMap: map<Labels, RecoverPoint>, now: int) returns (ghost labelOrder: seq<Labels>)
      requires Valid()
      modifies this`fires, this`pendings, this`pendingsUseByRecover, this`view, repr
      ensures Valid() && Enumerates(labelOrder, pointsMap.Keys)
      ensures view == RecoverAll(old(view), KeptPoints(pointsMap, labelOrder), now, true)
    {
      labelOrder := [];
      var rest := pointsMap.Keys;
      ghost var v0 := view;
      assert KeptPoints(pointsMap, []) == [];
      while rest != {}
        invariant rest <= pointsMap.Keys && Enumerates(labelOrder, pointsMap.Keys - rest)
        invariant Valid() && view == RecoverAll(v0, KeptPoints(pointsMap, labelOrder), now, true)
      {
        var l :| l in rest;
        RecoverMergedStep(v0, pointsMap, labelOrder, l, now);
        RecoverSingle(true, pointsMap[l].hash, now, pointsMap[l].value);
        labelOrder := labelOrder + [l];
        rest := rest - {l};
      }
    }

    /** The recover step of Eval. */
    method RecoverByRecoverPoints(points: seq<RecoverPoint>, now: int, inhibit: bool)
        returns (ghost labelOrder: seq<Labels>)
      requires Valid()
      modifies this`fires, this`pendings, this`pendingsUseByRecover, this`view, repr
      ensures Valid()
      ensures !inhibit ==> view == RecoverAll(old(view), points, now, true)
      ensures inhibit ==>
                var s := MergePoints(old(view), points);
                && Enumerates(labelOrder, s.kept.Keys)
                && view == RecoverAll(s.m, KeptPoints(s.kept, labelOrder), now, true)
    {
      labelOrder := [];
      if !inhibit {
        RecoverPoints(points, now);
        return;
      }
      var pointsMap: map<Labels, RecoverPoint> := map[];
      ghost var v0 := view;
      for i := 0 to |points|
        invariant Valid() && Merge(view, pointsMap) == MergePoints(v0, points[..i])
      {
        MergeStep(v0, points, i);
        pointsMap := MergeRecoverPoint(pointsMap, points[i]);
      }
      assert points[..|points|] == points;
      labelOrder := RecoverMerged(pointsMap, now);
    }

    /** One evaluation: whatever the queries, the pipeline, the clock and the rule cache yield, and in
        whatever order the maps are visited, it is a possible step of the machine. */
    method Eval(points: seq<AnomalyPoint>, outcomes: seq<Option<Content>>, recoverPoints: seq<RecoverPoint>,
                recoverNow: int, cached: Option<Rule>, now: int, inhibit: bool)
      returns (ghost x: Evaluation, ghost order: seq<Labels>)
      requires Valid() && |points| == |outcomes| && (cached.Some? ==> cached.value.id == rule.id)
      requires forall p <- recoverPoints :: Owned(view, p.hash)
      modifies this`rule, this`inhibit, this`fires, this`pendings, this`pendingsUseByRecover, this`view, this`repr, repr
      ensures Valid() && repr >= old(repr) && fresh(repr - old(repr))
      ensures Possible(old(view), x) && view == AlertMachine.Eval(old(view), x)
      ensures x.settings == Settings(promEvalInterval, inhibit) && x.cached == cached && x.now == now
      ensures x.recoverPoints == recoverPoints && x.recoverNow == recoverNow
      ensures x.alerting == AlertingKeys(old(rule).id, datasourceId, points)
      ensures var built := BuiltEvents(old(rule).id, datasourceId, points, outcomes, now);
              x.groups == GroupsInOrder(built, order) && (cached.Some? ==> Enumerates(order, LabelsOf(built)))
    {
      ghost var v0, r0 := view, rule;
      ghost var labelOrder := RecoverByRecoverPoints(recoverPoints, recoverNow, inhibit);
      assert view.rule == rule && r0 == rule;
      ghost var hashOrder, tagOrder;
      order, hashOrder, tagOrder := Handle(points, outcomes, cached, now, inhibit);
      ghost var built := BuiltEvents(r0.id, datasourceId, points, outcomes, now);
      x := Evaluation(Settings(promEvalInterval, inhibit), recoverPoints, recoverNow, labelOrder, cached, now,
                      AlertingKeys(r0.id, datasourceId, points), GroupsInOrder(built, order), hashOrder, tagOrder);
      if cached.Some? {
        SplitIsGrouped(built, order);
        GroupsAreBuilt(v0, points, outcomes, now, order);
      }
    }

    /** Prepare: rebuild the maps from the active table.  `ok` is false if the table could not be read,
        `cached` says whether the rule is in the rule cache, and `elsewhere` are the hashes of host events
        whose target another engine looks after. */
    method RecoverAlertCurEventFromDb(table: Table, ok: bool, cached: bool, elsewhere: set<EventKey>)
      requires Valid() && view.trace == []
      modifies this`fires, this`pendings, this`pendingsUseByRecover, this`view, this`repr
      ensures Valid() && repr >= old(repr) && fresh(repr - old(repr))
      ensures view == Reloaded(rule, datasourceId, if ok && cached then table - elsewhere else map[])
    {
      var rows := if ok && cached then table - elsewhere else map[];
      var loaded := Load(rows, rule.id, datasourceId);
      var fireMap, recoverMap := LoadEvents(loaded);
      fires, pendings, pendingsUseByRecover := fireMap, map[], recoverMap;
      view := Reloaded(rule, datasourceId, rows);
      forall h ensures Shown(h) {
        assert h in fireMap <==> h in loaded;
        assert h in recoverMap <==> h in loaded;
      }
    }

    /** For every row one event for `fires` and a copy of it for the recovery map. */
    method LoadEvents(loaded: map<EventKey, Fired>) returns (fireMap: EventObjects, recoverMap: EventObjects)
      modifies this`repr
      ensures repr >= old(repr) && fresh(repr - old(repr))
      ensures fireMap.Keys == loaded.Keys && recoverMap.Keys == loaded.Keys
      ensures forall h <- fireMap :: fireMap[h] in repr && fireMap[h].hash == h && RecordOf(fireMap[h]) == loaded[h]
      ensures forall h <- recoverMap :: recoverMap[h] in repr
      ensures forall h <- recoverMap :: recoverMap[h].hash == h && recoverMap[h].lastEvalTime == 0
    {
      fireMap, recoverMap := map[], map[];
      var rest := loaded.Keys;
      while rest != {}
        invariant rest <= loaded.Keys && repr >= old(repr) && fresh(repr - old(repr))
        invariant fireMap.Keys == loaded.Keys - rest && recoverMap.Keys == loaded.Keys - rest
        invariant forall h <- fireMap :: fireMap[h] in repr && fireMap[h].hash == h && RecordOf(fireMap[h]) == loaded[h]
        invariant forall h <- recoverMap :: recoverMap[h] in repr
        invariant forall h <- recoverMap :: recoverMap[h].hash == h && recoverMap[h].lastEvalTime == 0
      {
        var hash :| hash in rest;
        var event := new AlertCurEvent.FromRecord(hash, loaded[hash]);
        var copy := new AlertCurEvent.FromRecord(hash, loaded[hash]);
        repr := repr + {event, copy};
        fireMap, recoverMap := fireMap[hash := event], recoverMap[hash := copy];
        rest := rest - {hash};
      }
    }
  }

  ghost function Built(es: seq<AlertCurEvent>): (r: seq<Event>) {
    seq(|es|, i requires 0 <= i < |es| => es[i].built)
  }

  lemma BuiltAppend(es: seq<AlertCurEvent>, e: AlertCurEvent)
    ensures Built(es + [e]) == Built(es) + [e.built]
    ensures NoDuplicates(es) && e !in es ==> NoDuplicates(es + [e])
  {
  }


  lemma HandleGroupGathers(m: Machine, cfg: Settings, g: seq<Event>)
    ensures var s := GatherAll(m, cfg.interval, g);
            HandleGroup(m, cfg, g) == FireAll(s.m, Admit(s.ripe, cfg.inhibit, s.top))
  {
    GatherAllIsGroupwise(m, cfg.interval, g);
  }

  lemma GatherStep(m: Machine, interval: int, es: seq<Event>, i: nat)
    requires i < |es|
    ensures GatherAll(m, interval, es[..i + 1]) == Gather(GatherAll(m, interval, es[..i]), interval, es[i])
  {
    assert es[..i + 1][..i] == es[..i];
  }

  lemma {:induction false} GatherAllRemembers(m: Machine, interval: int, es: seq<AlertCurEvent>, now: int)
    requires forall e <- es :: e.built.evalTime == now
    ensures forall e <- es :: var r := GatherAll(m, interval, Built(es)).m.recovers;
                              e.built.hash in r && r[e.built.hash] == now
  {
    if es == [] {
    } else {
      var before := es[..|es| - 1];
      var s, last := GatherAll(m, interval, Built(before)), es[|es| - 1];
      GatherAllRemembers(m, interval, before, now);
      assert Built(es)[..|es| - 1] == Built(before) && Built(es)[|es| - 1] == last.built;
      assert GatherAll(m, interval, Built(es)).m.recovers == s.m.recovers[last.built.hash := now];
      assert es == before + [last];
    }
  }

  lemma RecoverStep(m: Machine, ps: seq<RecoverPoint>, i: nat, now: int, byRecover: bool)
    requires i < |ps|
    ensures RecoverAll(m, ps[..i + 1], now, byRecover) ==
            AlertMachine.RecoverSingle(RecoverAll(m, ps[..i], now, byRecover), ps[i], now, byRecover)
  {
    assert ps[..i + 1][..i] == ps[..i];
  }

  lemma SelectStep(m: Machine, hs: seq<EventKey>, i: nat)
    requires i < |hs|
    ensures SelectAll(m, hs[..i + 1]) == Select(SelectAll(m, hs[..i]), hs[i])
  {
    assert hs[..i + 1][..i] == hs[..i];
  }

  lemma RecoverKeptStep(m: Machine, kept: map<string, Kept>, order: seq<string>, t: string, now: int)
    requires t in kept && forall k <- order :: k in kept
    ensures RecoverAll(m, PlainPoints(KeptHashes(kept, order + [t])), now, false) ==
            AlertMachine.RecoverSingle(RecoverAll(m, PlainPoints(KeptHashes(kept, order)), now, false),
                                       RecoverPoint(kept[t].hash, None), now, false)
  {
    var ps := PlainPoints(KeptHashes(kept, order + [t]));
    assert ps[..|order|] == PlainPoints(KeptHashes(kept, order));
    assert ps[|order|] == RecoverPoint(kept[t].hash, None);
  }

  /** The groups are the events of `built`, split by labels. */
  ghost predicate Splits(eventsMap: map<Labels, seq<AlertCurEvent>>, built: seq<Event>) {
    eventsMap.Keys == LabelsOf(built) && forall l <- eventsMap :: Built(eventsMap[l]) == WithLabels(built, l)
  }

  lemma BuiltStep(ruleId: int, datasourceId: int, points: seq<AnomalyPoint>, outcomes: seq<Option<Content>>,
                  now: int, i: nat)
    requires |points| == |outcomes| && i < |points|
    ensures AlertingKeys(ruleId, datasourceId, points[..i + 1]) ==
            AlertingKeys(ruleId, datasourceId, points[..i]) + {HashOf(ruleId, datasourceId, points[i])}
    ensures BuiltEvents(ruleId, datasourceId, points[..i + 1], outcomes[..i + 1], now) ==
            BuiltEvents(ruleId, datasourceId, points[..i], outcomes[..i], now) +
            Survivor(HashOf(ruleId, datasourceId, points[i]), outcomes[i], now)
  {
    assert points[..i + 1][..i] == points[..i] && outcomes[..i + 1][..i] == outcomes[..i];
    assert points[..i + 1] == points[..i] + [points[i]];
  }

  lemma SplitStep(es: seq<Event>, e: Event)
    ensures LabelsOf(es + [e]) == LabelsOf(es) + {e.hash.labels}
    ensures forall l :: WithLabels(es + [e], l) == WithLabels(es, l) + (if e.hash.labels == l then [e] else [])
    ensures forall l :: l !in LabelsOf(es) ==> WithLabels(es, l) == []
  {
    assert (es + [e])[..|es|] == es;
    forall l | l !in LabelsOf(es) ensures WithLabels(es, l) == [] {
      WithLabelsMembers(es, l);
      assert WithLabels(es, l) != [] ==> WithLabels(es, l)[0] in WithLabels(es, l);
    }
  }

  lemma GroupStep(m: Machine, cfg: Settings, es: seq<Event>, order: seq<Labels>, l: Labels)
    ensures AlertMachine.HandleGroups(m, cfg, GroupsInOrder(es, order + [l])) ==
            HandleGroup(AlertMachine.HandleGroups(m, cfg, GroupsInOrder(es, order)), cfg, WithLabels(es, l))
  {
    assert GroupsInOrder(es, order + [l])[..|order|] == GroupsInOrder(es, order);
  }

  lemma MergeStep(m: Machine, ps: seq<RecoverPoint>, i: nat)
    requires i < |ps|
    ensures MergePoints(m, ps[..i + 1]) == MergePoint(MergePoints(m, ps[..i]), ps[i])
  {
    assert ps[..i + 1][..i] == ps[..i];
  }

  lemma RecoverMergedStep(m: Machine, kept: map<Labels, RecoverPoint>, order: seq<Labels>, l: Labels, now: int)
    requires l in kept && forall k <- order :: k in kept
    ensures RecoverAll(m, KeptPoints(kept, order + [l]), now, true) ==
            AlertMachine.RecoverSingle(RecoverAll(m, KeptPoints(kept, order), now, true), kept[l], now, true)
  {
    assert KeptPoints(kept, order + [l])[..|order|] == KeptPoints(kept, order);
  }

  lemma {:induction false} BuiltEventsOrigin(ruleId: int, datasourceId: int, points: seq<AnomalyPoint>,
                                             outcomes: seq<Option<Content>>, now: int)
    requires |points| == |outcomes|
    ensures forall e <- BuiltEvents(ruleId, datasourceId, points, outcomes, now) ::
              e.evalTime == now && e.hash in AlertingKeys(ruleId, datasourceId, points)
  {
    if points == [] {
    } else {
      var n := |points| - 1;
      BuiltEventsOrigin(ruleId, datasourceId, points[..n], outcomes[..n], now);
      BuiltStep(ruleId, datasourceId, points, outcomes, now, n);
      assert points[..n + 1] == points && outcomes[..n + 1] == outcomes;
    }
  }

  lemma GroupsAreBuilt(m: Machine, points: seq<AnomalyPoint>, outcomes: seq<Option<Content>>, now: int,
                       order: seq<Labels>)
    requires |points| == |outcomes|
    ensures var alerting := AlertingKeys(m.rule.id, m.datasourceId, points);
            forall g <- GroupsInOrder(BuiltEvents(m.rule.id, m.datasourceId, points, outcomes, now), order), e <- g ::
              Owned(m, e.hash) && e.hash in alerting && e.evalTime == now
  {
    var built := BuiltEvents(m.rule.id, m.datasourceId, points, outcomes, now);
    BuiltEventsOrigin(m.rule.id, m.datasourceId, points, outcomes, now);
    forall l { WithLabelsMembers(built, l); }
  }

  lemma FireAdmitted(m: Machine, es: seq<Event>, i: nat, inhibit: bool, top: int)
    requires i < |es|
    ensures var r := FireAll(m, Admit(es[..i], inhibit, top));
            FireAll(m, Admit(es[..i + 1], inhibit, top)) ==
            if inhibit && es[i].severity > top then r else Fire(r, es[i])
  {
    var admitted := Admit(es[..i], inhibit, top);
    assert es[..i + 1][..i] == es[..i];
    assert admitted + [] == admitted;
    assert (admitted + [es[i]])[..|admitted|] == admitted;
  }
}
