/** EventPersist on the two event tables, any of whose database steps may fail without effect. */
module EventStore {
  import opened Common
  import opened AlertMachine
  import opened ActiveTable

  /** An event as the consumer hands it over. */
  datatype Incoming = Incoming(hash: EventKey, row: Row, isRecovered: bool)

  datatype ActiveRow = ActiveRow(hash: EventKey, row: Row)

  /** Which database steps fail during a call. */
  datatype Faults = Faults(check: bool, addHistory: bool, delete: bool, addActive: bool)

  datatype PersistError = CheckExistsFailed | AddHistoryFailed | DeleteActiveFailed | AddActiveFailed

  class EventStore {
    /** alert_cur_event and alert_his_event, by primary key. */
    var active: map<int, ActiveRow>
    var history: map<int, Incoming>
    /** The next id the history table will assign. */
    var nextId: int
    /** The active table, by hash, and the one id of each hash in it. */
    ghost var table: Table
    ghost var idOf: map<EventKey, int>

    /** An active row is a firing event of the history under the same id, and the only row of its hash. */
    ghost predicate RowOk(i: int)
      reads this
    {
      i in active ==>
        && i in history && history[i] == Incoming(active[i].hash, active[i].row, false)
        && active[i].hash in idOf && idOf[active[i].hash] == i
    }

    ghost predicate HashOk(h: EventKey)
      reads this
    {
      && (h in table <==> h in idOf)
      && (h in idOf ==> idOf[h] in active && active[idOf[h]] == ActiveRow(h, table[h]))
    }

    ghost predicate Valid()
      reads this
    {
      && nextId > 0
      && (forall i <- history :: 0 < i < nextId)
      && (forall i :: RowOk(i))
      && (forall h :: HashOk(h))
    }

    /** At most one active row has the hash `h`. */
    lemma UniqueHash(i: int, j: int)
      requires Valid() && i in active && j in active && active[i].hash == active[j].hash
      ensures i == j
    {
      assert RowOk(i) && RowOk(j);
    }

    constructor ()
      ensures Valid() && table == map[] && history == map[]
    {
      active, history, nextId, table, idOf := map[], map[], 1, map[], map[];
    }

    method AlertCurEventExists(hash: EventKey) returns (has: bool)
      requires Valid()
      ensures has <==> hash in table
    {
      assert HashOk(hash);
      if hash in idOf {
        ghost var i := idOf[hash];
        assert active[i].hash == hash;
      }
      has := exists i <- active :: active[i].hash == hash;
      if has {
        ghost var i :| i in active && active[i].hash == hash;
        assert RowOk(i);
      }
    }

    method AddHistory(event: Incoming) returns (id: int)
      requires Valid()
      modifies this`history, this`nextId
      ensures Valid() && id !in old(history) && id > 0 && history == old(history)[id := event]
    {
      id := nextId;
      nextId := nextId + 1;
      history := history[id := event];
      forall i ensures RowOk(i) { assert old(RowOk(i)); }
      forall h ensures HashOk(h) { assert old(HashOk(h)); }
    }

    /** Delete every active row of a hash. */
    method AlertCurEventDelByHash(hash: EventKey)
      requires Valid()
      modifies this`active, this`table, this`idOf
      ensures Valid() && table == old(table) - {hash}
      ensures active == map i | i in old(active) && old(active)[i].hash != hash :: old(active)[i]
    {
      active := map i | i in active && active[i].hash != hash :: active[i];
      table, idOf := table - {hash}, idOf - {hash};
      forall i ensures RowOk(i) { assert old(RowOk(i)); }
      forall h ensures HashOk(h) { assert old(HashOk(h)); }
    }

    /** Add the event to the active table under the id it has in the history. */
    method AddActive(event: Incoming, id: int)
      requires Valid() && event.hash !in table
      requires id in history && history[id] == event && !event.isRecovered && id !in active
      modifies this`active, this`table, this`idOf
      ensures Valid() && table == old(table)[event.hash := event.row]
      ensures active == old(active)[id := ActiveRow(event.hash, event.row)]
    {
      active := active[id := ActiveRow(event.hash, event.row)];
      table, idOf := table[event.hash := event.row], idOf[event.hash := id];
      forall i ensures RowOk(i) { assert old(RowOk(i)) && old(HashOk(event.hash)); }
      forall h ensures HashOk(h) { assert old(HashOk(h)); }
    }

    /** Which error a call reports, if any. */
    ghost function Outcome(event: Incoming, faults: Faults): Option<PersistError>
      reads this
    {
      if faults.check then Some(CheckExistsFailed)
      else if faults.addHistory then Some(AddHistoryFailed)
      else if event.hash in table && faults.delete then Some(DeleteActiveFailed)
      else if !event.isRecovered && faults.addActive then Some(AddActiveFailed)
      else None
    }

    /** What the call left behind, given how it ended. */
    twostate predicate Persisted(event: Incoming, err: Option<PersistError>, id: int)
      reads this
    {
      match err
      case None =>
        && id !in old(history) && history == old(history)[id := event]
        && if event.isRecovered then table == old(table) - {event.hash}
           else
             && table == old(table)[event.hash := event.row]
             && id in active && active[id] == ActiveRow(event.hash, event.row)
      case Some(AddActiveFailed) =>
        table == old(table) - {event.hash} && id !in old(history) && history == old(history)[id := event]
      case Some(DeleteActiveFailed) =>
        table == old(table) && exists his :: his !in old(history) && history == old(history)[his := event]
      case Some(_) => table == old(table) && history == old(history)
    }

    method EventPersist(event: Incoming, faults: Faults) returns (err: Option<PersistError>, id: int)
      requires Valid()
      modifies this
      ensures Valid()
      ensures err == old(Outcome(event, faults))
      ensures Persisted(event, err, id)
    {
      id := 0;
      if faults.check {
        return Some(CheckExistsFailed), id;
      }
      var has := AlertCurEventExists(event.hash);
      if faults.addHistory {
        return Some(AddHistoryFailed), id;
      }
      var hisId := AddHistory(event);
      assert RowOk(hisId);
      assert hisId !in active by { assert old(RowOk(hisId)); }
      if has {
        if faults.delete {
          return Some(DeleteActiveFailed), id;
        }
        AlertCurEventDelByHash(event.hash);
        if !event.isRecovered {
          id := hisId;
          if id > 0 {
            if faults.addActive {
              return Some(AddActiveFailed), id;
            }
            AddActive(event, id);
          }
        }
        id := hisId;
        return None, id;
      }
      id := hisId;
      if event.isRecovered {
        return None, id;
      }
      if id > 0 {
        if faults.addActive {
          return Some(AddActiveFailed), id;
        }
        AddActive(event, id);
      }
      return None, id;
    }
  }

  /** The push that an incoming event stands for. */
  ghost predicate Carries(event: Incoming, eff: Effect) {
    match eff
    case FirePush(h, f, _) => event == Incoming(h, RowOf(f), false)
    case RecoverPush(h, f) => event == Incoming(h, RowOf(f), true)
    case ActiveDelete(_) => false
  }

  /** The consumer without failures: persisting a queue of events in order does to the table what
      the trace of their pushes says. */
  method PersistQueue(store: EventStore, events: seq<Incoming>, ghost effs: seq<Effect>)
    requires store.Valid() && |events| == |effs| && forall i :: 0 <= i < |events| ==> Carries(events[i], effs[i])
    modifies store
    ensures store.Valid() && store.table == PersistAll(old(store.table), effs)
  {
    ghost var t0 := store.table;
    for i := 0 to |events|
      invariant store.Valid() && store.table == PersistAll(t0, effs[..i])
    {
      assert effs[..i + 1][..i] == effs[..i];
      var err, id := store.EventPersist(events[i], Faults(false, false, false, false));
      assert store.table == Persist(PersistAll(t0, effs[..i]), effs[i]);
    }
    assert effs[..|effs|] == effs;
  }
}
