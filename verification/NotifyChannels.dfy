/** The notify-channel cache: each synchronisation stops the consumers and senders of deleted and
    changed channels and starts those of new ones. */
module NotifyChannels {
  import opened Common

  datatype ChannelId = ChannelId(value: int)

  datatype RequestConfig = RequestConfig(http: Option<int>, smtp: bool)

  /** `requestConfig.http` is the concurrency of the http part, if there is one; `requestConfig.smtp`
      says whether there is an smtp part. */
  datatype Config = Config(requestType: string, requestConfig: Option<RequestConfig>, updateAt: int, body: string)

  datatype HttpClient = HttpClient(of: Config)

  predicate HasHttpConfig(c: Config) {
    c.requestConfig.Some? && c.requestConfig.value.http.Some?
  }

  predicate HasQueue(c: Config) {
    c.requestType == "http" && HasHttpConfig(c)
  }

  predicate HasSender(c: Config) {
    c.requestType == "smtp" && c.requestConfig.Some? && c.requestConfig.value.smtp
  }

  predicate HasClient(c: Config) {
    c.requestType in {"http", "flashduty", "pagerduty"} && HasHttpConfig(c)
  }

  /** How many consumers a queue gets. */
  function Consumers(c: Config): nat
    requires HasQueue(c)
  {
    var n := c.requestConfig.value.http.value;
    if n < 0 then 0 else n
  }

  predicate Changed(stored: Config, c: Config) {
    stored.updateAt != c.updateAt
  }

  /** The configurations after a synchronisation to `m`: an entry with the same update time is kept. */
  function Synced(channels: map<ChannelId, Config>, m: map<ChannelId, Config>): map<ChannelId, Config> {
    map id | id in m :: if id in channels && !Changed(channels[id], m[id]) then channels[id] else m[id]
  }

  /** The configurations after a series of synchronisations. */
  function SyncedAll(channels: map<ChannelId, Config>, ms: seq<map<ChannelId, Config>>): map<ChannelId, Config> {
    if ms == [] then channels else Synced(SyncedAll(channels, ms[..|ms| - 1]), ms[|ms| - 1])
  }

  /** One update time never stands for two configurations of a channel. */
  predicate Stamped(ms: seq<map<ChannelId, Config>>) {
    forall j, k, id ::
      0 <= j < |ms| && 0 <= k < |ms| && id in ms[j] && id in ms[k] && ms[j][id].updateAt == ms[k][id].updateAt
      ==> ms[j][id] == ms[k][id]
  }

  /** After any series of synchronisations the stored channels are those of the last one, with its
      update times; each stored configuration was delivered by one of the synchronisations. */
  lemma {:induction false} SyncedAllIsCurrent(ms: seq<map<ChannelId, Config>>)
    requires ms != []
    ensures SyncedAll(map[], ms).Keys == ms[|ms| - 1].Keys
    ensures forall id <- ms[|ms| - 1] :: SyncedAll(map[], ms)[id].updateAt == ms[|ms| - 1][id].updateAt
    ensures forall id <- ms[|ms| - 1] :: exists k ::
            0 <= k < |ms| && id in ms[k] && SyncedAll(map[], ms)[id] == ms[k][id]
  {
    var n := |ms| - 1;
    var before := ms[..n];
    if before == [] {
    } else {
      SyncedAllIsCurrent(before);
    }
    forall id <- ms[n] ensures exists k :: 0 <= k < |ms| && id in ms[k] && SyncedAll(map[], ms)[id] == ms[k][id] {
      if Kept(SyncedAll(map[], before), ms[n], id) {
        var k :| 0 <= k < n && id in before[k] && SyncedAll(map[], before)[id] == before[k][id];
        assert ms[k] == before[k];
      } else {
        assert SyncedAll(map[], ms)[id] == ms[n][id];
      }
    }
  }

  /** With honest update times the cache equals what the last synchronisation delivered. */
  lemma {:induction false} SyncedAllIsLast(ms: seq<map<ChannelId, Config>>)
    requires ms != [] && Stamped(ms)
    ensures SyncedAll(map[], ms) == ms[|ms| - 1]
  {
    var last := ms[|ms| - 1];
    SyncedAllIsCurrent(ms);
    forall id <- last ensures SyncedAll(map[], ms)[id] == last[id] {
      var k :| 0 <= k < |ms| && id in ms[k] && SyncedAll(map[], ms)[id] == ms[k][id];
    }
  }

  predicate Kept(channels: map<ChannelId, Config>, m: map<ChannelId, Config>, id: ChannelId) {
    id in m && id in channels && !Changed(channels[id], m[id])
  }

  // ----------------------------------------------------------- HTTP clients

  /** How HTTP clients are built, at some time; building may fail. */
  type Factory = Config -> Option<HttpClient>

  predicate Builds(c: Config, factory: Factory) {
    HasClient(c) && factory(c).Some?
  }

  /** The client of channel `id` after a synchronisation: that of a deleted channel goes away, but a
      changed channel keeps its client until a new one is built. */
  function ClientAfter(channels: map<ChannelId, Config>, clients: map<ChannelId, HttpClient>,
                       m: map<ChannelId, Config>, factory: Factory, id: ChannelId): Option<HttpClient> {
    if id !in m then None
    else if !Kept(channels, m, id) && Builds(m[id], factory) then factory(m[id])
    else Lookup(clients, id)
  }

  function SyncedClients(channels: map<ChannelId, Config>, clients: map<ChannelId, HttpClient>,
                         m: map<ChannelId, Config>, factory: Factory): map<ChannelId, HttpClient> {
    (map id | id in clients && id in m :: clients[id]) +
    (map id | id in m && !Kept(channels, m, id) && Builds(m[id], factory) :: factory(m[id]).value)
  }

  function ConfigAfter(channels: map<ChannelId, Config>, m: map<ChannelId, Config>, id: ChannelId): Option<Config> {
    if Kept(channels, m, id) then Some(channels[id]) else Lookup(m, id)
  }

  lemma SyncedFromLookups(channels: map<ChannelId, Config>, m: map<ChannelId, Config>, r: map<ChannelId, Config>)
    requires forall id :: Lookup(r, id) == ConfigAfter(channels, m, id)
    ensures r == Synced(channels, m)
  {
    assert forall id :: Lookup(Synced(channels, m), id) == ConfigAfter(channels, m, id);
    SameLookups(r, Synced(channels, m));
  }

  lemma ClientsFromLookups(channels: map<ChannelId, Config>, clients: map<ChannelId, HttpClient>,
                           m: map<ChannelId, Config>, factory: Factory, r: map<ChannelId, HttpClient>)
    requires forall id :: Lookup(r, id) == ClientAfter(channels, clients, m, factory, id)
    ensures r == SyncedClients(channels, clients, m, factory)
  {
    var synced := SyncedClients(channels, clients, m, factory);
    assert forall id :: Lookup(synced, id) == ClientAfter(channels, clients, m, factory, id);
    SameLookups(r, synced);
  }

  /** The clients after a series of synchronisations, each with its own factory. */
  function ClientsAll(channels: map<ChannelId, Config>, clients: map<ChannelId, HttpClient>,
                      ms: seq<map<ChannelId, Config>>, factories: seq<Factory>): map<ChannelId, HttpClient>
    requires |factories| == |ms|
  {
    if ms == [] then clients
    else
      var n := |ms| - 1;
      var before := ClientsAll(channels, clients, ms[..n], factories[..n]);
      SyncedClients(SyncedAll(channels, ms[..n]), before, ms[n], factories[n])
  }

  /** Call `k` makes channel `id` anew: it was not there before, or had another update time. */
  predicate Renews(ms: seq<map<ChannelId, Config>>, k: nat, id: ChannelId) {
    k < |ms| && id in ms[k] && (k == 0 || id !in ms[k - 1] || ms[k - 1][id].updateAt != ms[k][id].updateAt)
  }

  /** The call that stored the present configuration. */
  function LastRenewal(ms: seq<map<ChannelId, Config>>, id: ChannelId): (k: nat)
    requires ms != [] && id in ms[|ms| - 1]
    ensures Renews(ms, k, id)
  {
    var n := |ms| - 1;
    if Renews(ms, n, id) then n else LastRenewal(ms[..n], id)
  }

  /** The call that built the present client: the last to make the channel anew and succeed in building one,
      since the channel was last deleted. */
  function LastBuild(ms: seq<map<ChannelId, Config>>, factories: seq<Factory>, id: ChannelId): (k: Option<nat>)
    requires |factories| == |ms|
    ensures k.Some? ==> k.value < |ms| && id in ms[k.value] && factories[k.value](ms[k.value][id]).Some?
  {
    if ms == [] || id !in ms[|ms| - 1] then None
    else
      var n := |ms| - 1;
      if Renews(ms, n, id) && Builds(ms[n][id], factories[n]) then Some(n) else LastBuild(ms[..n], factories[..n], id)
  }

  lemma RenewsIsNotKept(ms: seq<map<ChannelId, Config>>, id: ChannelId)
    requires ms != [] && id in ms[|ms| - 1]
    ensures var n := |ms| - 1; Renews(ms, n, id) <==> !Kept(SyncedAll(map[], ms[..n]), ms[n], id)
  {
    var n := |ms| - 1;
    if n > 0 {
      SyncedAllIsCurrent(ms[..n]);
      assert ms[..n][n - 1] == ms[n - 1];
    }
  }

  lemma {:induction false} StoredConfig(ms: seq<map<ChannelId, Config>>, id: ChannelId)
    requires ms != [] && id in ms[|ms| - 1]
    ensures Lookup(SyncedAll(map[], ms), id) == Some(ms[LastRenewal(ms, id)][id])
  {
    var n := |ms| - 1;
    RenewsIsNotKept(ms, id);
    if Renews(ms, n, id) {
    } else {
      StoredConfig(ms[..n], id);
    }
  }

  lemma {:induction false} StoredClient(ms: seq<map<ChannelId, Config>>, factories: seq<Factory>, id: ChannelId)
    requires |factories| == |ms|
    ensures Lookup(ClientsAll(map[], map[], ms, factories), id) ==
            match LastBuild(ms, factories, id)
            case None => None
            case Some(k) => factories[k](ms[k][id])
  {
    if ms == [] {
    } else {
      var n := |ms| - 1;
      StoredClient(ms[..n], factories[..n], id);
      if id in ms[n] { RenewsIsNotKept(ms, id); }
    }
  }

  /** A client records the configuration it was built from. */
  ghost predicate Honest(factory: Factory) {
    forall c :: factory(c).Some? ==> factory(c).value.of == c
  }

  /** After any series of synchronisations the client of a channel is that of its stored configuration if and
      only if one was built since the channel was last deleted, and the last call to build one delivered
      the configuration that is stored. */
  lemma ClientIsOwn(ms: seq<map<ChannelId, Config>>, factories: seq<Factory>, id: ChannelId)
    requires |factories| == |ms| && ms != [] && id in ms[|ms| - 1] && forall f <- factories :: Honest(f)
    ensures var client, stored := Lookup(ClientsAll(map[], map[], ms, factories), id), SyncedAll(map[], ms);
            var built := LastBuild(ms, factories, id);
            && id in stored
            && (client.Some? && client.value.of == stored[id] <==>
                built.Some? && ms[built.value][id] == ms[LastRenewal(ms, id)][id])
  {
    StoredConfig(ms, id);
    StoredClient(ms, factories, id);
    var built := LastBuild(ms, factories, id);
    if built.Some? {
      assert Honest(factories[built.value]);
    }
  }

  const EXAMPLE_ID: ChannelId := ChannelId(1)

  function HttpConfig(updateAt: int): Config {
    Config("http", Some(RequestConfig(Some(1), false)), updateAt, "")
  }

  function SmtpConfig(updateAt: int): Config {
    Config("smtp", Some(RequestConfig(None, true)), updateAt, "")
  }

  /** A channel updated at time 2, after an http channel was stored at time 1 with its client, keeps that
      client if no new one is built. */
  lemma StaleClient(c: Config, factories: seq<Factory>)
    requires c.updateAt == 2 && |factories| == 2
    requires factories[0](HttpConfig(1)) == Some(HttpClient(HttpConfig(1))) && !Builds(c, factories[1])
    ensures var ms := [map[EXAMPLE_ID := HttpConfig(1)], map[EXAMPLE_ID := c]];
            && Lookup(SyncedAll(map[], ms), EXAMPLE_ID) == Some(c)
            && Lookup(ClientsAll(map[], map[], ms, factories), EXAMPLE_ID) == Some(HttpClient(HttpConfig(1)))
  {
    var ms := [map[EXAMPLE_ID := HttpConfig(1)], map[EXAMPLE_ID := c]];
    StoredConfig(ms, EXAMPLE_ID);
    StoredClient(ms, factories, EXAMPLE_ID);
    assert Renews(ms, 1, EXAMPLE_ID) && !Builds(ms[1][EXAMPLE_ID], factories[1]);
    assert ms[..1] == [ms[0]] && factories[..1] == [factories[0]];
    assert Renews(ms[..1], 0, EXAMPLE_ID) && LastBuild(ms[..1], factories[..1], EXAMPLE_ID) == Some(0);
  }

  /** The two ways to a stale client: the channel stops being an http channel, or building fails. */
  lemma StaleClientsHappen(factory: Factory)
    requires factory(HttpConfig(1)) == Some(HttpClient(HttpConfig(1)))
    ensures var ms := [map[EXAMPLE_ID := HttpConfig(1)], map[EXAMPLE_ID := SmtpConfig(2)]];
            Lookup(ClientsAll(map[], map[], ms, [factory, factory]), EXAMPLE_ID) == Some(HttpClient(HttpConfig(1)))
    ensures var ms := [map[EXAMPLE_ID := HttpConfig(1)], map[EXAMPLE_ID := HttpConfig(2)]];
            Lookup(ClientsAll(map[], map[], ms, [factory, _ => None]), EXAMPLE_ID) == Some(HttpClient(HttpConfig(1)))
  {
    StaleClient(SmtpConfig(2), [factory, factory]);
    StaleClient(HttpConfig(2), [factory, _ => None]);
  }

  // ----------------------------------------------------------- the cache

  class Queue {
    var items: seq<int>

    constructor ()
      ensures items == []
    {
      items := [];
    }
  }

  class MailBox {
    constructor () {}
  }

  /** The channel whose closing ends the goroutines that listen to it. */
  class QuitChannel {
    const owner: ChannelId
    var closed: bool
    var listeners: nat

    constructor (owner: ChannelId)
      ensures this.owner == owner && !closed && listeners == 0
    {
      this.owner, closed, listeners := owner, false, 0;
    }

    /** Closing a closed channel panics. */
    method Close()
      requires !closed
      modifies this`closed
      ensures closed
    {
      closed := true;
    }

    /** Starts `n` goroutines that run until the channel is closed. */
    method Listen(n: int)
      requires !closed && listeners == 0
      modifies this`listeners
      ensures listeners == if n < 0 then 0 else n
    {
      var i := 0;
      while i < n
        invariant 0 <= i && (i == 0 || i <= n) && listeners == i
      {
        listeners := listeners + 1;
        i := i + 1;
      }
    }
  }

  /** All that is stored for one channel. */
  datatype Holding = Holding(config: Option<Config>, client: Option<HttpClient>, queue: Option<Queue>,
                             queueQuit: Option<QuitChannel>, mail: Option<MailBox>, mailQuit: Option<QuitChannel>)

  twostate predicate Fresh(new x: Holding) {
    (x.queue.Some? ==> fresh(x.queue.value)) && (x.queueQuit.Some? ==> fresh(x.queueQuit.value)) &&
    (x.mail.Some? ==> fresh(x.mail.value)) && (x.mailQuit.Some? ==> fresh(x.mailQuit.value))
  }

  class NotifyChannelCache {
    var channels: map<ChannelId, Config>
    var channelsQueue: map<ChannelId, Queue>
    var queueQuitCh: map<ChannelId, QuitChannel>
    var httpClient: map<ChannelId, HttpClient>
    var smtpCh: map<ChannelId, MailBox>
    var smtpQuitCh: map<ChannelId, QuitChannel>
    /** Every quit channel made so far, for queues and for mail senders. */
    ghost var queueQuits: set<QuitChannel>
    ghost var mailQuits: set<QuitChannel>

    ghost predicate Queued(id: ChannelId)
      reads `channels, `channelsQueue, `queueQuitCh, `queueQuits, queueQuits
    {
      (id in channelsQueue <==> id in queueQuitCh) &&
      (id in queueQuitCh <==> id in channels && HasQueue(channels[id])) &&
      (id in queueQuitCh ==>
         var q := queueQuitCh[id];
         q in queueQuits && q.owner == id && !q.closed && q.listeners == Consumers(channels[id]))
    }

    ghost predicate Mailed(id: ChannelId)
      reads `channels, `smtpCh, `smtpQuitCh, `mailQuits, mailQuits
    {
      (id in smtpCh <==> id in smtpQuitCh) &&
      (id in smtpQuitCh <==> id in channels && HasSender(channels[id])) &&
      (id in smtpQuitCh ==>
         var q := smtpQuitCh[id];
         q in mailQuits && q.owner == id && !q.closed && q.listeners == 1)
    }

    /** An open quit channel is in the map that will be used to close it. */
    ghost predicate QueuesAccounted()
      reads `queueQuitCh, `queueQuits, queueQuits
    {
      forall q <- queueQuits :: q.closed || Lookup(queueQuitCh, q.owner) == Some(q)
    }

    ghost predicate MailAccounted()
      reads `smtpQuitCh, `mailQuits, mailQuits
    {
      forall q <- mailQuits :: q.closed || Lookup(smtpQuitCh, q.owner) == Some(q)
    }

    ghost predicate QueuesValid()
      reads `channels, `channelsQueue, `queueQuitCh, `queueQuits, queueQuits
    {
      QueuesAccounted() && forall id :: Queued(id)
    }

    ghost predicate MailValid()
      reads `channels, `smtpCh, `smtpQuitCh, `mailQuits, mailQuits
    {
      MailAccounted() && forall id :: Mailed(id)
    }

    /** Valid, but channel `id` has no queue, whatever its configuration says. */
    ghost predicate QueuesBut(id: ChannelId)
      reads `channels, `channelsQueue, `queueQuitCh, `queueQuits, queueQuits
    {
      QueuesAccounted() && id !in queueQuitCh && id !in channelsQueue && forall i :: i != id ==> Queued(i)
    }

    ghost predicate MailBut(id: ChannelId)
      reads `channels, `smtpCh, `smtpQuitCh, `mailQuits, mailQuits
    {
      MailAccounted() && id !in smtpQuitCh && id !in smtpCh && forall i :: i != id ==> Mailed(i)
    }

    ghost predicate Valid()
      reads this, queueQuits, mailQuits
    {
      QueuesValid() && MailValid() && queueQuits !! mailQuits && forall id <- httpClient :: id in channels
    }

    constructor ()
      ensures Valid() && channels == map[] && queueQuits == {} && mailQuits == {}
    {
      channels, channelsQueue, queueQuitCh := map[], map[], map[];
      httpClient, smtpCh, smtpQuitCh := map[], map[], map[];
      queueQuits, mailQuits := {}, {};
    }

    method StopQueue(id: ChannelId)
      requires QueuesValid()
      modifies `channelsQueue, `queueQuitCh, queueQuits`closed
      ensures QueuesBut(id)
      ensures queueQuitCh == old(queueQuitCh) - {id} && channelsQueue == old(channelsQueue) - {id}
    {
      assert Queued(id);
      if id in queueQuitCh {
        queueQuitCh[id].Close();
        queueQuitCh := queueQuitCh - {id};
        channelsQueue := channelsQueue - {id};
      }
      forall i | i != id ensures Queued(i) { assert old(Queued(i)); }
    }

    method StopSender(id: ChannelId)
      requires MailValid()
      modifies `smtpCh, `smtpQuitCh, mailQuits`closed
      ensures MailBut(id)
      ensures smtpQuitCh == old(smtpQuitCh) - {id} && smtpCh == old(smtpCh) - {id}
    {
      assert Mailed(id);
      if id in smtpQuitCh {
        smtpQuitCh[id].Close();
        smtpQuitCh := smtpQuitCh - {id};
        smtpCh := smtpCh - {id};
      }
      forall i | i != id ensures Mailed(i) { assert old(Mailed(i)); }
    }

    /** stopChannelResources. */
    method StopChannelResources(id: ChannelId)
      requires Valid()
      modifies `channelsQueue, `queueQuitCh, `smtpCh, `smtpQuitCh, queueQuits`closed, mailQuits`closed
      ensures QueuesBut(id) && MailBut(id)
      ensures queueQuitCh == old(queueQuitCh) - {id} && channelsQueue == old(channelsQueue) - {id}
      ensures smtpQuitCh == old(smtpQuitCh) - {id} && smtpCh == old(smtpCh) - {id}
    {
      StopQueue(id);
      StopSender(id);
    }

    /** One turn of removeDeletedChannels. */
    method RemoveChannel(id: ChannelId)
      requires Valid()
      modifies `channels, `channelsQueue, `queueQuitCh, `httpClient, `smtpCh, `smtpQuitCh
      modifies queueQuits`closed, mailQuits`closed
      ensures Valid() && channels == old(channels) - {id} && httpClient == old(httpClient) - {id}
      ensures queueQuitCh == old(queueQuitCh) - {id} && channelsQueue == old(channelsQueue) - {id}
      ensures smtpQuitCh == old(smtpQuitCh) - {id} && smtpCh == old(smtpCh) - {id}
    {
      StopQueue(id);
      httpClient := httpClient - {id};
      StopSender(id);
      DropConfig(id);
    }

    method DropConfig(id: ChannelId)
      requires QueuesBut(id) && MailBut(id)
      modifies `channels
      ensures QueuesValid() && MailValid() && channels == old(channels) - {id}
    {
      channels := channels - {id};
      forall i ensures Queued(i) {
        if i != id { assert old(Queued(i)); }
      }
      forall i ensures Mailed(i) {
        if i != id { assert old(Mailed(i)); }
      }
    }

    /** startHttpChannel. */
    method StartHttpChannel(id: ChannelId, channel: Config)
      requires QueuesBut(id) && Lookup(channels, id) == Some(channel) && channel.requestType == "http"
      modifies `channelsQueue, `queueQuitCh, `queueQuits
      ensures QueuesValid() && queueQuits >= old(queueQuits) && fresh(queueQuits - old(queueQuits))
      ensures queueQuitCh - {id} == old(queueQuitCh) && channelsQueue - {id} == old(channelsQueue)
      ensures id in queueQuitCh ==> fresh(queueQuitCh[id])
      ensures id in channelsQueue ==> fresh(channelsQueue[id]) && channelsQueue[id].items == []
      ensures match channel.requestConfig
              case Some(RequestConfig(Some(n), _)) =>
                id in queueQuitCh && queueQuitCh[id].listeners == (if n > 0 then n else 0)
              case _ => id !in queueQuitCh
    {
      if !HasHttpConfig(channel) {
        return;
      }
      var queue := new Queue();
      channelsQueue := channelsQueue[id := queue];
      var quitCh: QuitChannel := new QuitChannel(id);
      queueQuitCh := queueQuitCh[id := quitCh];
      quitCh.Listen(channel.requestConfig.value.http.value);
      queueQuits := queueQuits + {quitCh};
      forall j ensures Queued(j) {
        if j != id { assert old(Queued(j)); }
      }
    }

    /** The smtp case of addOrUpdateChannels. */
    method StartSender(id: ChannelId, channel: Config)
      requires MailBut(id) && Lookup(channels, id) == Some(channel) && channel.requestType == "smtp"
      modifies `smtpCh, `smtpQuitCh, `mailQuits
      ensures MailValid() && mailQuits >= old(mailQuits) && fresh(mailQuits - old(mailQuits))
      ensures smtpQuitCh - {id} == old(smtpQuitCh) && smtpCh - {id} == old(smtpCh)
      ensures id in smtpQuitCh ==> fresh(smtpQuitCh[id])
      ensures id in smtpCh ==> fresh(smtpCh[id])
    {
      if channel.requestConfig.None? || !channel.requestConfig.value.smtp {
        return;
      }
      var ch := new MailBox();
      var quit: QuitChannel := new QuitChannel(id);
      quit.Listen(1);
      smtpCh := smtpCh[id := ch];
      smtpQuitCh := smtpQuitCh[id := quit];
      mailQuits := mailQuits + {quit};
      forall j ensures Mailed(j) {
        if j != id { assert old(Mailed(j)); }
      }
    }

    /** The switch of addOrUpdateChannels, for the stored channel `id`. */
    method StartResources(id: ChannelId, channel: Config, getClient: Factory)
      requires QueuesBut(id) && MailBut(id) && Lookup(channels, id) == Some(channel) && queueQuits !! mailQuits
      modifies `channelsQueue, `queueQuitCh, `httpClient, `smtpCh, `smtpQuitCh, `queueQuits, `mailQuits
      ensures QueuesValid() && MailValid() && queueQuits !! mailQuits
      ensures fresh(queueQuits - old(queueQuits)) && fresh(mailQuits - old(mailQuits))
      ensures queueQuits >= old(queueQuits) && mailQuits >= old(mailQuits)
      ensures queueQuitCh - {id} == old(queueQuitCh) && channelsQueue - {id} == old(channelsQueue)
      ensures smtpQuitCh - {id} == old(smtpQuitCh) && smtpCh - {id} == old(smtpCh)
      ensures id in queueQuitCh ==> fresh(queueQuitCh[id])
      ensures id in channelsQueue ==> fresh(channelsQueue[id]) && channelsQueue[id].items == []
      ensures id in smtpQuitCh ==> fresh(smtpQuitCh[id])
      ensures id in smtpCh ==> fresh(smtpCh[id])
      ensures var byHttp := channel.requestType == "http" || channel.requestType == "flashduty" ||
                            channel.requestType == "pagerduty";
              httpClient == if byHttp && HasHttpConfig(channel) && getClient(channel).Some?
                            then old(httpClient)[id := getClient(channel).value] else old(httpClient)
    {
      if channel.requestType in {"http", "flashduty", "pagerduty"} {
        if HasHttpConfig(channel) {
          var cli := getClient(channel);
          if cli.Some? {
            httpClient := httpClient[id := cli.value];
          }
        }
        if channel.requestType == "http" {
          StartHttpChannel(id, channel);
        } else {
          NoQueue(id);
        }
        NoSender(id);
      } else {
        NoQueue(id);
        if channel.requestType == "smtp" {
          StartSender(id, channel);
        } else {
          NoSender(id);
        }
      }
    }

    lemma NoQueue(id: ChannelId)
      requires QueuesBut(id) && id in channels && !HasQueue(channels[id])
      ensures QueuesValid()
    {
      assert Queued(id);
    }

    lemma NoSender(id: ChannelId)
      requires MailBut(id) && id in channels && !HasSender(channels[id])
      ensures MailValid()
    {
      assert Mailed(id);
    }

    method SetConfig(id: ChannelId, channel: Config)
      requires QueuesBut(id) && MailBut(id)
      modifies `channels
      ensures QueuesBut(id) && MailBut(id) && channels == old(channels)[id := channel]
    {
      channels := channels[id := channel];
      forall i | i != id ensures Queued(i) { assert old(Queued(i)); }
      forall i | i != id ensures Mailed(i) { assert old(Mailed(i)); }
    }

    ghost function Held(id: ChannelId): Holding
      reads this
    {
      Holding(Lookup(channels, id), Lookup(httpClient, id), Lookup(channelsQueue, id), Lookup(queueQuitCh, id),
              Lookup(smtpCh, id), Lookup(smtpQuitCh, id))
    }

    /** The quit channels are those there were and some new ones. */
    twostate predicate Grown()
      reads this
    {
      queueQuits >= old(queueQuits) && mailQuits >= old(mailQuits) &&
      fresh(queueQuits - old(queueQuits)) && fresh(mailQuits - old(mailQuits))
    }

    /** Channel `id` has the configuration `channel`, its own client if one can be built, and resources
        made just now. */
    twostate predicate Renewed(id: ChannelId, channel: Config, getClient: Factory)
      reads this
    {
      Held(id).config == Some(channel) && Fresh(Held(id)) &&
      Held(id).client == if Builds(channel, getClient) then getClient(channel) else old(Held(id)).client
    }

    /** The part of addOrUpdateChannels after the check for a change. */
    method ReplaceChannel(id: ChannelId, channel: Config, getClient: Factory)
      requires QueuesBut(id) && MailBut(id) && queueQuits !! mailQuits && forall i <- httpClient :: i in channels
      modifies this
      ensures Valid() && Grown() && Renewed(id, channel, getClient)
      ensures forall i :: i != id ==> Held(i) == old(Held(i))
    {
      SetConfig(id, channel);
      StartResources(id, channel, getClient);
    }

    /** One turn of addOrUpdateChannels. */
    method AddOrUpdateChannel(id: ChannelId, channel: Config, getClient: Factory)
      requires Valid()
      modifies this, queueQuits`closed, mailQuits`closed
      ensures Valid() && Grown()
      ensures forall i :: i != id ==> Held(i) == old(Held(i))
      ensures if id in old(channels) && !Changed(old(channels)[id], channel)
              then Held(id) == old(Held(id)) else Renewed(id, channel, getClient)
    {
      if id in channels {
        if Changed(channels[id], channel) {
          StopChannelResources(id);
        } else {
          return;
        }
      } else {
        assert Queued(id) && Mailed(id);
      }
      ReplaceChannel(id, channel, getClient);
    }

    /** Channel `id` after a synchronisation to `m`. */
    twostate predicate Settled(id: ChannelId, m: map<ChannelId, Config>, getClient: Factory)
      reads this
    {
      if id !in m then Held(id) == Holding(None, None, None, None, None, None)
      else if Kept(old(channels), m, id) then Held(id) == old(Held(id))
      else Renewed(id, m[id], getClient)
    }

    method RemoveDeletedChannels(newChannels: map<ChannelId, Config>)
      requires Valid()
      modifies this, queueQuits`closed, mailQuits`closed
      ensures Valid() && queueQuits == old(queueQuits) && mailQuits == old(mailQuits)
      ensures forall i :: if i in newChannels then Held(i) == old(Held(i))
                          else Held(i) == Holding(None, None, None, None, None, None)
    {
      var rest := channels.Keys;
      while rest != {}
        invariant Valid() && queueQuits == old(queueQuits) && mailQuits == old(mailQuits)
        invariant forall i :: i in rest || i in newChannels ==> Held(i) == old(Held(i))
        invariant forall i <- channels :: i in rest || i in newChannels
      {
        var id :| id in rest;
        rest := rest - {id};
        if id !in newChannels {
          RemoveChannel(id);
        }
      }
      forall i | i !in newChannels ensures Held(i) == Holding(None, None, None, None, None, None) {
        assert Queued(i) && Mailed(i);
      }
    }

    method AddOrUpdateChannels(newChannels: map<ChannelId, Config>, getClient: Factory)
      requires Valid()
      modifies this, queueQuits`closed, mailQuits`closed
      ensures Valid() && Grown()
      ensures forall i :: if i !in newChannels || Kept(old(channels), newChannels, i) then Held(i) == old(Held(i))
                          else Renewed(i, newChannels[i], getClient)
    {
      var rest := newChannels.Keys;
      while rest != {}
        invariant Valid() && Grown() && rest <= newChannels.Keys
        invariant forall i ::
                    if i in rest || i !in newChannels || Kept(old(channels), newChannels, i)
                    then Held(i) == old(Held(i)) else Renewed(i, newChannels[i], getClient)
      {
        var id :| id in rest;
        assert Held(id) == old(Held(id));
        AddOrUpdateChannel(id, newChannels[id], getClient);
        rest := rest - {id};
      }
    }

    /** Set: the stored channels are exactly those of `m`; deleted channels have nothing left, unchanged
        ones keep everything they had, the others start afresh. */
    method Set(m: map<ChannelId, Config>, getClient: Factory)
      requires Valid()
      modifies this, queueQuits`closed, mailQuits`closed
      ensures Valid() && Grown() && channels == Synced(old(channels), m)
      ensures httpClient == SyncedClients(old(channels), old(httpClient), m, getClient)
      ensures forall i :: Settled(i, m, getClient)
    {
      RemoveDeletedChannels(m);
      AddOrUpdateChannels(m, getClient);
      assert forall i :: Settled(i, m, getClient);
      assert channels == Synced(old(channels), m) by {
        forall i ensures Lookup(channels, i) == ConfigAfter(old(channels), m, i) {
          assert Settled(i, m, getClient) && Held(i).config == Lookup(channels, i);
        }
        SyncedFromLookups(old(channels), m, channels);
      }
      assert httpClient == SyncedClients(old(channels), old(httpClient), m, getClient) by {
        forall i ensures Lookup(httpClient, i) == ClientAfter(old(channels), old(httpClient), m, getClient, i) {
          assert Settled(i, m, getClient) && Held(i).client == Lookup(httpClient, i);
        }
        ClientsFromLookups(old(channels), old(httpClient), m, getClient, httpClient);
      }
    }

    /** Any series of synchronisations, each with the clients it can build. */
    method SetAll(ms: seq<map<ChannelId, Config>>, factories: seq<Factory>)
      requires Valid() && |factories| == |ms|
      modifies this, queueQuits`closed, mailQuits`closed
      ensures Valid() && Grown() && channels == SyncedAll(old(channels), ms)
      ensures httpClient == ClientsAll(old(channels), old(httpClient), ms, factories)
    {
      for k := 0 to |ms|
        invariant Valid() && Grown() && channels == SyncedAll(old(channels), ms[..k])
        invariant httpClient == ClientsAll(old(channels), old(httpClient), ms[..k], factories[..k])
      {
        assert ms[..k + 1][..k] == ms[..k] && factories[..k + 1][..k] == factories[..k];
        Set(ms[k], factories[k]);
      }
      assert ms[..|ms|] == ms && factories[..|ms|] == factories;
    }
  }
}
