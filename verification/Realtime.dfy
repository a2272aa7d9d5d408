/** Realtime subscriptions (internal/hub/systems/system_realtime.go): a one-byte count of subscriptions for
    each system, and the worker that runs while there are any. Handlers are atomic. */
module Realtime {
  import opened Options

  const RT_METRICS: string := "rt_metrics"

  datatype Info = Info(subscription: string, connectedClients: int)

  /** A client's subscription key, and the system its options name. */
  datatype Sub = Sub(client: string, key: string, system: string)

  predicate IsRealtime(key: string) {
    RT_METRICS <= key
  }

  // ----- counting

  /** One more subscription; the first one's key is kept. */
  function Acquire(active: map<string, Info>, key: string, system: string): map<string, Info> {
    var info := if system in active then active[system] else Info(key, 0);
    active[system := info.(connectedClients := (info.connectedClients + 1) % 256)]
  }

  /** One less: at zero the system is dropped. */
  function Release(active: map<string, Info>, system: string): map<string, Info> {
    if system !in active then active
    else
      var count := (active[system].connectedClients - 1) % 256;
      if count <= 0 then active - {system} else active[system := active[system].(connectedClients := count)]
  }

  /** The subscriptions to a system. */
  ghost function Of(live: set<Sub>, system: string): set<Sub> {
    set s | s in live && s.system == system
  }

  /** A system is active exactly while it has subscriptions, and its count is theirs, modulo 256. */
  ghost predicate Counted(active: map<string, Info>, live: set<Sub>) {
    forall system ::
      && (system in active <==> Of(live, system) != {})
      && (system in active ==> active[system].connectedClients == |Of(live, system)| % 256)
  }

  lemma OfAdd(live: set<Sub>, s: Sub, system: string)
    requires s !in live
    ensures Of(live + {s}, system) == if s.system == system then Of(live, system) + {s} else Of(live, system)
  {
  }

  lemma OfRemove(live: set<Sub>, s: Sub, system: string)
    ensures Of(live - {s}, system) == if s.system == system then Of(live, system) - {s} else Of(live, system)
  {
  }

  lemma AcquireCounts(active: map<string, Info>, live: set<Sub>, s: Sub)
    requires Counted(active, live) && s !in live
    ensures Counted(Acquire(active, s.key, s.system), live + {s})
  {
    var after := Acquire(active, s.key, s.system);
    forall system
      ensures system in after <==> Of(live + {s}, system) != {}
      ensures system in after ==> after[system].connectedClients == |Of(live + {s}, system)| % 256
    {
      OfAdd(live, s, system);
      assert (system in active <==> Of(live, system) != {});
      if system == s.system {
        assert s in Of(live, system) + {s};
        assert |Of(live, system) + {s}| == |Of(live, system)| + 1;
        if system !in active { assert |Of(live, system)| == 0; }
      }
    }
  }

  /** A count survives the end of a subscription unless 257 subscriptions (or one more than another
      multiple of 256) become one less: then the system is dropped although 256 remain. */
  lemma ReleaseCountsExactly(active: map<string, Info>, live: set<Sub>, s: Sub)
    requires Counted(active, live) && s in live
    ensures Counted(Release(active, s.system), live - {s})
       <==> |Of(live, s.system)| == 1 || |Of(live, s.system)| % 256 != 1
  {
    var after := Release(active, s.system);
    var n := |Of(live, s.system)|;
    assert s in Of(live, s.system);
    OfRemove(live, s, s.system);
    assert |Of(live - {s}, s.system)| == n - 1;
    assert s.system in active && active[s.system].connectedClients == n % 256;
    assert (n % 256 - 1) % 256 == (n - 1) % 256;
    forall system | system != s.system
      ensures system in after <==> Of(live - {s}, system) != {}
      ensures system in after ==> after[system].connectedClients == |Of(live - {s}, system)| % 256
    {
      OfRemove(live, s, system);
    }
    if n == 1 || n % 256 != 1 {
      ReleasedHere(active, live, s, n);
    } else {
      assert s.system !in after;
      assert Of(live - {s}, s.system) != {} by { assert |Of(live - {s}, s.system)| > 0; }
    }
  }

  lemma ReleasedHere(active: map<string, Info>, live: set<Sub>, s: Sub, n: nat)
    requires s.system in active && active[s.system].connectedClients == n % 256
    requires |Of(live - {s}, s.system)| == n - 1 && n >= 1 && (n == 1 || n % 256 != 1)
    ensures var after := Release(active, s.system);
            && (s.system in after <==> Of(live - {s}, s.system) != {})
            && (s.system in after ==> after[s.system].connectedClients == |Of(live - {s}, s.system)| % 256)
  {
    assert (n % 256 - 1) % 256 == (n - 1) % 256;
    if n > 1 { assert (n - 1) % 256 != 0; }
  }

  // ----- as the hub does it

  /** The realtime subscriptions among all clients' subscriptions. */
  ghost function SubsOf(clients: map<string, map<string, string>>): set<Sub> {
    set c, k | c in clients && k in clients[c] && IsRealtime(k) :: Sub(c, k, clients[c][k])
  }

  ghost function OneClient(client: string, subs: map<string, string>): set<Sub> {
    set k | k in subs && IsRealtime(k) :: Sub(client, k, subs[k])
  }

  /** Nowhere more than 256 subscriptions to one system. */
  ghost predicate WithinByte(live: set<Sub>) {
    forall system :: |Of(live, system)| <= 256
  }

  class SystemManager {
    var clients: map<string, map<string, string>>
    var activeSubscriptions: map<string, Info>
    var workerRunning: bool
    var tickerExists: bool

    ghost predicate Valid()
      reads this
    {
      && Counted(activeSubscriptions, SubsOf(clients))
      && WorkerMatches()
    }

    /** The worker runs, and has its ticker, exactly while some subscription is active. */
    ghost predicate WorkerMatches()
      reads this
    {
      (workerRunning <==> activeSubscriptions != map[]) && (tickerExists <==> workerRunning)
    }

    constructor ()
      ensures Valid() && clients == map[]
    {
      clients, activeSubscriptions, workerRunning, tickerExists := map[], map[], false, false;
      new;
      assert SubsOf(clients) == {};
      assert forall system :: Of({}, system) == {};
    }

    method OnRealtimeSubscriptionAdded()
      modifies this`workerRunning, this`tickerExists
      ensures workerRunning && tickerExists
    {
      if !workerRunning {
        workerRunning := true;
      }
      if !tickerExists {
        tickerExists := true;
      }
    }

    method CheckSubscriptions()
      modifies this`workerRunning, this`tickerExists
      ensures workerRunning == (old(workerRunning) && activeSubscriptions != map[])
      ensures tickerExists == if old(workerRunning) && activeSubscriptions == map[] then false else old(tickerExists)
    {
      if !workerRunning || activeSubscriptions != map[] {
        return;
      }
      tickerExists := false;
      workerRunning := false;
    }

    method AddRealtimeSubscription(key: string, system: string)
      requires WorkerMatches()
      modifies this`activeSubscriptions, this`workerRunning, this`tickerExists
      ensures WorkerMatches() && activeSubscriptions == Acquire(old(activeSubscriptions), key, system)
      ensures system in activeSubscriptions && activeSubscriptions - {system} == old(activeSubscriptions) - {system}
      ensures if system in old(activeSubscriptions)
              then activeSubscriptions[system].connectedClients == (old(activeSubscriptions)[system].connectedClients + 1) % 256
                   && activeSubscriptions[system].subscription == old(activeSubscriptions)[system].subscription
              else activeSubscriptions[system] == Info(key, 1)
    {
      if system !in activeSubscriptions {
        activeSubscriptions := activeSubscriptions[system := Info(key, 0)];
      }
      var info := activeSubscriptions[system];
      activeSubscriptions := activeSubscriptions[system := info.(connectedClients := (info.connectedClients + 1) % 256)];
      assert system in activeSubscriptions;
      OnRealtimeSubscriptionAdded();
    }

    method RemoveRealtimeSubscription(subscription: string, system: string)
      requires WorkerMatches()
      modifies this`activeSubscriptions, this`workerRunning, this`tickerExists
      ensures WorkerMatches()
      ensures activeSubscriptions == if IsRealtime(subscription) then Release(old(activeSubscriptions), system) else old(activeSubscriptions)
    {
      if IsRealtime(subscription) {
        if system in activeSubscriptions {
          var count := (activeSubscriptions[system].connectedClients - 1) % 256;
          activeSubscriptions := activeSubscriptions[system := activeSubscriptions[system].(connectedClients := count)];
          if count <= 0 {
            activeSubscriptions := activeSubscriptions - {system};
          }
        }
        CheckSubscriptions();
      }
    }

    /** The loop over new subscriptions. */
    method AddAll(client: string, subs: map<string, string>, keys: set<string>, ghost live: set<Sub>)
      requires WorkerMatches() && Counted(activeSubscriptions, live)
      requires keys <= subs.Keys && forall k :: k in keys ==> Sub(client, k, subs[k]) !in live
      modifies this`activeSubscriptions, this`workerRunning, this`tickerExists
      ensures WorkerMatches() && Counted(activeSubscriptions, live + Among(client, subs, keys))
    {
      hide Counted, Acquire;
      var todo := keys;
      assert live + Among(client, subs, keys - todo) == live;
      while todo != {}
        invariant todo <= keys && WorkerMatches()
        invariant Counted(activeSubscriptions, live + Among(client, subs, keys - todo))
        decreases todo
      {
        var key :| key in todo;
        ghost var done := keys - todo;
        ghost var s := Sub(client, key, subs[key]);
        AmongNext(client, subs, done, key);
        if IsRealtime(key) {
          AcquireCounts(activeSubscriptions, live + Among(client, subs, done), s);
          AddRealtimeSubscription(key, subs[key]);
          assert live + (Among(client, subs, done) + {s}) == live + Among(client, subs, done) + {s};
        } else {
          assert Among(client, subs, done + {key}) == Among(client, subs, done);
        }
        todo := todo - {key};
        assert keys - todo == done + {key};
      }
      assert keys - todo == keys;
    }

    /** The loop over subscriptions that are gone. */
    method RemoveAll(client: string, subs: map<string, string>, keys: set<string>, ghost live: set<Sub>)
      requires WorkerMatches() && Counted(activeSubscriptions, live) && WithinByte(live)
      requires keys <= subs.Keys && forall k :: k in keys && IsRealtime(k) ==> Sub(client, k, subs[k]) in live
      modifies this`activeSubscriptions, this`workerRunning, this`tickerExists
      ensures WorkerMatches() && Counted(activeSubscriptions, live - Among(client, subs, keys))
    {
      hide Counted, Release, WithinByte;
      var todo := keys;
      assert live - Among(client, subs, keys - todo) == live;
      while todo != {}
        invariant todo <= keys && WorkerMatches()
        invariant Counted(activeSubscriptions, live - Among(client, subs, keys - todo))
        decreases todo
      {
        var key :| key in todo;
        ghost var done := keys - todo;
        ghost var s := Sub(client, key, subs[key]);
        AmongNext(client, subs, done, key);
        if IsRealtime(key) {
          ReleaseWithinByte(activeSubscriptions, live, Among(client, subs, done), s);
          assert live - (Among(client, subs, done) + {s}) == live - Among(client, subs, done) - {s};
        } else {
          assert Among(client, subs, done + {key}) == Among(client, subs, done);
        }
        RemoveRealtimeSubscription(key, subs[key]);
        todo := todo - {key};
        assert keys - todo == done + {key};
      }
      assert keys - todo == keys;
    }

    /** A client replaces its subscriptions. A key contains its options, so that a key kept keeps its
        system; and no more than 256 subscriptions to a system, the old and new ones together, are enough
        for every count to be right afterwards. */
    method OnRealtimeSubscribeRequest(client: string, newSubs: map<string, string>)
      requires Valid() && WithinByte(SubsOf(clients) + OneClient(client, newSubs))
      requires client in clients ==> forall k :: k in clients[client] && k in newSubs ==> clients[client][k] == newSubs[k]
      modifies this
      ensures Valid() && clients == old(clients)[client := newSubs]
    {
      hide Counted, WithinByte;
      var oldSubs := if client in clients then clients[client] else map[];
      ghost var live := SubsOf(clients);
      clients := clients[client := newSubs];
      ghost var added := Among(client, newSubs, newSubs.Keys - oldSubs.Keys);
      ghost var removed := Among(client, oldSubs, oldSubs.Keys - newSubs.Keys);
      AddAll(client, newSubs, newSubs.Keys - oldSubs.Keys, live);
      StaysWithinByte(live + added, live + OneClient(client, newSubs));
      RemoveAll(client, oldSubs, oldSubs.Keys - newSubs.Keys, live + added);
      Replaced(old(clients), client, oldSubs, newSubs);
    }

    /** A client's disconnection ends all its subscriptions. */
    method OnRealtimeConnectRequest(client: string)
      requires Valid() && WithinByte(SubsOf(clients))
      modifies this
      ensures Valid() && clients == old(clients) - {client}
    {
      hide Counted, WithinByte;
      if client !in clients {
        return;
      }
      ghost var live := SubsOf(clients);
      var subscriptions := clients[client];
      clients := clients - {client};
      RemoveAll(client, subscriptions, subscriptions.Keys, live);
      Disconnected(old(clients), client);
    }
  }

  /** The realtime subscriptions among these keys of a client. */
  ghost function Among(client: string, subs: map<string, string>, keys: set<string>): set<Sub> {
    set k | k in keys && k in subs && IsRealtime(k) :: Sub(client, k, subs[k])
  }

  lemma AmongNext(client: string, subs: map<string, string>, keys: set<string>, key: string)
    requires key in subs && key !in keys
    ensures Among(client, subs, keys + {key})
         == Among(client, subs, keys) + if IsRealtime(key) then {Sub(client, key, subs[key])} else {}
    ensures Sub(client, key, subs[key]) !in Among(client, subs, keys)
  {
  }

  lemma Replaced(clients: map<string, map<string, string>>, client: string, oldSubs: map<string, string>, newSubs: map<string, string>)
    requires oldSubs == if client in clients then clients[client] else map[]
    requires forall k :: k in oldSubs && k in newSubs ==> oldSubs[k] == newSubs[k]
    ensures SubsOf(clients) + Among(client, newSubs, newSubs.Keys - oldSubs.Keys) - Among(client, oldSubs, oldSubs.Keys - newSubs.Keys)
         == SubsOf(clients[client := newSubs])
  {
    var after := SubsOf(clients[client := newSubs]);
    var added := Among(client, newSubs, newSubs.Keys - oldSubs.Keys);
    var removed := Among(client, oldSubs, oldSubs.Keys - newSubs.Keys);
    forall s: Sub ensures s in after <==> s in SubsOf(clients) + added - removed {
      SubsAre(clients, s);
      SubsAre(clients[client := newSubs], s);
      assert s in added <==> s.client == client && s.key in newSubs && s.key !in oldSubs && IsRealtime(s.key) && newSubs[s.key] == s.system;
      assert s in removed <==> s.client == client && s.key in oldSubs && s.key !in newSubs && IsRealtime(s.key) && oldSubs[s.key] == s.system;
    }
  }

  lemma Disconnected(clients: map<string, map<string, string>>, client: string)
    requires client in clients
    ensures SubsOf(clients) - Among(client, clients[client], clients[client].Keys) == SubsOf(clients - {client})
  {
    var gone := Among(client, clients[client], clients[client].Keys);
    forall s: Sub ensures s in SubsOf(clients - {client}) <==> s in SubsOf(clients) - gone {
      SubsAre(clients, s);
      SubsAre(clients - {client}, s);
      assert s in gone <==> s.client == client && s.key in clients[client] && IsRealtime(s.key) && clients[client][s.key] == s.system;
    }
  }

  lemma SubsAre(clients: map<string, map<string, string>>, s: Sub)
    ensures s in SubsOf(clients) <==>
              s.client in clients && s.key in clients[s.client] && IsRealtime(s.key) && clients[s.client][s.key] == s.system
  {
  }

  lemma SubsetSize(a: set<Sub>, b: set<Sub>)
    requires a <= b
    ensures |a| <= |b|
  {
    assert b == a + (b - a);
  }

  lemma StaysWithinByte(live: set<Sub>, more: set<Sub>)
    requires live <= more && WithinByte(more)
    ensures WithinByte(live)
  {
    forall system ensures |Of(live, system)| <= 256 {
      SubsetSize(Of(live, system), Of(more, system));
      assert |Of(more, system)| <= 256;
    }
  }

  lemma ReleaseWithinByte(active: map<string, Info>, live: set<Sub>, gone: set<Sub>, s: Sub)
    requires WithinByte(live) && Counted(active, live - gone) && s in live && s !in gone
    ensures Counted(Release(active, s.system), live - gone - {s})
  {
    StaysWithinByte(live - gone, live);
    assert |Of(live - gone, s.system)| <= 256;
    assert s in Of(live - gone, s.system);
    assert |Of(live - gone, s.system)| > 0;
    ReleaseCountsExactly(active, live - gone, s);
  }

  /** With at most 255 subscriptions to a system, its count is their number. */
  lemma CountIsNumber(active: map<string, Info>, live: set<Sub>, system: string)
    requires Counted(active, live) && |Of(live, system)| <= 255
    ensures (if system in active then active[system].connectedClients else 0) == |Of(live, system)|
  {
    if system in active {
      assert active[system].connectedClients == |Of(live, system)| % 256;
    } else {
      assert Of(live, system) == {};
    }
  }

  /** At most 255 subscriptions to a system, and at most one of a client's new ones for each, are few
      enough for the handler. */
  lemma FewEnough(live: set<Sub>, client: string, newSubs: map<string, string>)
    requires forall system :: |Of(live, system)| <= 255
    requires forall s, t :: s in OneClient(client, newSubs) && t in OneClient(client, newSubs) && s.system == t.system ==> s == t
    ensures WithinByte(live + OneClient(client, newSubs))
  {
    var more := OneClient(client, newSubs);
    forall system ensures |Of(live + more, system)| <= 256 {
      assert Of(live + more, system) == Of(live, system) + Of(more, system);
      assert |Of(live, system)| <= 255;
      AtMostOne(Of(more, system));
      assert |Of(live, system) + Of(more, system)| <= |Of(live, system)| + |Of(more, system)|;
    }
  }

  lemma AtMostOne(ss: set<Sub>)
    requires forall s, t :: s in ss && t in ss ==> s == t
    ensures |ss| <= 1
  {
    if ss != {} {
      var s :| s in ss;
      assert ss == {s};
    }
  }
}
