/** The expiring map (internal/hub/expirymap/expirymap.go): entries are removed lazily on access and by a
    background cleaner. */
module ExpiryMap {
  import opened Options

  /** Times are milliseconds. */
  datatype Val<T> = Val(value: T, expires: int)

  predicate Expired<T>(v: Val<T>, now: int) {
    v.expires < now
  }

  function Find<T>(store: map<string, Val<T>>, key: string): Option<Val<T>> {
    if key in store then Some(store[key]) else None
  }

  function Unexpired<T>(v: Option<Val<T>>, now: int): Option<T> {
    if v.Some? && !Expired(v.value, now) then Some(v.value.value) else None
  }

  /** The first key in `order` that holds the value. */
  function FirstMatch<T(==)>(store: map<string, Val<T>>, order: seq<string>, value: T): (key: Option<string>)
    ensures key.Some? ==> key.value in store && key.value in order && store[key.value].value == value
    ensures key == None ==> forall k :: k in order && k in store ==> store[k].value != value
  {
    if order == [] then None
    else if order[0] in store && store[order[0]].value == value then Some(order[0])
    else FirstMatch(store, order[1..], value)
  }

  function AfterGet<T>(store: map<string, Val<T>>, key: string, now: int): map<string, Val<T>> {
    if key in store && Expired(store[key], now) then store - {key} else store
  }

  /** Looking for a value stops at the first match, and removes it when it is expired. */
  function AfterGetByValue<T(==)>(store: map<string, Val<T>>, value: T, order: seq<string>, now: int): map<string, Val<T>> {
    match FirstMatch(store, order, value)
    case None => store
    case Some(key) => AfterGet(store, key, now)
  }

  function Clean<T>(store: map<string, Val<T>>, now: int): map<string, Val<T>> {
    map key | key in store && !Expired(store[key], now) :: store[key]
  }

  // ----- as the program does it

  class ExpiryMap<T(==)> {
    var store: map<string, Val<T>>

    constructor ()
      ensures store == map[]
    {
      store := map[];
    }

    method Set(key: string, value: T, ttl: int, now: int)
      modifies this
      ensures store == old(store)[key := Val(value, now + ttl)]
    {
      store := store[key := Val(value, now + ttl)];
    }

    method GetOk(key: string, now: int) returns (value: Option<T>)
      modifies this
      ensures value == Unexpired(Find(old(store), key), now)
      ensures store == AfterGet(old(store), key, now)
      ensures value == if key in old(store) && now <= old(store)[key].expires then Some(old(store)[key].value) else None
      ensures store == if key in old(store) && now > old(store)[key].expires then old(store) - {key} else old(store)
    {
      if key !in store {
        return None;
      }
      var v := store[key];
      if v.expires < now {
        store := store - {key};
        return None;
      }
      return Some(v.value);
    }

    /** `order` is the order in which a snapshot of the map is visited. */
    method GetByValue(value: T, order: seq<string>, now: int) returns (key: Option<string>)
      requires forall k :: k in order ==> k in store
      modifies this
      ensures store == AfterGetByValue(old(store), value, order, now)
      ensures key.Some? ==> key.value in store && store[key.value].value == value && !Expired(store[key.value], now)
      ensures key == Found(old(store), order, value, now)
    {
      for i := 0 to |order|
        invariant store == old(store)
        invariant FirstMatch(store, order, value) == FirstMatch(store, order[i..], value)
      {
        assert order[i..][1..] == order[i + 1..];
        var v := store[order[i]];
        if v.value == value {
          if v.expires < now {
            store := store - {order[i]};
            return None;
          }
          return Some(order[i]);
        }
      }
      return None;
    }

    method Remove(key: string)
      modifies this
      ensures store == old(store) - {key}
    {
      store := store - {key};
    }

    method RemovebyValue(value: T, order: seq<string>) returns (removed: Option<T>)
      requires forall k :: k in order ==> k in store
      modifies this
      ensures match FirstMatch(old(store), order, value)
              case Some(k) => store == old(store) - {k} && removed == Some(value)
              case None => store == old(store) && removed == None
    {
      for i := 0 to |order|
        invariant store == old(store)
        invariant FirstMatch(store, order, value) == FirstMatch(store, order[i..], value)
      {
        assert order[i..][1..] == order[i + 1..];
        if store[order[i]].value == value {
          store := store - {order[i]};
          return Some(value);
        }
      }
      return None;
    }

    method Cleanup(now: int)
      modifies this
      ensures store == Clean(old(store), now)
      ensures forall k :: k in store <==> k in old(store) && now <= old(store)[k].expires
      ensures forall k :: k in store ==> store[k] == old(store)[k]
    {
      var keys := store.Keys;
      while keys != {}
        invariant keys <= old(store).Keys
        invariant store.Keys == set k | k in old(store) && (k in keys || !Expired(old(store)[k], now))
        invariant forall k :: k in store ==> store[k] == old(store)[k]
        decreases keys
      {
        var key :| key in keys;
        if store[key].expires < now {
          store := store - {key};
        }
        keys := keys - {key};
      }
    }
  }

  // ----- runs

  datatype Event<T> =
    | Set(key: string, value: T, ttl: int, at: int)
    | GetOk(key: string, at: int)
    | GetByValue(wanted: T, order: seq<string>, at: int)
    | Remove(key: string, at: int)
    | Cleanup(at: int)

  function Step<T(==)>(store: map<string, Val<T>>, e: Event<T>): map<string, Val<T>> {
    match e
    case Set(key, value, ttl, at) => store[key := Val(value, at + ttl)]
    case GetOk(key, at) => AfterGet(store, key, at)
    case GetByValue(wanted, order, at) => AfterGetByValue(store, wanted, order, at)
    case Remove(key, _) => store - {key}
    case Cleanup(at) => Clean(store, at)
  }

  function After<T(==)>(es: seq<Event<T>>): map<string, Val<T>> {
    var n := |es| - 1;
    if es == [] then map[] else Step(After(es[..n]), es[n])
  }

  /** The plain map: what was last set and not removed since. */
  function Binding<T>(es: seq<Event<T>>, key: string): Option<Val<T>> {
    var n := |es| - 1;
    if es == [] then None
    else
      match es[n]
      case Set(k, value, ttl, at) => if k == key then Some(Val(value, at + ttl)) else Binding(es[..n], key)
      case Remove(k, _) => if k == key then None else Binding(es[..n], key)
      case _ => Binding(es[..n], key)
  }

  /** The clock does not go back, and stands at `now` in the end. */
  predicate InTime<T>(es: seq<Event<T>>, now: int) {
    && (forall i, j :: 0 <= i < j < |es| ==> es[i].at <= es[j].at)
    && (forall i :: 0 <= i < |es| ==> es[i].at <= now)
  }

  lemma StepFinds<T>(store: map<string, Val<T>>, e: Event<T>, key: string)
    ensures match e
            case Set(k, value, ttl, at) => Find(Step(store, e), key) == if k == key then Some(Val(value, at + ttl)) else Find(store, key)
            case Remove(k, _) => Find(Step(store, e), key) == if k == key then None else Find(store, key)
            case _ => Find(Step(store, e), key) == Find(store, key)
                      || (Find(Step(store, e), key) == None && Find(store, key).Some? && Expired(store[key], e.at))
  {
  }

  /** The store holds the plain map's binding, or has dropped it after it expired. */
  lemma {:induction false} StoreAgrees<T>(es: seq<Event<T>>, key: string, now: int)
    requires InTime(es, now)
    ensures Find(After(es), key) == Binding(es, key)
         || (Find(After(es), key) == None && Binding(es, key).Some? && Expired(Binding(es, key).value, now))
  {
    if es != [] {
      var n := |es| - 1;
      assert InTime(es[..n], es[n].at);
      StoreAgrees(es[..n], key, es[n].at);
      StepFinds(After(es[..n]), es[n], key);
    }
  }

  /** Over every run, a lookup answers as the plain map does, filtered by expiry: when entries are cleaned
      up, lazily or in the background, makes no difference. */
  lemma {:induction false} LookupIsPlain<T>(es: seq<Event<T>>, key: string, now: int)
    requires InTime(es, now)
    ensures Unexpired(Find(After(es), key), now) == Unexpired(Binding(es, key), now)
  {
    StoreAgrees(es, key, now);
  }

  /** That is, with what was set last under the key and not removed since, until its time to live is over. */
  lemma LookupExactly<T>(es: seq<Event<T>>, key: string, now: int, value: T)
    requires InTime(es, now)
    ensures Unexpired(Find(After(es), key), now) == Some(value) <==>
              exists i :: 0 <= i < |es| && es[i].Set? && es[i].key == key && es[i].value == value
                && now <= es[i].at + es[i].ttl
                && forall j :: i < j < |es| ==> !(es[j].Set? && es[j].key == key) && !(es[j].Remove? && es[j].key == key)
  {
    LookupIsPlain(es, key, now);
    BindingIsLastSet(es, key);
  }

  /** `i` sets the key last, and nothing removes it after. */
  predicate SetLast<T>(es: seq<Event<T>>, key: string, i: nat) {
    && i < |es| && es[i].Set? && es[i].key == key
    && forall j :: i < j < |es| ==> !(es[j].Set? && es[j].key == key) && !(es[j].Remove? && es[j].key == key)
  }

  lemma {:induction false} BindingIsLastSet<T>(es: seq<Event<T>>, key: string)
    ensures Binding(es, key) == None <==> forall i: nat :: !SetLast(es, key, i)
    ensures forall i: nat :: SetLast(es, key, i) ==> Binding(es, key) == Some(Val(es[i].value, es[i].at + es[i].ttl))
  {
    if es != [] {
      var n := |es| - 1;
      BindingIsLastSet(es[..n], key);
      var still := !(es[n].Set? && es[n].key == key) && !(es[n].Remove? && es[n].key == key);
      forall i: nat | i < n ensures SetLast(es, key, i) <==> (SetLast(es[..n], key, i) && still) {
        assert forall j :: 0 <= j < n ==> es[..n][j] == es[j];
      }
      assert SetLast(es, key, n) <==> es[n].Set? && es[n].key == key;
    }
  }

  /** What a search by value finds is a live binding of the plain map. */
  lemma FoundIsLive<T>(es: seq<Event<T>>, value: T, order: seq<string>, now: int)
    requires InTime(es, now)
    ensures match FirstMatch(After(es), order, value)
            case Some(key) => !Expired(After(es)[key], now) ==> Unexpired(Binding(es, key), now) == Some(value)
            case None => true
  {
    match FirstMatch(After(es), order, value)
    case Some(key) => StoreAgrees(es, key, now);
    case None =>
  }

  predicate Matches<T(==)>(store: map<string, Val<T>>, key: string, value: T) {
    key in store && store[key].value == value
  }

  /** What the search returns. */
  function Found<T(==)>(store: map<string, Val<T>>, order: seq<string>, value: T, now: int): Option<string> {
    match FirstMatch(store, order, value)
    case Some(key) => if Expired(store[key], now) then None else Some(key)
    case None => None
  }

  lemma {:induction false} FirstMatchIsFirst<T>(store: map<string, Val<T>>, order: seq<string>, value: T) returns (i: nat)
    ensures i <= |order| && forall j :: 0 <= j < i ==> !Matches(store, order[j], value)
    ensures i < |order| ==> Matches(store, order[i], value)
    ensures FirstMatch(store, order, value) == if i < |order| then Some(order[i]) else None
  {
    i := 0;
    if order != [] && !Matches(store, order[0], value) {
      i := FirstMatchIsFirst(store, order[1..], value);
      i := i + 1;
      assert forall j :: 0 < j < |order| ==> order[j] == order[1..][j - 1];
    }
  }

  /** A search by value misses a live binding exactly when the first match visited is expired and a later one
      is live. (Keys are visited once.) */
  lemma SearchMissesExactly<T>(store: map<string, Val<T>>, order: seq<string>, value: T, now: int)
    ensures Found(store, order, value, now) == None
            && (exists k :: k in order && Matches(store, k, value) && !Expired(store[k], now))
       <==> exists i, j :: 0 <= i < j < |order|
              && Matches(store, order[i], value) && Expired(store[order[i]], now)
              && (forall h :: 0 <= h < i ==> !Matches(store, order[h], value))
              && Matches(store, order[j], value) && !Expired(store[order[j]], now)
  {
    var i := FirstMatchIsFirst(store, order, value);
    if k :| Found(store, order, value, now) == None && k in order && Matches(store, k, value) && !Expired(store[k], now) {
      var j :| 0 <= j < |order| && order[j] == k;
      assert i < j;
    }
  }

  /** It happens: the expired one is then removed, so that searching again succeeds. */
  lemma SearchCanMissLiveBinding()
    ensures var store := map["old" := Val(1, 0), "new" := Val(1, 100)];
            var order := ["old", "new"];
            && Found(store, order, 1, 50) == None && !Expired(store["new"], 50)
            && AfterGetByValue(store, 1, order, 50) == map["new" := Val(1, 100)]
            && Found(AfterGetByValue(store, 1, order, 50), order, 1, 50) == Some("new")
  {
    var store := map["old" := Val(1, 0), "new" := Val(1, 100)];
    assert store - {"old"} == map["new" := Val(1, 100)];
    assert ["old", "new"][1..] == ["new"];
  }
}
