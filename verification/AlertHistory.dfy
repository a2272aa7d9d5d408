/** Alert history (internal/alerts/alerts_history.go), the deactivation of a paused system's alerts
    (internal/hub/systems/system_manager.go) and the pruning job (internal/records/records.go). */
module AlertHistory {
  import opened Options

  datatype Alert = Alert(system: string, user: string, triggered: bool)

  /** A history row is open while `resolved` is None. Rows are in order of creation. */
  datatype Entry = Entry(alert: string, user: string, resolved: Option<int>)

  datatype Db = Db(alerts: map<string, Alert>, history: seq<Entry>)

  const COUNT_TO_KEEP: nat := 200
  const COUNT_BEFORE_DELETION: nat := 250

  // ----- history rows

  predicate IsOpen(e: Entry, alert: string) {
    e.alert == alert && e.resolved == None
  }

  function OpenCount(history: seq<Entry>, alert: string): nat {
    if history == [] then 0 else (if IsOpen(history[0], alert) then 1 else 0) + OpenCount(history[1..], alert)
  }

  /** `resolveAlertHistoryRecord`: the first open row of the alert is closed. */
  function Resolve(history: seq<Entry>, alert: string, at: int): seq<Entry> {
    if history == [] then []
    else if IsOpen(history[0], alert) then [history[0].(resolved := Some(at))] + history[1..]
    else [history[0]] + Resolve(history[1..], alert, at)
  }

  function CountUser(history: seq<Entry>, user: string): nat {
    if history == [] then 0 else (if history[0].user == user then 1 else 0) + CountUser(history[1..], user)
  }

  /** Of one user's rows, the `keep` newest stay. */
  function Prune(history: seq<Entry>, user: string, keep: nat): seq<Entry> {
    if history == [] then []
    else
      (if history[0].user == user && CountUser(history[1..], user) >= keep then [] else [history[0]]) +
      Prune(history[1..], user, keep)
  }

  /** The `i`th row is the first of the alert that is open. */
  predicate FirstOpenAt(history: seq<Entry>, alert: string, i: nat) {
    && i < |history| && history[i].alert == alert && history[i].resolved == None
    && forall j :: 0 <= j < i ==> !(history[j].alert == alert && history[j].resolved == None)
  }

  /** The first row of the alert that is open gets its time; nothing else changes. */
  ghost predicate ClosesFirst(before: seq<Entry>, alert: string, at: int, after: seq<Entry>) {
    && (forall i: nat :: FirstOpenAt(before, alert, i) ==> after == before[i := before[i].(resolved := Some(at))])
    && ((forall i: nat :: !FirstOpenAt(before, alert, i)) ==> after == before)
  }

  lemma FirstOpenNext(history: seq<Entry>, alert: string, i: nat)
    requires history != [] && !IsOpen(history[0], alert)
    ensures FirstOpenAt(history, alert, i) <==> i > 0 && FirstOpenAt(history[1..], alert, i - 1)
  {
    if i > 0 && FirstOpenAt(history[1..], alert, i - 1) {
      forall j | 0 <= j < i ensures !(history[j].alert == alert && history[j].resolved == None) {
        assert j > 0 ==> history[j] == history[1..][j - 1];
      }
    }
    if i > 0 && FirstOpenAt(history, alert, i) {
      forall j | 0 <= j < i - 1 ensures !(history[1..][j].alert == alert && history[1..][j].resolved == None) {
        assert history[1..][j] == history[j + 1];
      }
    }
  }

  lemma {:induction false} ResolveMeaning(history: seq<Entry>, alert: string, at: int)
    ensures ClosesFirst(history, alert, at, Resolve(history, alert, at))
  {
    if history != [] && !IsOpen(history[0], alert) {
      var rest := history[1..];
      var head := [history[0]];
      ResolveMeaning(rest, alert, at);
      assert head + rest == history;
      forall i: nat ensures FirstOpenAt(history, alert, i) <==> i > 0 && FirstOpenAt(rest, alert, i - 1) {
        FirstOpenNext(history, alert, i);
      }
      hide FirstOpenAt;
      forall i: nat | FirstOpenAt(history, alert, i)
        ensures i < |history| && Resolve(history, alert, at) == history[i := history[i].(resolved := Some(at))]
      {
        OpenIsThere(history, alert, i);
        OpenIsThere(rest, alert, i - 1);
        assert head + rest[i - 1 := rest[i - 1].(resolved := Some(at))] == history[i := history[i].(resolved := Some(at))];
      }
      if forall i: nat :: !FirstOpenAt(history, alert, i) {
        assert forall i: nat :: FirstOpenAt(rest, alert, i) ==> FirstOpenAt(history, alert, i + 1);
      }
    } else if history != [] {
      assert FirstOpenAt(history, alert, 0);
      assert [history[0].(resolved := Some(at))] + history[1..] == history[0 := history[0].(resolved := Some(at))];
    }
  }

  lemma OpenIsThere(history: seq<Entry>, alert: string, i: nat)
    requires FirstOpenAt(history, alert, i)
    ensures i < |history|
  {
  }

  // ----- hooks

  /** An alert record loaded with flag `loaded` is saved with flag `triggered`: the hook compares these
      two, whatever the database holds by now. */
  function Update(db: Db, id: string, loaded: bool, triggered: bool, at: int): Db
    requires id in db.alerts
  {
    var history :=
      if loaded == triggered then db.history
      else if triggered then db.history + [Entry(id, db.alerts[id].user, None)]
      else Resolve(db.history, id, at);
    Db(db.alerts[id := db.alerts[id].(triggered := triggered)], history)
  }

  function Delete(db: Db, id: string, at: int): Db
    requires id in db.alerts
  {
    Db(db.alerts - {id}, if db.alerts[id].triggered then Resolve(db.history, id, at) else db.history)
  }

  /** `deactivateAlerts` over the alerts its query found. */
  function Deactivate(db: Db, ids: seq<string>, at: int): Db
    requires forall id :: id in ids ==> id in db.alerts
    ensures Deactivate(db, ids, at).alerts.Keys == db.alerts.Keys
  {
    var n := |ids| - 1;
    if ids == [] then db
    else
      var before := Deactivate(db, ids[..n], at);
      Update(before, ids[n], true, false, at)
  }

  /** The pruning job over the users its query found. */
  function PruneUsers(history: seq<Entry>, users: seq<string>): seq<Entry> {
    var n := |users| - 1;
    if users == [] then history else Prune(PruneUsers(history, users[..n]), users[n], COUNT_TO_KEEP)
  }

  function Heavy(history: seq<Entry>, users: seq<string>): seq<string> {
    var n := |users| - 1;
    if users == [] then []
    else Heavy(history, users[..n]) + if CountUser(history, users[n]) > COUNT_BEFORE_DELETION then [users[n]] else []
  }

  // ----- as the hub does it

  class AlertStore {
    var alerts: map<string, Alert>
    var history: seq<Entry>

    function Value(): Db
      reads this
    {
      Db(alerts, history)
    }

    constructor ()
      ensures Value() == Db(map[], [])
    {
      alerts, history := map[], [];
    }

    method ResolveAlertHistoryRecord(alertRecordID: string, at: int)
      modifies this`history
      ensures history == Resolve(old(history), alertRecordID, at)
      ensures ClosesFirst(old(history), alertRecordID, at, history)
    {
      hide ClosesFirst;
      ResolveMeaning(history, alertRecordID, at);
      for i := 0 to |history|
        invariant history == old(history)
        invariant Resolve(history, alertRecordID, at) == history[..i] + Resolve(history[i..], alertRecordID, at)
      {
        if IsOpen(history[i], alertRecordID) {
          history := history[i := history[i].(resolved := Some(at))];
          assert history == old(history)[..i] + ([history[i]] + old(history)[i + 1..]);
          return;
        }
        assert history[i..][1..] == history[i + 1..];
        assert history[..i] + ([history[i]] + Resolve(history[i + 1..], alertRecordID, at))
            == history[..i + 1] + Resolve(history[i + 1..], alertRecordID, at);
      }
      assert history[..|history|] + [] == history;
    }

    method CreateAlertHistoryRecord(alertRecordID: string, user: string)
      modifies this`history
      ensures history == old(history) + [Entry(alertRecordID, user, None)]
    {
      history := history + [Entry(alertRecordID, user, None)];
    }

    /** Saving an alert record, with the hook on update. */
    method SaveAlert(id: string, loaded: bool, triggered: bool, at: int)
      requires id in alerts
      modifies this
      ensures Value() == Update(old(Value()), id, loaded, triggered, at)
      ensures alerts == old(alerts)[id := old(alerts)[id].(triggered := triggered)]
      ensures loaded == triggered ==> history == old(history)
      ensures !loaded && triggered ==> history == old(history) + [Entry(id, old(alerts)[id].user, None)]
      ensures loaded && !triggered ==> ClosesFirst(old(history), id, at, history)
    {
      hide ClosesFirst;
      alerts := alerts[id := alerts[id].(triggered := triggered)];
      if loaded == triggered {
        return;
      }
      if triggered {
        CreateAlertHistoryRecord(id, alerts[id].user);
        return;
      }
      ResolveAlertHistoryRecord(id, at);
    }

    /** Deleting an alert record, with the hook on delete. */
    method DeleteAlert(id: string, at: int)
      requires id in alerts
      modifies this
      ensures Value() == Delete(old(Value()), id, at)
      ensures alerts == old(alerts) - {id}
      ensures if old(alerts)[id].triggered then ClosesFirst(old(history), id, at, history) else history == old(history)
    {
      hide ClosesFirst;
      var deleted := alerts[id];
      alerts := alerts - {id};
      if !deleted.triggered {
        return;
      }
      ResolveAlertHistoryRecord(id, at);
    }

    /** `ids` are the system's triggered alerts. */
    method DeactivateAlerts(ids: seq<string>, at: int)
      requires forall id :: id in ids ==> id in alerts
      modifies this
      ensures Value() == Deactivate(old(Value()), ids, at)
    {
      for i := 0 to |ids|
        invariant alerts.Keys == old(alerts.Keys)
        invariant Value() == Deactivate(old(Value()), ids[..i], at)
      {
        assert ids[..i + 1][..i] == ids[..i];
        SaveAlert(ids[i], true, false, at);
      }
      assert ids[..|ids|] == ids;
    }

    method CountOf(user: string) returns (count: nat)
      ensures count == CountUser(history, user)
    {
      count := 0;
      var i := |history|;
      while i > 0
        invariant 0 <= i <= |history|
        invariant count == CountUser(history[i..], user)
      {
        i := i - 1;
        assert history[i..][1..] == history[i + 1..];
        if history[i].user == user {
          count := count + 1;
        }
      }
    }

    /** The DELETE statement for one user: newest rows first, up to `keep` of them stay. */
    method DeleteFrom(user: string, keep: nat)
      modifies this`history
      ensures history == Prune(old(history), user, keep)
    {
      var kept: seq<Entry> := [];
      var count := 0;
      var i := |history|;
      while i > 0
        invariant 0 <= i <= |history| && history == old(history)
        invariant count == CountUser(history[i..], user)
        invariant kept == Prune(history[i..], user, keep)
      {
        i := i - 1;
        assert history[i..][1..] == history[i + 1..];
        if !(history[i].user == user && count >= keep) {
          kept := [history[i]] + kept;
        } else {
          assert [] + kept == kept;
        }
        if history[i].user == user {
          count := count + 1;
        }
      }
      history := kept;
    }

    /** `users` are the users that have rows. */
    method DeleteOldAlertsHistory(users: seq<string>)
      modifies this`history
      ensures history == PruneUsers(old(history), Heavy(old(history), users))
    {
      var heavy: seq<string> := [];
      for i := 0 to |users|
        invariant history == old(history) && heavy == Heavy(history, users[..i])
      {
        assert users[..i + 1][..i] == users[..i];
        var count := CountOf(users[i]);
        if count > COUNT_BEFORE_DELETION {
          heavy := heavy + [users[i]];
        }
      }
      assert users[..|users|] == users;
      for i := 0 to |heavy|
        invariant history == PruneUsers(old(history), heavy[..i])
      {
        assert heavy[..i + 1][..i] == heavy[..i];
        DeleteFrom(heavy[i], COUNT_TO_KEEP);
      }
      assert heavy[..|heavy|] == heavy;
    }
  }

  // ----- open rows

  function Expected(db: Db, alert: string): nat {
    if alert in db.alerts && db.alerts[alert].triggered then 1 else 0
  }

  /** An alert has one open row when it is triggered, none otherwise. */
  ghost predicate Exact(db: Db) {
    forall alert :: OpenCount(db.history, alert) == Expected(db, alert)
  }

  /** At most one, and only if triggered. */
  ghost predicate Bounded(db: Db) {
    forall alert :: OpenCount(db.history, alert) <= Expected(db, alert)
  }

  lemma {:induction false} OpenCountAppend(history: seq<Entry>, e: Entry, alert: string)
    ensures OpenCount(history + [e], alert) == OpenCount(history, alert) + if IsOpen(e, alert) then 1 else 0
  {
    if history == [] {
      assert [e][1..] == [];
    } else {
      assert (history + [e])[1..] == history[1..] + [e];
      OpenCountAppend(history[1..], e, alert);
    }
  }

  lemma {:induction false} OpenCountResolve(history: seq<Entry>, id: string, at: int, alert: string)
    ensures OpenCount(Resolve(history, id, at), alert)
         == if alert == id && OpenCount(history, id) > 0 then OpenCount(history, id) - 1 else OpenCount(history, alert)
  {
    if history != [] {
      if IsOpen(history[0], id) {
        assert Resolve(history, id, at)[1..] == history[1..];
      } else {
        OpenCountResolve(history[1..], id, at, alert);
        assert Resolve(history, id, at)[1..] == Resolve(history[1..], id, at);
      }
    }
  }

  lemma UpdateOpenCount(db: Db, id: string, loaded: bool, triggered: bool, at: int, alert: string)
    requires id in db.alerts
    ensures OpenCount(Update(db, id, loaded, triggered, at).history, alert)
         == var n := OpenCount(db.history, alert);
            if alert != id || loaded == triggered then n
            else if triggered then n + 1
            else if n > 0 then n - 1 else 0
  {
    OpenCountAppend(db.history, Entry(id, db.alerts[id].user, None), alert);
    OpenCountResolve(db.history, id, at, alert);
  }

  /** A save keeps the history exact if and only if the record was loaded with the stored flag, or the
      save resolves an alert that was loaded as triggered. */
  lemma UpdateKeepsExactly(db: Db, id: string, loaded: bool, triggered: bool, at: int)
    requires id in db.alerts && Exact(db)
    ensures Exact(Update(db, id, loaded, triggered, at))
       <==> loaded == db.alerts[id].triggered || (loaded && !triggered)
  {
    var after := Update(db, id, loaded, triggered, at);
    UpdateOpenCount(db, id, loaded, triggered, at, id);
    forall alert | alert != id ensures OpenCount(after.history, alert) == Expected(after, alert) {
      UpdateOpenCount(db, id, loaded, triggered, at, alert);
    }
    assert OpenCount(db.history, id) == Expected(db, id);
    if Exact(after) {
      assert OpenCount(after.history, id) == Expected(after, id);
    }
  }

  lemma UpdateKeepsBounded(db: Db, id: string, loaded: bool, triggered: bool, at: int)
    requires id in db.alerts && Bounded(db)
    requires loaded == db.alerts[id].triggered || (loaded && !triggered)
    ensures Bounded(Update(db, id, loaded, triggered, at))
  {
    var after := Update(db, id, loaded, triggered, at);
    forall alert ensures OpenCount(after.history, alert) <= Expected(after, alert) {
      UpdateOpenCount(db, id, loaded, triggered, at, alert);
      assert OpenCount(db.history, alert) <= Expected(db, alert);
    }
  }

  /** Deleting an alert leaves no open row of it. */
  lemma DeleteLeavesNoneOpen(db: Db, id: string, at: int, alert: string)
    requires id in db.alerts && Bounded(db)
    ensures OpenCount(Delete(db, id, at).history, id) == 0
    ensures alert != id ==> OpenCount(Delete(db, id, at).history, alert) == OpenCount(db.history, alert)
  {
    OpenCountResolve(db.history, id, at, alert);
    OpenCountResolve(db.history, id, at, id);
    assert OpenCount(db.history, id) <= Expected(db, id);
  }

  /** Pausing a system resolves every alert it deactivates, and no other. */
  lemma {:induction false} DeactivateResolves(db: Db, ids: seq<string>, at: int, alert: string)
    requires Exact(db) && forall id :: id in ids ==> id in db.alerts
    ensures Exact(Deactivate(db, ids, at))
    ensures Expected(Deactivate(db, ids, at), alert) == if alert in ids then 0 else Expected(db, alert)
  {
    if ids != [] {
      var n := |ids| - 1;
      assert ids == ids[..n] + [ids[n]];
      DeactivateResolves(db, ids[..n], at, alert);
      UpdateKeepsExactly(Deactivate(db, ids[..n], at), ids[n], true, false, at);
    }
  }

  // ----- pruning

  lemma {:induction false} PruneCounts(history: seq<Entry>, user: string, keep: nat, other: string)
    ensures CountUser(Prune(history, user, keep), other)
         == if other == user && CountUser(history, user) > keep then keep else CountUser(history, other)
  {
    if history != [] {
      PruneCounts(history[1..], user, keep, other);
      var rest := Prune(history[1..], user, keep);
      assert ([history[0]] + rest)[1..] == rest;
      assert [] + rest == rest;
    }
  }

  lemma {:induction false} PruneBounds(history: seq<Entry>, user: string, keep: nat, alert: string)
    ensures OpenCount(Prune(history, user, keep), alert) <= OpenCount(history, alert)
  {
    if history != [] {
      PruneBounds(history[1..], user, keep, alert);
      var rest := Prune(history[1..], user, keep);
      assert ([history[0]] + rest)[1..] == rest;
      assert [] + rest == rest;
    }
  }

  /** An open row is lost exactly when the same user has `keep` newer rows. */
  predicate Outlived(history: seq<Entry>, user: string, keep: nat, alert: string) {
    history != [] &&
    ((IsOpen(history[0], alert) && history[0].user == user && CountUser(history[1..], user) >= keep)
     || Outlived(history[1..], user, keep, alert))
  }

  lemma {:induction false} PruneLosesExactly(history: seq<Entry>, user: string, keep: nat, alert: string)
    ensures OpenCount(Prune(history, user, keep), alert) == OpenCount(history, alert) <==> !Outlived(history, user, keep, alert)
  {
    if history != [] {
      PruneLosesExactly(history[1..], user, keep, alert);
      PruneBounds(history[1..], user, keep, alert);
      var rest := Prune(history[1..], user, keep);
      assert ([history[0]] + rest)[1..] == rest;
      assert [] + rest == rest;
    }
  }

  lemma {:induction false} PruneUsersBounds(history: seq<Entry>, users: seq<string>, alert: string)
    ensures OpenCount(PruneUsers(history, users), alert) <= OpenCount(history, alert)
  {
    if users != [] {
      var n := |users| - 1;
      PruneUsersBounds(history, users[..n], alert);
      PruneBounds(PruneUsers(history, users[..n]), users[n], COUNT_TO_KEEP, alert);
    }
  }

  lemma {:induction false} PruneUsersCounts(history: seq<Entry>, users: seq<string>, user: string)
    ensures CountUser(PruneUsers(history, users), user)
         == if user in users && CountUser(history, user) > COUNT_TO_KEEP then COUNT_TO_KEEP else CountUser(history, user)
  {
    if users != [] {
      var n := |users| - 1;
      assert users == users[..n] + [users[n]];
      PruneUsersCounts(history, users[..n], user);
      PruneCounts(PruneUsers(history, users[..n]), users[n], COUNT_TO_KEEP, user);
    }
  }

  lemma {:induction false} HeavyMeaning(history: seq<Entry>, users: seq<string>, user: string)
    ensures user in Heavy(history, users) <==> user in users && CountUser(history, user) > COUNT_BEFORE_DELETION
  {
    if users != [] {
      assert users == users[..|users| - 1] + [users[|users| - 1]];
      HeavyMeaning(history, users[..|users| - 1], user);
    }
  }

  /** The job leaves a user of the table with 200 rows if there were more than 250, and otherwise with
      all of them: never more than 250. */
  lemma JobCounts(history: seq<Entry>, users: seq<string>, user: string)
    ensures CountUser(PruneUsers(history, Heavy(history, users)), user)
         == if user in users && CountUser(history, user) > 250 then 200 else CountUser(history, user)
  {
    HeavyMeaning(history, users, user);
    PruneUsersCounts(history, Heavy(history, users), user);
  }

  // ----- runs

  datatype Event =
    | Created(id: string, system: string, user: string)
    | Saved(id: string, loaded: bool, triggered: bool)
    | Deleted(id: string)
    | Deactivated(ids: seq<string>)
    | Pruned(users: seq<string>)

  /** New alerts have new ids and are not triggered; the others still exist. */
  predicate Possible(db: Db, e: Event) {
    match e
    case Created(id, _, _) => id !in db.alerts
    case Saved(id, _, _) => id in db.alerts
    case Deleted(id) => id in db.alerts
    case Deactivated(ids) => forall id :: id in ids ==> id in db.alerts && db.alerts[id].triggered
    case Pruned(_) => true
  }

  /** A save carries the flag its record was loaded with. */
  function Step(db: Db, e: Event, at: int): Db
    requires Possible(db, e)
  {
    match e
    case Created(id, system, user) => db.(alerts := db.alerts[id := Alert(system, user, false)])
    case Saved(id, loaded, triggered) => Update(db, id, loaded, triggered, at)
    case Deleted(id) => Delete(db, id, at)
    case Deactivated(ids) => Deactivate(db, ids, at)
    case Pruned(users) => db.(history := PruneUsers(db.history, Heavy(db.history, users)))
  }

  predicate PossibleRun(db: Db, es: seq<Event>, at: int)
    decreases |es|
  {
    es == [] || (Possible(db, es[0]) && PossibleRun(Step(db, es[0], at), es[1..], at + 1))
  }

  function Run(db: Db, es: seq<Event>, at: int): Db
    requires PossibleRun(db, es, at)
    decreases |es|
  {
    if es == [] then db else Run(Step(db, es[0], at), es[1..], at + 1)
  }

  lemma {:induction false} DeactivateKeepsBounded(db: Db, ids: seq<string>, at: int)
    requires Bounded(db) && forall id :: id in ids ==> id in db.alerts
    ensures Bounded(Deactivate(db, ids, at))
  {
    if ids != [] {
      var n := |ids| - 1;
      DeactivateKeepsBounded(db, ids[..n], at);
      var before := Deactivate(db, ids[..n], at);
      var after := Update(before, ids[n], true, false, at);
      forall alert ensures OpenCount(after.history, alert) <= Expected(after, alert) {
        UpdateOpenCount(before, ids[n], true, false, at, alert);
        assert OpenCount(before.history, alert) <= Expected(before, alert);
      }
    }
  }

  /** The save was loaded with the stored flag, or resolves an alert loaded as triggered. */
  predicate Harmless(db: Db, e: Event)
    requires Possible(db, e)
  {
    e.Saved? ==> e.loaded == db.alerts[e.id].triggered || (e.loaded && !e.triggered)
  }

  predicate HarmlessRun(db: Db, es: seq<Event>, at: int)
    requires PossibleRun(db, es, at)
    decreases |es|
  {
    es == [] || (Harmless(db, es[0]) && HarmlessRun(Step(db, es[0], at), es[1..], at + 1))
  }

  lemma StepKeepsBounded(db: Db, e: Event, at: int)
    requires Possible(db, e) && Harmless(db, e) && Bounded(db)
    ensures Bounded(Step(db, e, at))
  {
    match e
    case Created(id, system, user) =>
      assert forall alert :: OpenCount(db.history, alert) <= Expected(db, alert);
    case Saved(id, loaded, triggered) =>
      UpdateKeepsBounded(db, id, loaded, triggered, at);
    case Deleted(id) =>
      var after := Delete(db, id, at);
      forall alert ensures OpenCount(after.history, alert) <= Expected(after, alert) {
        DeleteLeavesNoneOpen(db, id, at, alert);
        assert OpenCount(db.history, alert) <= Expected(db, alert);
      }
    case Deactivated(ids) =>
      DeactivateKeepsBounded(db, ids, at);
    case Pruned(users) =>
      var after := Step(db, e, at);
      forall alert ensures OpenCount(after.history, alert) <= Expected(after, alert) {
        PruneUsersBounds(db.history, Heavy(db.history, users), alert);
        assert OpenCount(db.history, alert) <= Expected(db, alert);
      }
  }

  lemma StepKeepsExactly(db: Db, e: Event, at: int)
    requires Possible(db, e) && Exact(db) && !e.Pruned?
    ensures Exact(Step(db, e, at)) <==> Harmless(db, e)
  {
    match e
    case Created(id, system, user) =>
      assert forall alert :: OpenCount(db.history, alert) == Expected(db, alert);
    case Saved(id, loaded, triggered) =>
      UpdateKeepsExactly(db, id, loaded, triggered, at);
    case Deleted(id) =>
      var after := Delete(db, id, at);
      forall alert ensures OpenCount(after.history, alert) == Expected(after, alert) {
        DeleteLeavesNoneOpen(db, id, at, alert);
        assert OpenCount(db.history, alert) == Expected(db, alert);
      }
    case Deactivated(ids) =>
      DeactivateResolves(db, ids, at, "");
  }

  /** The history is exact throughout the run. */
  ghost predicate ExactThroughout(db: Db, es: seq<Event>, at: int)
    requires PossibleRun(db, es, at)
    decreases |es|
  {
    Exact(db) && (es == [] || ExactThroughout(Step(db, es[0], at), es[1..], at + 1))
  }

  /** Over every run without pruning, an alert has one open row exactly while it is triggered, throughout, if
      and only if every save is harmless. */
  lemma {:induction false} RunIsExactExactly(db: Db, es: seq<Event>, at: int)
    requires PossibleRun(db, es, at) && Exact(db) && forall e :: e in es ==> !e.Pruned?
    ensures ExactThroughout(db, es, at) <==> HarmlessRun(db, es, at)
    decreases |es|
  {
    if es != [] {
      StepKeepsExactly(db, es[0], at);
      if Harmless(db, es[0]) {
        RunIsExactExactly(Step(db, es[0], at), es[1..], at + 1);
      } else {
        NotExactThroughout(Step(db, es[0], at), es[1..], at + 1);
      }
    }
  }

  lemma NotExactThroughout(db: Db, es: seq<Event>, at: int)
    requires PossibleRun(db, es, at) && !Exact(db)
    ensures !ExactThroughout(db, es, at)
  {
  }

  /** Over every run of harmless saves, an alert has one open row exactly while it is triggered; with pruning,
      at most one and only while it is triggered. */
  lemma {:induction false} RunKeepsHistory(db: Db, es: seq<Event>, at: int)
    requires PossibleRun(db, es, at) && Exact(db) && HarmlessRun(db, es, at)
    ensures Bounded(Run(db, es, at))
    ensures (forall e :: e in es ==> !e.Pruned?) ==> Exact(Run(db, es, at))
    decreases |es|
  {
    RunKeepsBounded(db, es, at);
    if es != [] && forall e :: e in es ==> !e.Pruned? {
      StepKeepsExactly(db, es[0], at);
      RunKeepsHistory(Step(db, es[0], at), es[1..], at + 1);
    }
  }

  lemma {:induction false} RunKeepsBounded(db: Db, es: seq<Event>, at: int)
    requires PossibleRun(db, es, at) && Bounded(db) && HarmlessRun(db, es, at)
    ensures Bounded(Run(db, es, at))
    decreases |es|
  {
    if es != [] {
      StepKeepsBounded(db, es[0], at);
      RunKeepsBounded(Step(db, es[0], at), es[1..], at + 1);
    }
  }
}
