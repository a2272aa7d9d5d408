/** Correlation of requests and responses on one agent connection
    (internal/hub/ws/request_manager.go).

    Senders, watchers, one serial reader and Close share the pending map. Every stretch of code
    that runs under the lock, or touches only one channel, is one atomic step, and the steps of
    different goroutines interleave freely. A `*PendingRequest` is an index into `requests`. */
module RequestManager {
  import opened Options

  /** Request ids are uint32. */
  const ID_SPACE: int := 0x1_0000_0000

  /** `serial` numbers the messages in order of arrival. `id` is the request id the message
      carries; none for a legacy response or one that does not decode. */
  datatype Message = Message(serial: nat, id: Option<nat>)

  /** How far `SendRequest` got. */
  datatype Sender = Allocated | Registered | Returned | Failed

  datatype Watcher = NotStarted | Waiting | Finished

  /** `contextDone`: the request's context is cancelled or past its deadline. `delivered` and
      `managerCancelled` record history for the proofs. */
  datatype Request = Request(id: nat, createdAt: int, channel: Option<Message>, contextDone: bool,
                             sender: Sender, watcher: Watcher, delivered: seq<Message>, managerCancelled: bool)

  /** Where the read loop is: between messages, routing one, about to send it to a request's
      channel, or about to take a served request out of the map. */
  datatype Reader = Idle | Routing(message: Message) | Chosen(message: Message, request: nat) | Served(request: nat)

  /** `closed` and `placed` record what became of each message, by serial. */
  datatype State = State(nextID: nat, requests: seq<Request>, pending: map<nat, nat>, reader: Reader,
                         arrived: nat, closed: multiset<nat>, placed: map<nat, nat>)

  const EMPTY: State := State(0, [], map[], Idle, 0, multiset{}, map[])

  function Without(pending: map<nat, nat>, id: nat): map<nat, nat> {
    pending - {id}
  }

  function Cancelled(r: Request): Request {
    r.(contextDone := true, managerCancelled := true)
  }

  /** `cancelRequest`. */
  function Withdraw(s: State, id: nat): State
    requires id in s.pending ==> s.pending[id] < |s.requests|
  {
    if id in s.pending then
      var k := s.pending[id];
      s.(requests := s.requests[k := Cancelled(s.requests[k])], pending := Without(s.pending, id))
    else s
  }

  predicate IsPending(s: State, k: nat)
    requires k < |s.requests|
  {
    var id := s.requests[k].id;
    id in s.pending && s.pending[id] == k
  }

  /** `Close`. */
  function CloseAll(s: State): State {
    s.(requests := seq(|s.requests|, k requires 0 <= k < |s.requests| =>
                         if IsPending(s, k) then Cancelled(s.requests[k]) else s.requests[k]),
       pending := map[])
  }

  predicate Oldest(s: State, k: nat)
    requires InTable(s)
  {
    k < |s.requests| && IsPending(s, k) && forall id :: id in s.pending ==> s.requests[k].createdAt <= s.requests[s.pending[id]].createdAt
  }

  /** The map points at allocated requests, filed under their own ids. */
  ghost predicate Filed(s: State) {
    InTable(s) && forall id :: id in s.pending ==> s.requests[s.pending[id]].id == id
  }

  predicate InTable(s: State) {
    forall id :: id in s.pending ==> s.pending[id] < |s.requests|
  }

  function FreshRequest(id: nat, now: int): Request {
    Request(id, now, None, false, Allocated, NotStarted, [], false)
  }

  // ----- the manager as its methods see it

  class Manager {
    var nextID: nat
    var requests: seq<Request>
    var pendingReqs: map<nat, nat>
    var reader: Reader
    var arrived: nat
    var closed: multiset<nat>
    var placed: map<nat, nat>

    function View(): State
      reads this
    {
      State(nextID, requests, pendingReqs, reader, arrived, closed, placed)
    }

    constructor ()
      ensures View() == EMPTY
    {
      nextID, requests, pendingReqs := 0, [], map[];
      reader, arrived, closed, placed := Idle, 0, multiset{}, map[];
    }

    /** The head of `SendRequest`: draw an id and make the request. */
    method Allocate(now: int) returns (k: nat)
      modifies this`nextID, this`requests
      ensures View() == Step(old(View()), Event.Allocate(now)) && k == old(|requests|)
      ensures |requests| == k + 1 && requests[..k] == old(requests)
      ensures requests[k].id == (old(nextID) + 1) % ID_SPACE == nextID && requests[k].createdAt == now
      ensures requests[k].channel == None && !requests[k].contextDone
    {
      nextID := (nextID + 1) % ID_SPACE;
      k := |requests|;
      requests := requests + [FreshRequest(nextID, now)];
    }

    /** The locked insertion in `SendRequest`. */
    method Register(k: nat)
      requires k < |requests| && requests[k].sender == Allocated
      modifies this`requests, this`pendingReqs
      ensures View() == Step(old(View()), Event.Register(k))
      ensures pendingReqs == old(pendingReqs)[old(requests)[k].id := k]
    {
      requests := requests[k := requests[k].(sender := Registered)];
      pendingReqs := pendingReqs[requests[k].id := k];
    }

    method CancelRequest(id: nat)
      requires InTable(View())
      modifies this`requests, this`pendingReqs
      ensures View() == Withdraw(old(View()), id)
      ensures pendingReqs == old(pendingReqs) - {id}
      ensures id in old(pendingReqs) ==> requests[old(pendingReqs)[id]].contextDone
      ensures forall k :: 0 <= k < old(|requests|) && (id in old(pendingReqs) ==> k != old(pendingReqs)[id]) ==>
                k < |requests| && requests[k] == old(requests)[k]
    {
      if id in pendingReqs {
        var k := pendingReqs[id];
        requests := requests[k := Cancelled(requests[k])];
        pendingReqs := pendingReqs - {id};
      }
    }

    /** The tail of `SendRequest`, once the message was written or could not be. */
    method FinishSend(k: nat, written: bool)
      requires Filed(View()) && k < |requests| && requests[k].sender == Registered
      modifies this`requests, this`pendingReqs
      ensures View() == Step(old(View()), if written then Event.SendOk(k) else Event.SendFail(k))
    {
      if written {
        requests := requests[k := requests[k].(sender := Returned, watcher := Waiting)];
      } else {
        requests := requests[k := requests[k].(sender := Failed)];
        CancelRequest(requests[k].id);
      }
    }

    /** `cleanupRequest`, once the context is done. */
    method CleanupRequest(k: nat)
      requires Filed(View()) && k < |requests| && requests[k].watcher == Waiting && requests[k].contextDone
      modifies this`requests, this`pendingReqs
      ensures View() == Step(old(View()), Event.Wake(k))
    {
      requests := requests[k := requests[k].(watcher := Finished)];
      CancelRequest(requests[k].id);
    }

    /** `handleResponse` and `routeLegacyResponse` up to the send: find the request or close the message. */
    method Route()
      requires Filed(View()) && reader.Routing?
      modifies this`reader, this`closed
      ensures exists oldest :: Enabled(old(View()), Lookup(oldest)) && View() == Step(old(View()), Lookup(oldest))
      ensures var message := old(reader).message;
              match message.id
              case Some(id) =>
                if id in pendingReqs then reader == Chosen(message, pendingReqs[id]) && closed == old(closed)
                else reader == Idle && closed == old(closed) + multiset{message.serial}
              case None =>
                if pendingReqs != map[] then
                  && reader.Chosen? && reader.message == message && reader.request in pendingReqs.Values && closed == old(closed)
                  && forall id :: id in pendingReqs ==> requests[reader.request].createdAt <= requests[pendingReqs[id]].createdAt
                else reader == Idle && closed == old(closed) + multiset{message.serial}
    {
      var message := reader.message;
      var target: Option<nat> := None;
      ghost var oldest := 0;
      if message.id.Some? {
        if message.id.value in pendingReqs {
          target := Some(pendingReqs[message.id.value]);
        }
      } else {
        target := OldestPending();
        oldest := if target.Some? then target.value else 0;
      }
      assert Enabled(View(), Lookup(oldest));
      if target.Some? {
        reader := Chosen(message, target.value);
      } else {
        closed := closed + multiset{message.serial};
        reader := Idle;
      }
      assert View() == Step(old(View()), Lookup(oldest));
    }

    /** The select in `handleResponse` when the channel takes the message. */
    method Deliver()
      requires Enabled(View(), Event.Deliver)
      modifies this`requests, this`reader, this`placed
      ensures View() == Step(old(View()), Event.Deliver)
      ensures requests == old(requests)[old(reader).request := requests[old(reader).request]]
      ensures requests[old(reader).request].channel == Some(old(reader).message) && reader == Served(old(reader).request)
    {
      var message, k := reader.message, reader.request;
      requests := requests[k := requests[k].(channel := Some(message), delivered := requests[k].delivered + [message])];
      placed := placed[message.serial := k];
      reader := Served(k);
    }

    /** The select in `handleResponse` when the context is done. */
    method Discard()
      requires Enabled(View(), Event.Discard)
      modifies this`reader, this`closed
      ensures View() == Step(old(View()), Event.Discard)
      ensures reader == Idle && closed == old(closed) + multiset{old(reader).message.serial}
    {
      closed := closed + multiset{reader.message.serial};
      reader := Idle;
    }

    method Forget()
      requires Enabled(View(), Event.Forget)
      modifies this`reader, this`pendingReqs
      ensures View() == Step(old(View()), Event.Forget)
      ensures reader == Idle && pendingReqs == old(pendingReqs) - {old(requests)[old(reader).request].id}
    {
      DeleteRequest(requests[reader.request].id);
      reader := Idle;
    }

    method DeleteRequest(id: nat)
      modifies this`pendingReqs
      ensures View() == old(View()).(pending := Without(old(pendingReqs), id))
    {
      pendingReqs := pendingReqs - {id};
    }

    /** `Close`: every pending request is cancelled, in whatever order the map yields them. */
    method Close()
      requires Filed(View())
      modifies this`requests, this`pendingReqs
      ensures View() == CloseAll(old(View()))
      ensures pendingReqs == map[]
      ensures forall id :: id in old(pendingReqs) ==> requests[old(pendingReqs)[id]].contextDone
    {
      var todo := pendingReqs.Keys;
      while todo != {}
        invariant todo <= pendingReqs.Keys
        invariant pendingReqs == old(pendingReqs) && |requests| == old(|requests|)
        invariant forall k :: 0 <= k < |requests| ==>
                    requests[k] == (if IsPending(old(View()), k) && old(requests)[k].id !in todo
                                    then Cancelled(old(requests)[k]) else old(requests)[k])
        decreases todo
      {
        var id :| id in todo;
        var k := pendingReqs[id];
        requests := requests[k := Cancelled(requests[k])];
        todo := todo - {id};
      }
      pendingReqs := map[];
    }

    /** The snapshot in `routeLegacyResponse`: the request created first, any of those on a tie. */
    method OldestPending() returns (oldest: Option<nat>)
      requires Filed(View())
      ensures oldest == None <==> pendingReqs == map[]
      ensures oldest.Some? ==> Oldest(View(), oldest.value)
    {
      oldest := None;
      var todo := pendingReqs.Keys;
      while todo != {}
        invariant todo <= pendingReqs.Keys
        invariant oldest == None <==> todo == pendingReqs.Keys
        invariant oldest.Some? ==> oldest.value < |requests| && IsPending(View(), oldest.value)
        invariant oldest.Some? ==> forall id :: id in pendingReqs && id !in todo ==>
                    requests[oldest.value].createdAt <= requests[pendingReqs[id]].createdAt
        decreases todo
      {
        var id :| id in todo;
        var k := pendingReqs[id];
        if oldest == None || requests[k].createdAt < requests[oldest.value].createdAt {
          oldest := Some(k);
        }
        todo := todo - {id};
      }
    }
  }

  // ----- interleavings

  datatype Event =
    | Allocate(now: int)
    | Register(k: nat)
    | SendOk(k: nat)          // the write succeeded; the watcher goroutine is started
    | SendFail(k: nat)        // the write failed; cancelRequest runs
    | ContextDone(k: nat)     // deadline, or the caller cancels
    | Wake(k: nat)            // cleanupRequest after its context is done
    | Receive(id: Option<nat>)
    | Lookup(oldest: nat)     // `oldest` is what a legacy message would be routed to
    | Deliver
    | Discard
    | Forget                  // deleteRequest after a delivery
    | Take(k: nat)            // the caller reads its channel
    | CloseManager

  function SetRequest(s: State, k: nat, r: Request): State
    requires k < |s.requests|
  {
    s.(requests := s.requests[k := r])
  }

  /** The router gives up the message. */
  function Drop(s: State, m: Message): State {
    s.(reader := Idle, closed := s.closed + multiset{m.serial})
  }

  predicate Enabled(s: State, e: Event) {
    match e
    case Allocate(_) => true
    case Register(k) => k < |s.requests| && s.requests[k].sender == Allocated
    case SendOk(k) => k < |s.requests| && s.requests[k].sender == Registered
    case SendFail(k) => k < |s.requests| && s.requests[k].sender == Registered && InTable(s)
    case ContextDone(k) => k < |s.requests|
    case Wake(k) => k < |s.requests| && s.requests[k].watcher == Waiting && s.requests[k].contextDone && InTable(s)
    case Receive(_) => s.reader.Idle?
    case Lookup(oldest) =>
      && s.reader.Routing?
      && InTable(s)
      && (s.reader.message.id == None && s.pending != map[] ==> Oldest(s, oldest))
    case Deliver => s.reader.Chosen? && s.reader.request < |s.requests| && s.requests[s.reader.request].channel == None
    case Discard => s.reader.Chosen? && s.reader.request < |s.requests| && s.requests[s.reader.request].contextDone
    case Forget => s.reader.Served? && s.reader.request < |s.requests|
    case Take(k) => k < |s.requests| && s.requests[k].channel.Some?
    case CloseManager => InTable(s)
  }

  /** One step. An event that is not enabled leaves the state unchanged. */
  function Step(s: State, e: Event): State {
    if !Enabled(s, e) then s
    else
      match e
      case Allocate(now) =>
        var id := (s.nextID + 1) % ID_SPACE;
        s.(nextID := id, requests := s.requests + [FreshRequest(id, now)])
      case Register(k) =>
        SetRequest(s, k, s.requests[k].(sender := Registered)).(pending := s.pending[s.requests[k].id := k])
      case SendOk(k) => SetRequest(s, k, s.requests[k].(sender := Returned, watcher := Waiting))
      case SendFail(k) =>
        Withdraw(SetRequest(s, k, s.requests[k].(sender := Failed)), s.requests[k].id)
      case ContextDone(k) => SetRequest(s, k, s.requests[k].(contextDone := true))
      case Wake(k) =>
        Withdraw(SetRequest(s, k, s.requests[k].(watcher := Finished)), s.requests[k].id)
      case Receive(id) => s.(reader := Routing(Message(s.arrived, id)), arrived := s.arrived + 1)
      case Lookup(oldest) =>
        var m := s.reader.message;
        if m.id.Some? then
          if m.id.value in s.pending then s.(reader := Chosen(m, s.pending[m.id.value])) else Drop(s, m)
        else
          if s.pending != map[] then s.(reader := Chosen(m, oldest)) else Drop(s, m)
      case Deliver =>
        var m, k := s.reader.message, s.reader.request;
        SetRequest(s, k, s.requests[k].(channel := Some(m), delivered := s.requests[k].delivered + [m]))
          .(reader := Served(k), placed := s.placed[m.serial := k])
      case Discard => Drop(s, s.reader.message)
      case Forget => s.(reader := Idle, pending := Without(s.pending, s.requests[s.reader.request].id))
      case Take(k) => SetRequest(s, k, s.requests[k].(channel := None))
      case CloseManager => CloseAll(s)
  }

  function Run(s: State, es: seq<Event>): State
    decreases |es|
  {
    if es == [] then s else Run(Step(s, es[0]), es[1..])
  }

  // ----- what every interleaving keeps

  /** Message `serial` has arrived and is still with the read loop. */
  predicate InHand(s: State, serial: nat) {
    (s.reader.Routing? || s.reader.Chosen?) && s.reader.message.serial == serial
  }

  /** Message `m` was put into the channel of request `k`. */
  predicate PlacedWith(s: State, serial: nat, k: nat) {
    k < |s.requests| && |s.requests[k].delivered| == 1 && s.requests[k].delivered[0].serial == serial
  }

  /** What holds of each request: ids follow the counter; it is served once at most, with a message
      addressed to it, and leaves the map before the next message is routed; while it is in the
      map its sender or its watcher has still to clean up, and the manager has not cancelled it. */
  ghost predicate RequestOk(s: State, k: nat)
    requires k < |s.requests|
  {
    var r := s.requests[k];
    && r.id == (k + 1) % ID_SPACE
    && |r.delivered| <= 1
    && (r.channel.Some? ==> r.delivered == [r.channel.value])
    && (r.delivered != [] ==>
          && (r.delivered[0].id.Some? ==> r.delivered[0].id.value == r.id)
          && r.delivered[0].serial in s.placed && s.placed[r.delivered[0].serial] == k
          && (s.reader == Served(k) || !IsPending(s, k)))
    && (r.sender == Allocated ==> r.delivered == [] && !IsPending(s, k) && !r.managerCancelled)
    && (r.sender == Returned <==> r.watcher != NotStarted)
    && (r.watcher == Finished || r.sender == Failed ==> !IsPending(s, k))
    && (r.managerCancelled ==> r.contextDone && !IsPending(s, k))
  }

  ghost predicate ReaderOk(s: State) {
    && (s.reader.Routing? || s.reader.Chosen? ==>
          s.reader.message.serial < s.arrived)
    && (s.reader.Chosen? || s.reader.Served? ==>
          s.reader.request < |s.requests| && s.requests[s.reader.request].sender != Allocated)
    && (s.reader.Chosen? ==>
          && s.requests[s.reader.request].delivered == []
          && (s.reader.message.id.Some? ==> s.reader.message.id.value == s.requests[s.reader.request].id))
  }

  /** Message `n` is in exactly one place: in hand, closed (once), or with one request. */
  ghost predicate MessageOk(s: State, n: nat) {
    && (n < s.arrived <==> InHand(s, n) || n in s.closed || n in s.placed)
    && s.closed[n] <= 1
    && !(InHand(s, n) && n in s.closed)
    && !(InHand(s, n) && n in s.placed)
    && !(n in s.closed && n in s.placed)
    && (n in s.placed ==> PlacedWith(s, n, s.placed[n]))
  }

  ghost predicate Inv(s: State) {
    && Filed(s)
    && s.nextID == |s.requests| % ID_SPACE
    && ReaderOk(s)
    && (forall k :: 0 <= k < |s.requests| ==> RequestOk(s, k))
    && (forall n: nat :: MessageOk(s, n))
  }

  lemma StepKeepsCounter(s: State, e: Event)
    requires Inv(s)
    ensures Step(s, e).nextID == |Step(s, e).requests| % ID_SPACE
  {
  }

  lemma StepKeepsIds(s: State, e: Event, k: nat)
    requires Inv(s) && k < |Step(s, e).requests|
    ensures Step(s, e).requests[k].id == (k + 1) % ID_SPACE
  {
    if k < |s.requests| {
      assert RequestOk(s, k);
    }
  }

  lemma StepKeepsFiled(s: State, e: Event)
    requires Inv(s)
    ensures Filed(Step(s, e))
  {
    var t := Step(s, e);
    forall id | id in t.pending
      ensures t.pending[id] < |t.requests| && t.requests[t.pending[id]].id == id
    {
      if id in s.pending && t.pending[id] == s.pending[id] {
        assert t.requests[s.pending[id]].id == s.requests[s.pending[id]].id;
      }
    }
  }

  lemma StepKeepsReader(s: State, e: Event)
    requires Inv(s)
    ensures ReaderOk(Step(s, e))
  {
    if s.reader.Chosen? || s.reader.Served? {
      assert RequestOk(s, s.reader.request);
    }
    if e.Lookup? && Enabled(s, e) && s.pending != map[] {
      var m := s.reader.message;
      if m.id == None {
        assert RequestOk(s, e.oldest);
      } else if m.id.value in s.pending {
        assert RequestOk(s, s.pending[m.id.value]);
      }
    }
  }

  lemma RemovalKeepsRequest(s: State, e: Event, k: nat)
    requires Inv(s) && k < |Step(s, e).requests| && (e.SendFail? || e.Wake? || e.Forget? || e.CloseManager?)
    ensures RequestOk(Step(s, e), k)
  {
    StepKeepsIds(s, e, k);
    assert RequestOk(s, k);
  }

  lemma SenderKeepsRequest(s: State, e: Event, k: nat)
    requires Inv(s) && k < |Step(s, e).requests| && (e.Allocate? || e.Register? || e.SendOk? || e.ContextDone? || e.Take?)
    ensures RequestOk(Step(s, e), k)
  {
    StepKeepsIds(s, e, k);
    if k < |s.requests| {
      assert RequestOk(s, k);
    }
  }

  lemma StepKeepsRequest(s: State, e: Event, k: nat)
    requires Inv(s) && k < |Step(s, e).requests|
    ensures RequestOk(Step(s, e), k)
  {
    if e.SendFail? || e.Wake? || e.Forget? || e.CloseManager? {
      RemovalKeepsRequest(s, e, k);
    } else if e.Receive? || e.Lookup? || e.Deliver? || e.Discard? {
      ReaderKeepsRequest(s, e, k);
    } else {
      SenderKeepsRequest(s, e, k);
    }
  }

  lemma ReaderKeepsRequest(s: State, e: Event, k: nat)
    requires Inv(s) && k < |Step(s, e).requests| && (e.Receive? || e.Lookup? || e.Deliver? || e.Discard?)
    ensures RequestOk(Step(s, e), k)
  {
    StepKeepsIds(s, e, k);
    if k < |s.requests| {
      assert RequestOk(s, k);
    }
    if s.reader.Routing? || s.reader.Chosen? {
      assert MessageOk(s, s.reader.message.serial);
    }
  }

  lemma ReaderKeepsMessage(s: State, e: Event, n: nat)
    requires Inv(s) && (e.Receive? || e.Lookup? || e.Deliver? || e.Discard?)
    ensures MessageOk(Step(s, e), n)
  {
    assert MessageOk(s, n);
    if n in s.placed {
      assert RequestOk(s, s.placed[n]);
    }
  }

  lemma StepKeepsMessage(s: State, e: Event, n: nat)
    requires Inv(s)
    ensures MessageOk(Step(s, e), n)
  {
    if e.Receive? || e.Lookup? || e.Deliver? || e.Discard? {
      ReaderKeepsMessage(s, e, n);
    } else {
      assert MessageOk(s, n);
      if n in s.placed {
        assert RequestOk(s, s.placed[n]);
      }
    }
  }

  lemma StepKeepsInv(s: State, e: Event)
    requires Inv(s)
    ensures Inv(Step(s, e))
  {
    StepKeepsCounter(s, e);
    StepKeepsFiled(s, e);
    StepKeepsReader(s, e);
    forall k | 0 <= k < |Step(s, e).requests| ensures RequestOk(Step(s, e), k) { StepKeepsRequest(s, e, k); }
    forall n: nat ensures MessageOk(Step(s, e), n) { StepKeepsMessage(s, e, n); }
  }

  lemma {:induction false} RunKeepsInv(s: State, es: seq<Event>)
    requires Inv(s)
    ensures Inv(Run(s, es))
    decreases |es|
  {
    if es != [] {
      StepKeepsInv(s, es[0]);
      RunKeepsInv(Step(s, es[0]), es[1..]);
    }
  }

  ghost predicate Reachable(s: State) {
    exists es :: s == Run(EMPTY, es)
  }

  lemma ReachableIsValid(s: State)
    requires Reachable(s)
    ensures Inv(s)
  {
    var es :| s == Run(EMPTY, es);
    assert Inv(EMPTY);
    RunKeepsInv(EMPTY, es);
  }

  /** Message ownership, in every interleaving: a message out of the reader's hand was either closed,
      once, or placed with one request, never both; with an id, only with the request of that id. */
  lemma MessageOwnership(s: State, n: nat)
    requires Reachable(s) && n < s.arrived && !InHand(s, n)
    ensures s.closed[n] == 1 <==> !exists k: nat :: PlacedWith(s, n, k)
    ensures s.closed[n] <= 1
    ensures forall j: nat, k: nat :: PlacedWith(s, n, j) && PlacedWith(s, n, k) ==> j == k
    ensures forall k: nat :: PlacedWith(s, n, k) && s.requests[k].delivered[0].id.Some? ==>
              s.requests[k].delivered[0].id.value == s.requests[k].id
  {
    ReachableIsValid(s);
    assert MessageOk(s, n);
    forall k: nat | PlacedWith(s, n, k)
      ensures n in s.placed && s.placed[n] == k
      ensures s.requests[k].delivered[0].id.Some? ==> s.requests[k].delivered[0].id.value == s.requests[k].id
    {
      assert RequestOk(s, k);
    }
    if n in s.placed {
      assert PlacedWith(s, n, s.placed[n]);
    }
  }

  /** The read loop never blocks on a channel: whenever it is about to send, the one slot is free.
      A request is served at most once over its whole life. */
  lemma DeliveryNeverBlocks(s: State)
    requires Reachable(s)
    ensures s.reader.Chosen? ==> Enabled(s, Deliver)
    ensures forall k :: 0 <= k < |s.requests| ==> |s.requests[k].delivered| <= 1
  {
    ReachableIsValid(s);
    if s.reader.Chosen? {
      assert RequestOk(s, s.reader.request);
    }
    forall k | 0 <= k < |s.requests| ensures |s.requests[k].delivered| <= 1 { assert RequestOk(s, k); }
  }

  /** No leak: a pending request whose context is done is still to be cleaned up by its sender or its
      watcher, and that step, whenever it comes, takes the request out. */
  lemma DoneRequestsAreCleanedUp(s: State, k: nat)
    requires Reachable(s) && k < |s.requests| && IsPending(s, k) && s.requests[k].contextDone
    ensures s.requests[k].sender == Registered || Enabled(s, Wake(k))
    ensures Enabled(s, Wake(k)) ==> !IsPending(Step(s, Wake(k)), k)
    ensures s.requests[k].sender == Registered ==> !IsPending(Step(s, SendFail(k)), k) && Enabled(Step(s, SendOk(k)), Wake(k))
  {
    ReachableIsValid(s);
    assert RequestOk(s, k);
  }

  /** A cancel the manager issues goes with a removal, and Close leaves nothing pending or uncancelled. */
  lemma CancelMeansRemoved(s: State)
    requires Reachable(s)
    ensures forall k :: 0 <= k < |s.requests| && s.requests[k].managerCancelled ==> s.requests[k].contextDone && !IsPending(s, k)
    ensures var t := Step(s, CloseManager);
            && t.pending == map[]
            && |t.requests| == |s.requests|
            && forall k :: 0 <= k < |s.requests| && IsPending(s, k) ==> t.requests[k].contextDone
  {
    ReachableIsValid(s);
    forall k | 0 <= k < |s.requests| && s.requests[k].managerCancelled
      ensures s.requests[k].contextDone && !IsPending(s, k)
    {
      assert RequestOk(s, k);
    }
  }

  // ----- answers arrive

  /** The clock readings at which a run allocates its requests, in order. */
  function Clocks(es: seq<Event>): seq<int>
    decreases |es|
  {
    if es == [] then [] else (if es[0].Allocate? then [es[0].now] else []) + Clocks(es[1..])
  }

  lemma StepKeepsClock(s: State, e: Event, k: nat)
    requires Inv(s) && k < |s.requests|
    ensures k < |Step(s, e).requests| && Step(s, e).requests[k].createdAt == s.requests[k].createdAt
    ensures s.requests[k].contextDone ==> Step(s, e).requests[k].contextDone
  {
  }

  /** A request is created when it is allocated, and that time never changes: over every run the `k`th
      request carries the clock of the `k`th allocation. */
  lemma {:induction false} CreatedWhenAllocated(s: State, es: seq<Event>, k: nat)
    requires Inv(s) && k < |s.requests| + |Clocks(es)|
    ensures |Run(s, es).requests| == |s.requests| + |Clocks(es)|
    ensures Run(s, es).requests[k].createdAt == if k < |s.requests| then s.requests[k].createdAt else Clocks(es)[k - |s.requests|]
    decreases |es|
  {
    if es != [] {
      var t := Step(s, es[0]);
      StepKeepsInv(s, es[0]);
      if k < |s.requests| { StepKeepsClock(s, es[0], k); }
      CountRequests(s, es[0]);
      CreatedWhenAllocated(t, es[1..], k);
    }
  }

  lemma CountRequests(s: State, e: Event)
    requires Inv(s)
    ensures |Step(s, e).requests| == |s.requests| + if e.Allocate? then 1 else 0
    ensures e.Allocate? ==> Step(s, e).requests[|s.requests|].createdAt == e.now
  {
  }

  /** Request `k` is the one that the message being routed is for: it carries the request's id, or no id while
      no pending request is older. */
  predicate IsFor(s: State, m: Message, k: nat)
    requires InTable(s) && k < |s.requests|
  {
    match m.id
    case Some(id) => id in s.pending && s.pending[id] == k
    case None =>
      && k in s.pending.Values
      && forall id :: id in s.pending ==> s.requests[k].createdAt <= s.requests[s.pending[id]].createdAt
  }

  /** A message for a pending request is not closed at its lookup, but on its way to such a request; to the very
      one if it carries an id. */
  lemma LookupFindsRequest(s: State, oldest: nat, k: nat)
    requires Reachable(s) && Enabled(s, Lookup(oldest)) && k < |s.requests| && Filed(s) && IsFor(s, s.reader.message, k)
    ensures var t := Step(s, Lookup(oldest));
            && t.reader.Chosen? && t.reader.message == s.reader.message && t.closed == s.closed
            && t.reader.request < |t.requests| && IsFor(s, s.reader.message, t.reader.request)
            && (s.reader.message.id.Some? ==> t.reader.request == k)
  {
    assert s.pending != map[];
  }

  /** Where a message on its way to request `k` ends up: it is still on its way, or in the request's channel until
      it is taken, or the request's context was done. */
  ghost predicate Arriving(s: State, m: Message, k: nat, taken: bool) {
    k < |s.requests|
    && (s.reader == Chosen(m, k)
        || (s.requests[k].delivered == [m] && (s.requests[k].channel == Some(m) || taken))
        || (m.serial in s.closed && s.requests[k].contextDone))
  }

  lemma StepKeepsArriving(s: State, e: Event, m: Message, k: nat, taken: bool)
    requires Inv(s) && Arriving(s, m, k, taken)
    ensures Arriving(Step(s, e), m, k, taken || e == Take(k))
  {
    assert RequestOk(s, k);
    StepKeepsClock(s, e, k);
    if s.reader.Chosen? && e.Deliver? {
      assert RequestOk(s, s.reader.request);
    }
  }

  /** Over every run, a message on its way to a request is put into its channel, once, and stays there until it is
      taken, unless the request's context is done first. */
  lemma {:induction false} MessageArrives(s: State, es: seq<Event>, m: Message, k: nat, taken: bool)
    requires Inv(s) && Arriving(s, m, k, taken)
    ensures Arriving(Run(s, es), m, k, taken || Take(k) in es)
    decreases |es|
  {
    if es != [] {
      StepKeepsInv(s, es[0]);
      StepKeepsArriving(s, es[0], m, k, taken);
      MessageArrives(Step(s, es[0]), es[1..], m, k, taken || es[0] == Take(k));
    }
  }

  /** In every interleaving, a response looked up while the request of its id is pending arrives at that request,
      unless the request's context is done first. */
  lemma AnswerArrives(s: State, oldest: nat, k: nat, es: seq<Event>)
    requires Reachable(s) && Enabled(s, Lookup(oldest)) && k < |s.requests| && IsPending(s, k)
    requires s.reader.message.id == Some(s.requests[k].id)
    ensures Arriving(Run(Step(s, Lookup(oldest)), es), s.reader.message, k, Take(k) in es)
  {
    ReachableIsValid(s);
    LookupFindsRequest(s, oldest, k);
    StepKeepsInv(s, Lookup(oldest));
    MessageArrives(Step(s, Lookup(oldest)), es, s.reader.message, k, false);
  }

  /** What may close message `n` in this state: it is looked up with nothing pending for it, or the request it
      is on its way to is done. */
  predicate MayClose(s: State, n: nat) {
    match s.reader
    case Routing(m) => m.serial == n && (m.id.Some? ==> m.id.value !in s.pending) && (m.id == None ==> s.pending == map[])
    case Chosen(m, k) => m.serial == n && k < |s.requests| && s.requests[k].contextDone
    case _ => false
  }

  lemma StepClosesOnly(s: State, e: Event, n: nat)
    requires Inv(s)
    ensures Step(s, e).closed[n] > s.closed[n] ==> MayClose(s, n)
    ensures Step(s, e).closed[n] >= s.closed[n]
  {
  }

  /** In every interleaving a message is closed only where nothing was pending for it at its lookup, or where the
      request it was on its way to was done. */
  lemma {:induction false} ClosedOnlyUnanswerable(s: State, es: seq<Event>, n: nat) returns (i: nat)
    requires Inv(s) && Run(s, es).closed[n] > s.closed[n]
    ensures i < |es| && MayClose(Run(s, es[..i]), n)
    decreases |es|
  {
    StepKeepsInv(s, es[0]);
    StepClosesOnly(s, es[0], n);
    if Step(s, es[0]).closed[n] > s.closed[n] {
      i := 0;
    } else {
      i := ClosedOnlyUnanswerable(Step(s, es[0]), es[1..], n);
      i := i + 1;
      assert es[..i][0] == es[0] && es[..i][1..] == es[1..][..i - 1];
    }
  }

  // ----- ids come round again after 2^32 requests

  lemma SameIdExactlyWhen(s: State, j: nat, k: nat)
    requires Reachable(s) && j < |s.requests| && k < |s.requests|
    ensures s.requests[j].id == s.requests[k].id <==> (k - j) % ID_SPACE == 0
  {
    ReachableIsValid(s);
    assert RequestOk(s, j) && RequestOk(s, k);
  }

  /** Some goroutine may still use the id of request `k`: its sender, its watcher, or the reader. */
  predicate Live(s: State, k: nat)
    requires k < |s.requests|
  {
    || !(s.requests[k].sender == Failed || s.requests[k].watcher == Finished)
    || (s.reader.Chosen? && s.reader.request == k)
    || s.reader == Served(k)
  }

  /** Fewer than 2^32 requests were sent since any live request was. */
  ghost predicate Window(s: State) {
    forall k :: 0 <= k < |s.requests| && Live(s, k) ==> |s.requests| - k <= ID_SPACE
  }

  lemma LiveIdsAreDistinct(s: State, j: nat, k: nat)
    requires Inv(s) && Window(s) && j < |s.requests| && k < |s.requests| && j != k && Live(s, j) && Live(s, k)
    ensures s.requests[j].id != s.requests[k].id
  {
    assert RequestOk(s, j) && RequestOk(s, k);
    assert -ID_SPACE < k - j < ID_SPACE;
  }

  lemma PendingIsLive(s: State, k: nat)
    requires Inv(s) && k < |s.requests| && IsPending(s, k)
    ensures Live(s, k)
  {
    assert RequestOk(s, k);
  }

  /** The step of a goroutine serving request `j`. */
  predicate ActsFor(s: State, e: Event, j: nat) {
    || (e.Register? && e.k == j) || (e.SendFail? && e.k == j) || (e.Wake? && e.k == j)
    || (e.Forget? && s.reader == Served(j))
  }

  /** Within the window, the entry under the id of a live request is that request's own, if any. */
  lemma EntryIsOwn(s: State, j: nat)
    requires Inv(s) && Window(s) && j < |s.requests| && Live(s, j) && s.requests[j].id in s.pending
    ensures s.pending[s.requests[j].id] == j
  {
    var i := s.pending[s.requests[j].id];
    if i != j {
      PendingIsLive(s, i);
      LiveIdsAreDistinct(s, i, j);
    }
  }

  /** Request `k` is as pending, and as cancelled, in `t` as in `s`. */
  predicate Undisturbed(s: State, t: State, k: nat)
    requires k < |s.requests|
  {
    && k < |t.requests|
    && (IsPending(t, k) <==> IsPending(s, k))
    && t.requests[k].managerCancelled == s.requests[k].managerCancelled
    && t.requests[k].contextDone == s.requests[k].contextDone
  }

  /** Within the window no goroutine disturbs another's request: pending requests stay pending, and
      no context is cancelled, except by the request's own sender, watcher or delivery, by its own
      deadline, or by Close. */
  lemma OwnRequestOnly(s: State, e: Event, k: nat)
    requires Reachable(s) && Window(s) && k < |s.requests|
    requires !ActsFor(s, e, k) && !e.CloseManager? && e != ContextDone(k)
    ensures Undisturbed(s, Step(s, e), k)
  {
    ReachableIsValid(s);
    if Enabled(s, e) && (e.Register? || e.SendFail? || e.Wake? || (e.Forget? && s.reader.Served?)) {
      var j := if e.Forget? then s.reader.request else e.k;
      RemovalIsOwn(s, e, j, k);
    }
  }

  lemma RemovalIsOwn(s: State, e: Event, j: nat, k: nat)
    requires Inv(s) && Window(s) && j < |s.requests| && k < |s.requests| && j != k && Enabled(s, e)
    requires ((e.Register? || e.SendFail? || e.Wake?) && e.k == j) || (e.Forget? && s.reader == Served(j))
    ensures Undisturbed(s, Step(s, e), k)
  {
    assert RequestOk(s, j);
    if s.requests[j].id in s.pending {
      EntryIsOwn(s, j);
    }
  }

  /** The window is what it takes. A watcher that wakes up late cancels exactly the request filed
      under its id; when that is another one, a positive multiple of 2^32 sends lies between. */
  lemma LateWatcherHitsExactly(s: State, j: nat, k: nat)
    requires Reachable(s) && j < |s.requests| && k < |s.requests| && j != k && Enabled(s, Wake(j))
    ensures IsPending(s, k) && !IsPending(Step(s, Wake(j)), k) <==> IsPending(s, k) && s.requests[j].id == s.requests[k].id
    ensures IsPending(s, k) && !IsPending(Step(s, Wake(j)), k) ==>
              (k - j) % ID_SPACE == 0 && (k - j >= ID_SPACE || j - k >= ID_SPACE)
              && Step(s, Wake(j)).requests[k].managerCancelled
  {
    ReachableIsValid(s);
    SameIdExactlyWhen(s, j, k);
  }
}
