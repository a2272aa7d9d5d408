/** Differences of counters between intervals (agent/deltatracker/deltatracker.go), one tracker for each
    polling interval as its users keep them (agent/network.go, agent/docker.go). */
module DeltaTracking {
  import opened Options

  const U64: int := 0x1_0000_0000_0000_0000

  type Uint64 = x: int | 0 <= x < U64

  function Sub64(a: int, b: int): Uint64 {
    (a - b) % U64
  }

  datatype Tracker = Tracker(current: map<string, Uint64>, previous: map<string, Uint64>)

  const EMPTY: Tracker := Tracker(map[], map[])

  function Lookup(m: map<string, Uint64>, id: string): Option<Uint64> {
    if id in m then Some(m[id]) else None
  }

  /** 0 unless the value is known in both intervals. */
  function Difference(current: Option<Uint64>, previous: Option<Uint64>): Uint64 {
    if current.Some? && previous.Some? then Sub64(current.value, previous.value) else 0
  }

  class DeltaTracker {
    var current: map<string, Uint64>
    var previous: map<string, Uint64>

    function Value(): Tracker
      reads this
    {
      Tracker(current, previous)
    }

    constructor ()
      ensures Value() == EMPTY
    {
      current, previous := map[], map[];
    }

    method Set(id: string, value: Uint64)
      modifies this
      ensures Value() == old(Value()).(current := old(current)[id := value])
    {
      current := current[id := value];
    }

    method Previous(id: string) returns (value: Option<Uint64>)
      ensures value == Lookup(previous, id)
    {
      value := if id in previous then Some(previous[id]) else None;
    }

    method Delta(id: string) returns (delta: Uint64)
      ensures delta == Difference(Lookup(current, id), Lookup(previous, id))
    {
      if id !in current {
        return 0;
      }
      if id !in previous {
        return 0;
      }
      return Sub64(current[id], previous[id]);
    }

    method Deltas() returns (deltas: map<string, Uint64>)
      ensures deltas.Keys == current.Keys
      ensures forall id :: id in deltas ==> deltas[id] == Difference(Lookup(current, id), Lookup(previous, id))
    {
      deltas := map[];
      var ids := current.Keys;
      while ids != {}
        invariant ids <= current.Keys && deltas.Keys == current.Keys - ids
        invariant forall id :: id in deltas ==> deltas[id] == Difference(Lookup(current, id), Lookup(previous, id))
        decreases ids
      {
        var id :| id in ids;
        deltas := deltas[id := if id in previous then Sub64(current[id], previous[id]) else 0];
        ids := ids - {id};
      }
    }

    method Cycle()
      modifies this
      ensures Value() == Tracker(map[], old(current))
    {
      previous := current;
      current := map[];
    }
  }

  // ----- runs over one tracker for each polling interval

  /** `key` is the polling interval. */
  datatype Event = Set(key: nat, id: string, value: Uint64) | Cycle(key: nat)

  function TrackerAt(trackers: map<nat, Tracker>, key: nat): Tracker {
    if key in trackers then trackers[key] else EMPTY
  }

  function Apply(trackers: map<nat, Tracker>, e: Event): map<nat, Tracker> {
    var t := TrackerAt(trackers, e.key);
    trackers[e.key := match e
                      case Set(_, id, value) => t.(current := t.current[id := value])
                      case Cycle(_) => Tracker(map[], t.current)]
  }

  function After(es: seq<Event>): map<nat, Tracker> {
    var n := |es| - 1;
    if es == [] then map[] else Apply(After(es[..n]), es[n])
  }

  function DeltaAt(t: Tracker, id: string): Uint64 {
    Difference(Lookup(t.current, id), Lookup(t.previous, id))
  }

  /** The sum of the differences read under `key` for `id`, each right after it is set. */
  function Total(es: seq<Event>, key: nat, id: string): nat {
    var n := |es| - 1;
    if es == [] then 0
    else
      Total(es[..n], key, id) +
      if es[n].Set? && es[n].key == key && es[n].id == id then DeltaAt(TrackerAt(After(es), key), id) else 0
  }

  // ----- one counter under one interval

  datatype Mark = Seen(value: Uint64) | Ticked

  /** What concerns the counter `id` under `key`. */
  function Project(es: seq<Event>, key: nat, id: string): seq<Mark> {
    var n := |es| - 1;
    if es == [] then []
    else
      Project(es[..n], key, id) +
      match es[n]
      case Set(k, i, value) => if k == key && i == id then [Seen(value)] else []
      case Cycle(k) => if k == key then [Ticked] else []
  }

  /** The last value seen since the last tick. */
  function Current(marks: seq<Mark>): Option<Uint64> {
    var n := |marks| - 1;
    if marks == [] then None
    else match marks[n] case Seen(value) => Some(value) case Ticked => None
  }

  /** The last value seen in the interval before. */
  function Previous(marks: seq<Mark>): Option<Uint64> {
    var n := |marks| - 1;
    if marks == [] then None
    else match marks[n] case Seen(_) => Previous(marks[..n]) case Ticked => Current(marks[..n])
  }

  function LocalTotal(marks: seq<Mark>): nat {
    var n := |marks| - 1;
    if marks == [] then 0
    else LocalTotal(marks[..n]) + if marks[n].Seen? then Difference(Current(marks), Previous(marks)) else 0
  }

  /** The tracker of an interval holds for a counter what that counter's own events under that interval
      left there: other counters and other intervals do not interfere. */
  lemma {:induction false} ReadingsAreLocal(es: seq<Event>, key: nat, id: string)
    ensures Lookup(TrackerAt(After(es), key).current, id) == Current(Project(es, key, id))
    ensures Lookup(TrackerAt(After(es), key).previous, id) == Previous(Project(es, key, id))
    ensures Total(es, key, id) == LocalTotal(Project(es, key, id))
  {
    if es != [] {
      hide Difference, Apply, Current, Previous, LocalTotal;
      var n := |es| - 1;
      ReadingsAreLocal(es[..n], key, id);
      ApplyAt(After(es[..n]), es[n], key);
      var before := Project(es[..n], key, id);
      assert before + [] == before;
      match es[n]
      case Set(_, _, value) => MarksNext(before, Seen(value));
      case Cycle(_) => MarksNext(before, Ticked);
    }
  }

  lemma ApplyAt(trackers: map<nat, Tracker>, e: Event, key: nat)
    ensures var t := TrackerAt(trackers, key);
            TrackerAt(Apply(trackers, e), key)
            == match e
               case Set(k, id, value) => if k == key then t.(current := t.current[id := value]) else t
               case Cycle(k) => if k == key then Tracker(map[], t.current) else t
  {
  }

  lemma MarksNext(marks: seq<Mark>, m: Mark)
    ensures Current(marks + [m]) == match m case Seen(value) => Some(value) case Ticked => None
    ensures Previous(marks + [m]) == match m case Seen(_) => Previous(marks) case Ticked => Current(marks)
    ensures LocalTotal(marks + [m]) == LocalTotal(marks) + if m.Seen? then Difference(Current(marks + [m]), Previous(marks + [m])) else 0
  {
    assert (marks + [m])[..|marks|] == marks;
  }

  /** Every interval sees the counter once: both orders of use, Cycle-Set-Previous and Set-Delta-Cycle. */
  predicate Alternates(marks: seq<Mark>) {
    forall i :: 0 <= i < |marks| - 1 ==> marks[i].Seen? != marks[i + 1].Seen?
  }

  function Values(marks: seq<Mark>): seq<Uint64> {
    var n := |marks| - 1;
    if marks == [] then [] else Values(marks[..n]) + if marks[n].Seen? then [marks[n].value] else []
  }

  predicate NonDecreasing(values: seq<Uint64>) {
    forall i, j :: 0 <= i < j < |values| ==> values[i] <= values[j]
  }

  /** At an alternating read, the previous interval's value is the one read before. */
  lemma {:induction false} PreviousIsLastRead(marks: seq<Mark>)
    requires Alternates(marks) && marks != []
    ensures var vs := Values(marks);
            if marks[|marks| - 1].Seen?
            then vs != [] && Current(marks) == Some(vs[|vs| - 1])
                 && Previous(marks) == (if |vs| > 1 then Some(vs[|vs| - 2]) else None)
            else Previous(marks) == if |vs| > 0 then Some(vs[|vs| - 1]) else None
  {
    var n := |marks| - 1;
    if n > 0 {
      PreviousIsLastRead(marks[..n]);
      assert marks[n - 1].Seen? != marks[n].Seen?;
    }
  }

  lemma SubMod(a: int, b: int, c: int)
    ensures (Sub64(a, b) + Sub64(b, c)) % U64 == Sub64(a, c)
  {
    var x, y := (a - b) / U64, (b - c) / U64;
    assert a - c == (Sub64(a, b) + Sub64(b, c)) + (x + y) * U64;
    ModShift(Sub64(a, b) + Sub64(b, c), x + y);
  }

  lemma ModShift(v: int, k: int)
    ensures (v + k * U64) % U64 == v % U64
  {
    var q := (v + k * U64) / U64;
    assert v + k * U64 == q * U64 + (v + k * U64) % U64;
    assert v == (q - k) * U64 + (v + k * U64) % U64;
  }

  /** What the last mark adds to the total. */
  lemma TotalNext(marks: seq<Mark>)
    requires Alternates(marks) && marks != []
    ensures var n := |marks| - 1;
            var olds := Values(marks[..n]);
            if marks[n].Seen?
            then Values(marks) == olds + [marks[n].value]
                 && LocalTotal(marks) == LocalTotal(marks[..n])
                                         + if olds == [] then 0 else Sub64(marks[n].value, olds[|olds| - 1])
            else Values(marks) == olds && LocalTotal(marks) == LocalTotal(marks[..n])
  {
    PreviousIsLastRead(marks);
  }

  /** The total telescopes over `vs`. */
  predicate Telescopes(total: nat, vs: seq<Uint64>) {
    && (vs == [] ==> total == 0)
    && (vs != [] ==> total % U64 == Sub64(vs[|vs| - 1], vs[0]))
    && (vs != [] && NonDecreasing(vs) ==> total == vs[|vs| - 1] - vs[0])
  }

  lemma TelescopesNext(total: nat, olds: seq<Uint64>, value: Uint64)
    requires Telescopes(total, olds)
    ensures Telescopes(total + if olds == [] then 0 else Sub64(value, olds[|olds| - 1]), olds + [value])
  {
    if olds != [] {
      var b := olds[|olds| - 1];
      SubMod(value, b, olds[0]);
      SumMod(total, Sub64(value, b));
      var vs := olds + [value];
      if NonDecreasing(vs) {
        assert forall i, j :: 0 <= i < j < |olds| ==> olds[i] == vs[i] && olds[j] == vs[j];
        assert NonDecreasing(olds);
        assert vs[|olds| - 1] <= vs[|olds|];
      }
    }
  }

  lemma {:induction false} LocalTelescopes(marks: seq<Mark>)
    requires Alternates(marks)
    ensures Telescopes(LocalTotal(marks), Values(marks))
  {
    if marks != [] {
      var n := |marks| - 1;
      LocalTelescopes(marks[..n]);
      TotalNext(marks);
      if marks[n].Seen? {
        TelescopesNext(LocalTotal(marks[..n]), Values(marks[..n]), marks[n].value);
      }
    }
  }

  lemma SumMod(x: int, y: int)
    ensures (x + y) % U64 == (x % U64 + y) % U64
  {
    ModShift(x % U64 + y, x / U64);
    assert x == x % U64 + x / U64 * U64;
  }

  /** Exactly once: if every interval of `key` sees the counter once, the differences read under `key`
      add up to last minus first, modulo 2^64, whatever is polled under other intervals; for a counter
      that does not decrease, they add up exactly. */
  lemma DifferencesTelescope(es: seq<Event>, key: nat, id: string)
    requires Alternates(Project(es, key, id)) && Values(Project(es, key, id)) != []
    ensures var vs := Values(Project(es, key, id));
            && Total(es, key, id) % U64 == Sub64(vs[|vs| - 1], vs[0])
            && (NonDecreasing(vs) ==> Total(es, key, id) == vs[|vs| - 1] - vs[0])
  {
    ReadingsAreLocal(es, key, id);
    LocalTelescopes(Project(es, key, id));
  }

  /** An interval that misses the counter loses what it counted until it is seen again: that reading is 0. */
  lemma GapLosesDifference(marks: seq<Mark>, value: Uint64)
    ensures LocalTotal(marks + [Ticked, Ticked, Seen(value)]) == LocalTotal(marks)
  {
    var a := marks + [Ticked];
    var b := a + [Ticked];
    var c := b + [Seen(value)];
    assert a[..|marks|] == marks && b[..|a|] == a && c[..|b|] == b;
    assert marks + [Ticked, Ticked, Seen(value)] == c;
    assert LocalTotal(b) == LocalTotal(a) == LocalTotal(marks);
    assert Current(a) == None && Previous(b) == None && Previous(c) == Previous(b);
  }
}
