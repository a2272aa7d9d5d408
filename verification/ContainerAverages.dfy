/** Averaging container statistics records (internal/records/records.go, AverageContainerStats). Values of
    two decimals are counted in hundredths; byte rates are uint64. */
module ContainerAverages {
  import opened Options
  import opened StatsAverages

  /** `networkSent` and `networkRecv` are the older form of the bandwidth, in hundredths of MB. */
  datatype Container = Container(name: string, cpu: nat, mem: nat, sent: nat, recv: nat, networkSent: nat, networkRecv: nat)

  datatype Sum = Sum(cpu: nat, mem: nat, sent: nat, recv: nat)

  const NO_SUM: Sum := Sum(0, 0, 0, 0)

  /** Only the older form is given. */
  predicate IsLegacy(c: Container) {
    c.sent == 0 && c.recv == 0 && (c.networkSent != 0 || c.networkRecv != 0)
  }

  function MegabytesToBytes(hundredths: nat): nat {
    hundredths * 1_048_576 / 100
  }

  function SentBytes(c: Container): nat {
    if IsLegacy(c) then MegabytesToBytes(c.networkSent) else c.sent
  }

  function RecvBytes(c: Container): nat {
    if IsLegacy(c) then MegabytesToBytes(c.networkRecv) else c.recv
  }

  function AddContainer(sum: Sum, c: Container): Sum {
    Sum(sum.cpu + c.cpu, sum.mem + c.mem, (sum.sent + SentBytes(c)) % U64, (sum.recv + RecvBytes(c)) % U64)
  }

  function SumAt(sums: map<string, Sum>, name: string): Sum {
    if name in sums then sums[name] else NO_SUM
  }

  /** One container's mean over `count` records. */
  function Mean(sum: Sum, count: nat): Sum
    requires count > 0
  {
    Sum(RoundDiv(sum.cpu, count), RoundDiv(sum.mem, count), DivDown(sum.sent, count), DivDown(sum.recv, count))
  }

  // ----- one container at a time

  /** What the listed containers of this name add up to. */
  function Listed(containers: seq<Container>, name: string): Sum {
    var n := |containers| - 1;
    if containers == [] then NO_SUM
    else if containers[n].name == name then AddContainer(Listed(containers[..n], name), containers[n])
    else Listed(containers[..n], name)
  }

  predicate Names(containers: seq<Container>, name: string) {
    exists c :: c in containers && c.name == name
  }

  /** All records one after the other; a record that cannot be decoded is None. */
  function Flat(records: seq<Option<seq<Container>>>): seq<Container> {
    var n := |records| - 1;
    if records == [] then [] else Flat(records[..n]) + match records[n] case Some(cs) => cs case None => []
  }

  predicate Decodable(records: seq<Option<seq<Container>>>) {
    forall i :: 0 <= i < |records| ==> records[i].Some?
  }

  /** The sums are those of the containers seen. */
  ghost predicate Sums(sums: map<string, Sum>, seen: seq<Container>) {
    && (forall name :: name in sums <==> Names(seen, name))
    && (forall name :: name in sums ==> sums[name] == Listed(seen, name))
  }

  lemma SumsNext(sums: map<string, Sum>, seen: seq<Container>, c: Container)
    requires Sums(sums, seen)
    ensures Sums(sums[c.name := AddContainer(SumAt(sums, c.name), c)], seen + [c])
  {
    var after := sums[c.name := AddContainer(SumAt(sums, c.name), c)];
    NotListed(seen, c.name);
    forall name ensures name in after <==> Names(seen + [c], name) {
      assert forall d :: d in seen + [c] <==> d in seen || d == c;
      if name in after && name != c.name {
        var d :| d in seen && d.name == name;
        assert d in seen + [c];
      }
      if name == c.name { assert c in seen + [c]; }
    }
    assert (seen + [c])[..|seen|] == seen;
  }

  lemma {:induction false} NotListed(containers: seq<Container>, name: string)
    ensures !Names(containers, name) ==> Listed(containers, name) == NO_SUM
  {
    if containers != [] {
      var n := |containers| - 1;
      assert containers[n] in containers;
      NotListed(containers[..n], name);
      assert forall c :: c in containers[..n] ==> c in containers;
    }
  }

  // ----- as the job does it

  /** `AverageContainerStats`: the average of every container by name; nothing if a record cannot be
      decoded. The mean is over all records, whether or not they list the container. */
  method AverageContainerStats(records: seq<Option<seq<Container>>>) returns (result: map<string, Sum>)
    ensures !Decodable(records) ==> result == map[]
    ensures Decodable(records) ==>
              && (forall name :: name in result <==> Names(Flat(records), name))
              && (forall name :: name in result ==> |records| > 0 && result[name] == Mean(Listed(Flat(records), name), |records|))
  {
    var sums: map<string, Sum> := map[];
    var count := |records|;
    for i := 0 to |records|
      invariant Sums(sums, Flat(records[..i]))
      invariant forall k :: 0 <= k < i ==> records[k].Some?
    {
      assert records[..i + 1][..i] == records[..i];
      if records[i] == None {
        return map[];
      }
      var containerStats := records[i].value;
      ghost var seen := Flat(records[..i]);
      assert seen + containerStats[..0] == seen;
      for j := 0 to |containerStats|
        invariant Sums(sums, seen + containerStats[..j])
      {
        var stat := containerStats[j];
        SumsNext(sums, seen + containerStats[..j], stat);
        assert seen + containerStats[..j + 1] == seen + containerStats[..j] + [stat];
        if stat.name !in sums {
          sums := sums[stat.name := NO_SUM];
        }
        sums := sums[stat.name := AddContainer(sums[stat.name], stat)];
      }
      assert containerStats[..|containerStats|] == containerStats;
    }
    assert records[..|records|] == records;
    result := map[];
    var names := sums.Keys;
    if names == {} {
      return;
    }
    NonemptyRecords(records, sums);
    while names != {}
      invariant names <= sums.Keys && result.Keys == sums.Keys - names
      invariant forall name :: name in result ==> result[name] == Mean(sums[name], count)
      decreases names
    {
      var name :| name in names;
      result := result[name := Mean(sums[name], count)];
      names := names - {name};
    }
  }

  lemma NonemptyRecords(records: seq<Option<seq<Container>>>, sums: map<string, Sum>)
    requires Sums(sums, Flat(records)) && sums.Keys != {}
    ensures |records| > 0
  {
    var name :| name in sums;
    assert Names(Flat(records), name);
  }

  // ----- what the average means

  /** The readings of a container. */
  datatype Reading = Cpu | Mem | Sent | Recv

  /** A container that gives no byte rates may give the older form, in hundredths of a megabyte. */
  function ReadingOf(c: Container, r: Reading): nat {
    match r
    case Cpu => c.cpu
    case Mem => c.mem
    case Sent => if c.sent == 0 && c.recv == 0 then c.networkSent * 1_048_576 / 100 else c.sent
    case Recv => if c.sent == 0 && c.recv == 0 then c.networkRecv * 1_048_576 / 100 else c.recv
  }

  function TotalOf(containers: seq<Container>, name: string, r: Reading): nat {
    var n := |containers| - 1;
    if containers == [] then 0
    else TotalOf(containers[..n], name, r) + if containers[n].name == name then ReadingOf(containers[n], r) else 0
  }

  lemma {:induction false} ListedTotals(containers: seq<Container>, name: string)
    ensures var sum := Listed(containers, name);
            && sum.cpu == TotalOf(containers, name, Reading.Cpu) && sum.mem == TotalOf(containers, name, Mem)
            && sum.sent == TotalOf(containers, name, Sent) % U64 && sum.recv == TotalOf(containers, name, Recv) % U64
  {
    if containers != [] {
      var n := |containers| - 1;
      ListedTotals(containers[..n], name);
      AddWrapped(TotalOf(containers[..n], name, Sent), ReadingOf(containers[n], Sent));
      AddWrapped(TotalOf(containers[..n], name, Recv), ReadingOf(containers[n], Recv));
    }
  }

  /** CPU and memory are the container's totals over the number of all records, rounded to the nearest hundredth;
      byte rates are rounded down, from totals modulo 2^64. Records that do not list the container count as 0. */
  lemma MeanOfAllRecords(records: seq<Option<seq<Container>>>, name: string)
    requires |records| > 0
    ensures var mean := Mean(Listed(Flat(records), name), |records|);
            var all := Flat(records);
            && IsRounded(mean.cpu, TotalOf(all, name, Reading.Cpu), |records|)
            && IsRounded(mean.mem, TotalOf(all, name, Mem), |records|)
            && IsFloor(mean.sent, TotalOf(all, name, Sent) % U64, |records|)
            && IsFloor(mean.recv, TotalOf(all, name, Recv) % U64, |records|)
  {
    hide IsRounded, IsFloor, RoundDiv, DivDown;
    var all := Flat(records);
    ListedTotals(all, name);
    RoundDivIsRounded(TotalOf(all, name, Reading.Cpu), |records|);
    RoundDivIsRounded(TotalOf(all, name, Mem), |records|);
    DivDownIsFloor(TotalOf(all, name, Sent) % U64, |records|);
    DivDownIsFloor(TotalOf(all, name, Recv) % U64, |records|);
  }
}
