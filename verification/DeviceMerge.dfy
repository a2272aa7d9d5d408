/** What merging SMART device lists means (agent/smart.go, mergeDeviceLists), on device values.
    SmartManager does it on device objects.

    The lists here hold named devices only: the merge skips nil entries and empty names. */
module DeviceMerge {
  import opened Options
  import opened GoStrings

  /** A device record. `verified` says that `parser` was seen to parse this device's data. */
  datatype Device = Device(name: string, kind: string, infoName: string, protocol: string, verified: bool, parser: string)

  datatype Key = Key(name: string, kind: string)

  function KeyOf(d: Device): Key {
    Key(d.name, d.kind)
  }

  function NormalizeParserType(value: string): string {
    var v := ToLower(TrimSpace(value));
    if v == "nvme" || v == "sntasmedia" || v == "sntrealtek" then "nvme"
    else if v == "sat" || v == "ata" then "sat"
    else if v == "scsi" then "scsi"
    else v
  }

  // ----- the two indexes

  /** The map from key to device: a later device replaces an earlier one under the same key. */
  function LastWithKey(ds: seq<Device>, key: Key): (r: Option<nat>)
    ensures r.Some? ==> r.value < |ds| && KeyOf(ds[r.value]) == key
    ensures r == None ==> forall i :: 0 <= i < |ds| ==> KeyOf(ds[i]) != key
  {
    var n := |ds| - 1;
    if ds == [] then None
    else if KeyOf(ds[n]) == key then Some(n)
    else LastWithKey(ds[..n], key)
  }

  function CountName(ds: seq<Device>, name: string): nat {
    var n := |ds| - 1;
    if ds == [] then 0
    else CountName(ds[..n], name) + if ds[n].name == name then 1 else 0
  }

  function LastNamed(ds: seq<Device>, name: string): (i: nat)
    requires CountName(ds, name) > 0
    ensures i < |ds| && ds[i].name == name
  {
    var n := |ds| - 1;
    if ds[n].name == name then n else LastNamed(ds[..n], name)
  }

  lemma AppendDevice(ds: seq<Device>, d: Device)
    ensures forall name :: CountName(ds + [d], name) == CountName(ds, name) + if d.name == name then 1 else 0
    ensures forall name :: CountName(ds + [d], name) > 0 ==>
              LastNamed(ds + [d], name) == if d.name == name then |ds| else LastNamed(ds, name)
    ensures forall key :: LastWithKey(ds + [d], key) == if KeyOf(d) == key then Some(|ds|) else LastWithKey(ds, key)
  {
    assert (ds + [d])[..|ds|] == ds;
  }

  /** The earlier record whose verification a device inherits: same name and type, or else the only
      one of that name. */
  function Previous(existing: seq<Device>, d: Device): Option<Device> {
    var i := LastWithKey(existing, KeyOf(d));
    if i.Some? then Some(existing[i.value])
    else if CountName(existing, d.name) == 1 then Some(existing[LastNamed(existing, d.name)])
    else None
  }

  function Preserve(d: Device, previous: Option<Device>): Device {
    if previous.Some? && previous.value.verified
    then d.(kind := previous.value.kind, verified := true, parser := previous.value.parser)
    else d
  }

  /** `applyConfiguredMetadata`. */
  function Override(d: Device, c: Device): Device {
    var typed := if c.kind != "" && !d.verified
                 then d.(kind := TrimSpace(c.kind), parser := NormalizeParserType(TrimSpace(c.kind)))
                 else d;
    var named := if c.infoName != "" then typed.(infoName := c.infoName) else typed;
    if c.protocol != "" then named.(protocol := c.protocol) else named
  }

  function ScannedCopy(existing: seq<Device>, d: Device): Device {
    Preserve(d, Previous(existing, d))
  }

  function ConfiguredCopy(existing: seq<Device>, c: Device): Device {
    var previous := Previous(existing, c);
    if previous.Some? then Preserve(c, previous)
    else if c.kind != "" then c.(parser := NormalizeParserType(c.kind))
    else c
  }

  // ----- the merge

  /** Devices so far, and the index by key. The index keeps the keys devices were filed under, also
      when a configured type has replaced the type since. */
  datatype Merging = Merging(devices: seq<Device>, index: map<Key, nat>)

  function Append(m: Merging, d: Device): Merging {
    Merging(m.devices + [d], m.index[KeyOf(d) := |m.devices|])
  }

  function Scan(existing: seq<Device>, scanned: seq<Device>): Merging {
    var n := |scanned| - 1;
    if scanned == [] then Merging([], map[])
    else Append(Scan(existing, scanned[..n]), ScannedCopy(existing, scanned[n]))
  }

  /** Where a configured device lands among the devices merged so far, if it matches one. `base`
      are the devices right after scanning. */
  function Match(base: seq<Device>, m: Merging, c: Device): Option<nat> {
    if KeyOf(c) in m.index then Some(m.index[KeyOf(c)])
    else if CountName(base, c.name) == 1 then Some(LastNamed(base, c.name))
    else None
  }

  function Configure(existing: seq<Device>, base: seq<Device>, m: Merging, c: Device): Merging {
    var at := Match(base, m, c);
    if at.Some? then
      if at.value < |m.devices|
      then m.(devices := m.devices[at.value := Override(m.devices[at.value], c)])
      else m
    else Append(m, ConfiguredCopy(existing, c))
  }

  function ConfigureAll(existing: seq<Device>, base: seq<Device>, m: Merging, configured: seq<Device>): Merging {
    var n := |configured| - 1;
    if configured == [] then m
    else Configure(existing, base, ConfigureAll(existing, base, m, configured[..n]), configured[n])
  }

  lemma ScanNext(existing: seq<Device>, scanned: seq<Device>, d: Device)
    ensures Scan(existing, scanned + [d]) == Append(Scan(existing, scanned), ScannedCopy(existing, d))
  {
    assert (scanned + [d])[..|scanned|] == scanned;
  }

  lemma ConfigureNext(existing: seq<Device>, base: seq<Device>, m: Merging, configured: seq<Device>, c: Device)
    ensures ConfigureAll(existing, base, m, configured + [c])
         == Configure(existing, base, ConfigureAll(existing, base, m, configured), c)
  {
    assert (configured + [c])[..|configured|] == configured;
  }

  function Merged(existing: seq<Device>, scanned: seq<Device>, configured: seq<Device>): Merging {
    var m := Scan(existing, scanned);
    ConfigureAll(existing, m.devices, m, configured)
  }

  function Merge(existing: seq<Device>, scanned: seq<Device>, configured: seq<Device>): seq<Device> {
    Merged(existing, scanned, configured).devices
  }

  // ----- shape

  lemma {:induction false} ScanShape(existing: seq<Device>, scanned: seq<Device>)
    ensures var m := Scan(existing, scanned);
            && |m.devices| == |scanned|
            && (forall i :: 0 <= i < |scanned| ==> m.devices[i] == ScannedCopy(existing, scanned[i]))
            && (forall key :: key in m.index <==> LastWithKey(m.devices, key).Some?)
            && (forall key :: key in m.index ==> m.index[key] == LastWithKey(m.devices, key).value)
  {
    if scanned != [] {
      var n := |scanned| - 1;
      ScanShape(existing, scanned[..n]);
      var m := Scan(existing, scanned);
      assert m.devices[..n] == Scan(existing, scanned[..n]).devices;
    }
  }

  lemma {:induction false} CountNamePositive(ds: seq<Device>, name: string)
    ensures CountName(ds, name) > 0 <==> exists i :: 0 <= i < |ds| && ds[i].name == name
  {
    if ds != [] {
      var n := |ds| - 1;
      CountNamePositive(ds[..n], name);
      if i :| 0 <= i < |ds| && ds[i].name == name {
        assert i < n ==> ds[..n][i].name == name;
      }
    }
  }

  lemma {:induction false} OnlyNamed(ds: seq<Device>, name: string, i: nat)
    requires CountName(ds, name) == 1 && i < |ds| && ds[i].name == name
    ensures i == LastNamed(ds, name)
  {
    var n := |ds| - 1;
    if i < n {
      assert ds[..n][i].name == name;
      CountNamePositive(ds[..n], name);
      OnlyNamed(ds[..n], name, i);
    } else if CountName(ds[..n], name) > 0 {
      assert false;
    }
  }

  lemma {:induction false} CountNameByNames(ds: seq<Device>, es: seq<Device>, name: string)
    requires |ds| == |es| && forall i :: 0 <= i < |ds| ==> ds[i].name == es[i].name
    ensures CountName(ds, name) == CountName(es, name)
  {
    if ds != [] {
      CountNameByNames(ds[..|ds| - 1], es[..|es| - 1], name);
    }
  }

  /** The index points into the devices, at devices of the name it files them under. */
  ghost predicate WellFiled(m: Merging) {
    forall key :: key in m.index ==> m.index[key] < |m.devices| && m.devices[m.index[key]].name == key.name
  }

  lemma ScanWellFiled(existing: seq<Device>, scanned: seq<Device>)
    ensures WellFiled(Scan(existing, scanned))
  {
    ScanShape(existing, scanned);
  }

  /** Configured devices are matched to devices of their own name, and renamed never. */
  lemma ConfigureKeeps(existing: seq<Device>, base: seq<Device>, m: Merging, c: Device)
    requires WellFiled(m) && |base| <= |m.devices|
    requires forall i :: 0 <= i < |base| ==> m.devices[i].name == base[i].name
    ensures var r := Configure(existing, base, m, c);
            && WellFiled(r)
            && |m.devices| <= |r.devices|
            && (forall i :: 0 <= i < |m.devices| ==> r.devices[i].name == m.devices[i].name)
            && (forall i :: 0 <= i < |m.devices| && m.devices[i].name != c.name ==> r.devices[i] == m.devices[i])
            && (Match(base, m, c).Some? ==> Match(base, m, c).value < |m.devices| && m.devices[Match(base, m, c).value].name == c.name)
  {
  }

  lemma {:induction false} ConfigureAllKeeps(existing: seq<Device>, base: seq<Device>, m: Merging, configured: seq<Device>)
    requires WellFiled(m) && |base| <= |m.devices|
    requires forall i :: 0 <= i < |base| ==> m.devices[i].name == base[i].name
    ensures var r := ConfigureAll(existing, base, m, configured);
            && WellFiled(r)
            && |m.devices| <= |r.devices|
            && (forall i :: 0 <= i < |m.devices| ==> r.devices[i].name == m.devices[i].name)
  {
    if configured != [] {
      var n := |configured| - 1;
      ConfigureAllKeeps(existing, base, m, configured[..n]);
      ConfigureKeeps(existing, base, ConfigureAll(existing, base, m, configured[..n]), configured[n]);
    }
  }

  /** The configured devices that match nothing when their turn comes, as they are filed. */
  function Unmatched(existing: seq<Device>, base: seq<Device>, filed: set<Key>, configured: seq<Device>): seq<Device>
    decreases |configured|
  {
    if configured == [] then []
    else
      var c := configured[0];
      if KeyOf(c) in filed || CountName(base, c.name) == 1
      then Unmatched(existing, base, filed, configured[1..])
      else
        var d := ConfiguredCopy(existing, c);
        [d] + Unmatched(existing, base, filed + {KeyOf(d)}, configured[1..])
  }

  lemma {:induction false} ConfigureAllFromFront(existing: seq<Device>, base: seq<Device>, m: Merging, configured: seq<Device>)
    requires configured != []
    ensures ConfigureAll(existing, base, m, configured)
         == ConfigureAll(existing, base, Configure(existing, base, m, configured[0]), configured[1..])
    decreases |configured|
  {
    hide Configure;
    var n := |configured| - 1;
    if n > 0 {
      ConfigureAllFromFront(existing, base, m, configured[..n]);
      assert configured[..n][1..] == configured[1..][..n - 1];
    } else {
      assert configured[1..] == [] && configured[..n] == [];
      assert ConfigureAll(existing, base, m, []) == m;
    }
  }

  function NamesOf(ds: seq<Device>): (r: seq<string>)
    ensures |r| == |ds|
  {
    seq(|ds|, i requires 0 <= i < |ds| => ds[i].name)
  }

  /** Whether a configured device matches depends on the keys filed and the scanned names only. */
  predicate Matches(base: seq<Device>, filed: set<Key>, c: Device) {
    KeyOf(c) in filed || CountName(base, c.name) == 1
  }

  lemma ConfigureMatched(existing: seq<Device>, base: seq<Device>, m: Merging, c: Device)
    requires WellFiled(m) && |base| <= |m.devices| && Matches(base, m.index.Keys, c)
    ensures NamesOf(Configure(existing, base, m, c).devices) == NamesOf(m.devices)
    ensures Configure(existing, base, m, c).index.Keys == m.index.Keys
  {
  }

  lemma ConfigureUnmatched(existing: seq<Device>, base: seq<Device>, m: Merging, c: Device)
    requires !Matches(base, m.index.Keys, c)
    ensures var d := ConfiguredCopy(existing, c);
            && NamesOf(Configure(existing, base, m, c).devices) == NamesOf(m.devices) + [d.name]
            && Configure(existing, base, m, c).index.Keys == m.index.Keys + {KeyOf(d)}
  {
    assert Configure(existing, base, m, c) == Append(m, ConfiguredCopy(existing, c));
  }

  lemma UnmatchedHead(existing: seq<Device>, base: seq<Device>, filed: set<Key>, c: Device, rest: seq<Device>)
    ensures Matches(base, filed, c) ==>
              Unmatched(existing, base, filed, [c] + rest) == Unmatched(existing, base, filed, rest)
    ensures !Matches(base, filed, c) ==>
              var d := ConfiguredCopy(existing, c);
              NamesOf(Unmatched(existing, base, filed, [c] + rest))
              == [d.name] + NamesOf(Unmatched(existing, base, filed + {KeyOf(d)}, rest))
  {
    assert ([c] + rest)[1..] == rest;
  }

  /** One configured device in front of a tail that is known to be listed in order. */
  lemma TailStep(existing: seq<Device>, base: seq<Device>, m: Merging, next: Merging, c: Device, rest: seq<Device>, names: seq<string>)
    requires WellFiled(m) && |base| <= |m.devices|
    requires next == Configure(existing, base, m, c)
    requires names == NamesOf(next.devices) + NamesOf(Unmatched(existing, base, next.index.Keys, rest))
    ensures names == NamesOf(m.devices) + NamesOf(Unmatched(existing, base, m.index.Keys, [c] + rest))
  {
    UnmatchedHead(existing, base, m.index.Keys, c, rest);
    if Matches(base, m.index.Keys, c) {
      ConfigureMatched(existing, base, m, c);
    } else {
      ConfigureUnmatched(existing, base, m, c);
    }
  }

  /** Past the scanned devices come the unmatched configured ones, in order. */
  lemma {:induction false} ConfiguredTail(existing: seq<Device>, base: seq<Device>, m: Merging, configured: seq<Device>)
    requires WellFiled(m) && |base| <= |m.devices|
    requires forall i :: 0 <= i < |base| ==> m.devices[i].name == base[i].name
    ensures NamesOf(ConfigureAll(existing, base, m, configured).devices)
         == NamesOf(m.devices) + NamesOf(Unmatched(existing, base, m.index.Keys, configured))
    decreases |configured|
  {
    if configured != [] {
      var c, rest := configured[0], configured[1..];
      var next := Configure(existing, base, m, c);
      ConfigureKeeps(existing, base, m, c);
      ConfigureAllFromFront(existing, base, m, configured);
      ConfiguredTail(existing, base, next, rest);
      TailStep(existing, base, m, next, c, rest, NamesOf(ConfigureAll(existing, base, next, rest).devices));
      assert configured == [c] + rest;
    }
  }

  /** Configured devices applied to a device, one after the other. */
  function OverrideAll(d: Device, cs: seq<Device>): Device
    decreases |cs|
  {
    if cs == [] then d else OverrideAll(Override(d, cs[0]), cs[1..])
  }

  /** The configured devices that land on position `i`, in order. */
  function Hits(existing: seq<Device>, base: seq<Device>, m: Merging, configured: seq<Device>, i: nat): seq<Device>
    decreases |configured|
  {
    if configured == [] then []
    else
      (if Match(base, m, configured[0]) == Some(i) then [configured[0]] else []) +
      Hits(existing, base, Configure(existing, base, m, configured[0]), configured[1..], i)
  }

  lemma HitsHead(existing: seq<Device>, base: seq<Device>, m: Merging, configured: seq<Device>, i: nat, d: Device)
    requires configured != []
    ensures var c := configured[0];
            var hits := Hits(existing, base, Configure(existing, base, m, c), configured[1..], i);
            if Match(base, m, c) == Some(i)
            then Hits(existing, base, m, configured, i) == [c] + hits
                 && OverrideAll(d, Hits(existing, base, m, configured, i)) == OverrideAll(Override(d, c), hits)
            else Hits(existing, base, m, configured, i) == hits
  {
    hide Match, Configure, Override;
    var c := configured[0];
    var hits := Hits(existing, base, Configure(existing, base, m, c), configured[1..], i);
    assert ([c] + hits)[1..] == hits;
    assert [] + hits == hits;
  }

  lemma ConfigureEntry(existing: seq<Device>, base: seq<Device>, m: Merging, c: Device, i: nat)
    requires i < |m.devices|
    ensures var r := Configure(existing, base, m, c).devices;
            i < |r| && r[i] == if Match(base, m, c) == Some(i) then Override(m.devices[i], c) else m.devices[i]
  {
    hide Override, Match;
  }

  lemma {:induction false} OverridesLand(existing: seq<Device>, base: seq<Device>, m: Merging, configured: seq<Device>, i: nat)
    requires i < |m.devices|
    ensures i < |ConfigureAll(existing, base, m, configured).devices|
    ensures ConfigureAll(existing, base, m, configured).devices[i]
         == OverrideAll(m.devices[i], Hits(existing, base, m, configured, i))
    decreases |configured|
  {
    if configured != [] {
      hide ConfigureAll, Configure, Hits, OverrideAll, Override, Match;
      var c, rest := configured[0], configured[1..];
      ConfigureAllFromFront(existing, base, m, configured);
      ConfigureEntry(existing, base, m, c, i);
      OverridesLand(existing, base, Configure(existing, base, m, c), rest, i);
      HitsHead(existing, base, m, configured, i, m.devices[i]);
    }
  }

  /** The merge is under way over these scanned devices. */
  ghost predicate UnderWay(base: seq<Device>, m: Merging) {
    WellFiled(m) && |base| <= |m.devices| && forall i :: 0 <= i < |base| ==> m.devices[i].name == base[i].name
  }

  lemma StaysUnderWay(existing: seq<Device>, base: seq<Device>, m: Merging, c: Device)
    requires UnderWay(base, m)
    ensures UnderWay(base, Configure(existing, base, m, c))
    ensures Match(base, m, c).Some? <==> Matches(base, m.index.Keys, c)
    ensures Match(base, m, c).Some? ==> Match(base, m, c).value < |m.devices| && m.devices[Match(base, m, c).value].name == c.name
    ensures |Configure(existing, base, m, c).devices| == |m.devices| + if Match(base, m, c).Some? then 0 else 1
    ensures Match(base, m, c).Some? ==> Configure(existing, base, m, c).index == m.index
    ensures Match(base, m, c) == None ==>
              Configure(existing, base, m, c).index.Keys == m.index.Keys + {KeyOf(ConfiguredCopy(existing, c))}
              && Configure(existing, base, m, c).devices[|m.devices|] == ConfiguredCopy(existing, c)
  {
    ConfigureKeeps(existing, base, m, c);
  }

  lemma UnmatchedNext(existing: seq<Device>, base: seq<Device>, m: Merging, configured: seq<Device>)
    requires UnderWay(base, m) && configured != []
    ensures var c := configured[0];
            var more := Unmatched(existing, base, Configure(existing, base, m, c).index.Keys, configured[1..]);
            Unmatched(existing, base, m.index.Keys, configured)
            == if Match(base, m, c).Some? then more else [ConfiguredCopy(existing, c)] + more
  {
    StaysUnderWay(existing, base, m, configured[0]);
    hide Configure, ConfiguredCopy, UnderWay, Match;
  }

  lemma UnmatchedNonempty(existing: seq<Device>, base: seq<Device>, filed: set<Key>, configured: seq<Device>)
    requires Unmatched(existing, base, filed, configured) != []
    ensures configured != []
  {
  }

  /** Past the devices so far come the unmatched configured ones, with what lands on them applied. */
  lemma {:induction false} TailIsUnmatched(existing: seq<Device>, base: seq<Device>, m: Merging, configured: seq<Device>, j: nat)
    requires UnderWay(base, m) && j < |Unmatched(existing, base, m.index.Keys, configured)|
    ensures |m.devices| + j < |ConfigureAll(existing, base, m, configured).devices|
    ensures ConfigureAll(existing, base, m, configured).devices[|m.devices| + j]
         == OverrideAll(Unmatched(existing, base, m.index.Keys, configured)[j], Hits(existing, base, m, configured, |m.devices| + j))
    decreases |configured|
  {
    hide ConfigureAll, Configure, Hits, OverrideAll, Override, Match, UnderWay, Unmatched, ConfiguredCopy;
    UnmatchedNonempty(existing, base, m.index.Keys, configured);
    var c, rest := configured[0], configured[1..];
    var next := Configure(existing, base, m, c);
    UnmatchedNext(existing, base, m, configured);
    StaysUnderWay(existing, base, m, c);
    ConfigureAllFromFront(existing, base, m, configured);
    HitsHead(existing, base, m, configured, |m.devices| + j, c);
    if Match(base, m, c).Some? {
      TailIsUnmatched(existing, base, next, rest, j);
    } else if j == 0 {
      OverridesLand(existing, base, next, rest, |m.devices|);
    } else {
      TailIsUnmatched(existing, base, next, rest, j - 1);
    }
  }

  /** What lands on a position is configured, and of the name there. */
  lemma {:induction false} HitsAreOwn(existing: seq<Device>, base: seq<Device>, m: Merging, configured: seq<Device>, i: nat, c: Device)
    requires UnderWay(base, m) && i < |ConfigureAll(existing, base, m, configured).devices|
    requires c in Hits(existing, base, m, configured, i)
    ensures c in configured && c.name == ConfigureAll(existing, base, m, configured).devices[i].name
    decreases |configured|
  {
    if configured != [] {
      var d, rest := configured[0], configured[1..];
      var next := Configure(existing, base, m, d);
      HitsHead(existing, base, m, configured, i, d);
      StaysUnderWay(existing, base, m, d);
      ConfigureAllFromFront(existing, base, m, configured);
      hide Configure, Match, Hits, OverrideAll;
      assert configured == [d] + rest;
      if c in Hits(existing, base, next, rest, i) {
        HitsAreOwn(existing, base, next, rest, i, c);
      } else {
        KeepsNames(existing, base, m, configured);
      }
    }
  }

  lemma KeepsNames(existing: seq<Device>, base: seq<Device>, m: Merging, configured: seq<Device>)
    requires UnderWay(base, m)
    ensures var r := ConfigureAll(existing, base, m, configured).devices;
            |m.devices| <= |r| && forall i :: 0 <= i < |m.devices| ==> r[i].name == m.devices[i].name
  {
    ConfigureAllKeeps(existing, base, m, configured);
  }

  /** The configured devices that the merge applies to position `i` of its result, in order. */
  function Applied(existing: seq<Device>, scanned: seq<Device>, configured: seq<Device>, i: nat): seq<Device> {
    var base := Scan(existing, scanned);
    Hits(existing, base.devices, base, configured, i)
  }

  /** The configured devices that the merge lists by themselves, as they are filed. */
  function Added(existing: seq<Device>, scanned: seq<Device>, configured: seq<Device>): seq<Device> {
    var base := Scan(existing, scanned);
    Unmatched(existing, base.devices, base.index.Keys, configured)
  }

  lemma ScanUnderWay(existing: seq<Device>, scanned: seq<Device>)
    ensures UnderWay(Scan(existing, scanned).devices, Scan(existing, scanned))
    ensures |Scan(existing, scanned).devices| == |scanned|
    ensures forall i :: 0 <= i < |scanned| ==> Scan(existing, scanned).devices[i] == ScannedCopy(existing, scanned[i])
    ensures NamesOf(Scan(existing, scanned).devices) == NamesOf(scanned)
  {
    ScanShape(existing, scanned);
    ScanWellFiled(existing, scanned);
  }

  lemma MergeNamesInOrder(existing: seq<Device>, scanned: seq<Device>, configured: seq<Device>)
    ensures NamesOf(Merge(existing, scanned, configured)) == NamesOf(scanned) + NamesOf(Added(existing, scanned, configured))
  {
    ScanUnderWay(existing, scanned);
    var base := Scan(existing, scanned);
    ConfiguredTail(existing, base.devices, base, configured);
  }

  /** The merge lists a copy of every scanned device, in order, and then one device for every
      configured device that matched nothing, in order; each of them with the configured devices of its
      name that landed on it applied, and otherwise as it was filed. */
  lemma MergeOrder(existing: seq<Device>, scanned: seq<Device>, configured: seq<Device>)
    ensures var added := Added(existing, scanned, configured);
            var merged := Merge(existing, scanned, configured);
            && |merged| == |scanned| + |added|
            && NamesOf(merged) == NamesOf(scanned) + NamesOf(added)
            && (forall i: nat :: i < |scanned| ==>
                  merged[i] == OverrideAll(ScannedCopy(existing, scanned[i]), Applied(existing, scanned, configured, i)))
            && (forall j: nat :: j < |added| ==>
                  merged[|scanned| + j] == OverrideAll(added[j], Applied(existing, scanned, configured, |scanned| + j)))
            && (forall i: nat, c :: i < |merged| && c in Applied(existing, scanned, configured, i) ==>
                  c in configured && c.name == merged[i].name)
  {
    ScanUnderWay(existing, scanned);
    MergeNamesInOrder(existing, scanned, configured);
    var base := Scan(existing, scanned);
    var added := Added(existing, scanned, configured);
    var merged := Merge(existing, scanned, configured);
    assert |NamesOf(merged)| == |NamesOf(scanned) + NamesOf(added)|;
    hide Scan, ConfigureAll, Unmatched, Hits, ScannedCopy, OverrideAll, UnderWay;
    forall i: nat | i < |scanned|
      ensures merged[i] == OverrideAll(ScannedCopy(existing, scanned[i]), Applied(existing, scanned, configured, i))
    {
      OverridesLand(existing, base.devices, base, configured, i);
    }
    forall j: nat | j < |added|
      ensures merged[|scanned| + j] == OverrideAll(added[j], Applied(existing, scanned, configured, |scanned| + j))
    {
      TailIsUnmatched(existing, base.devices, base, configured, j);
    }
    forall i: nat, c | i < |merged| && c in Applied(existing, scanned, configured, i)
      ensures c in configured && c.name == merged[i].name
    {
      HitsAreOwn(existing, base.devices, base, configured, i, c);
    }
  }

  predicate Names(ds: seq<Device>, name: string) {
    exists i :: 0 <= i < |ds| && ds[i].name == name
  }

  lemma ConfigureCovers(existing: seq<Device>, base: seq<Device>, m: Merging, c: Device, name: string)
    requires WellFiled(m) && |base| <= |m.devices|
    requires forall i :: 0 <= i < |base| ==> m.devices[i].name == base[i].name
    ensures Names(Configure(existing, base, m, c).devices, name) <==> Names(m.devices, name) || c.name == name
  {
    ConfigureKeeps(existing, base, m, c);
    var r := Configure(existing, base, m, c).devices;
    var at := Match(base, m, c);
    assert r[if at.Some? then at.value else |m.devices|].name == c.name;
    if i :| 0 <= i < |m.devices| && m.devices[i].name == name {
      assert r[i].name == name;
    }
  }

  lemma NamesOfLast(ds: seq<Device>, name: string)
    requires ds != []
    ensures Names(ds, name) <==> Names(ds[..|ds| - 1], name) || ds[|ds| - 1].name == name
  {
    var n := |ds| - 1;
    if i :| 0 <= i < |ds| && ds[i].name == name {
      assert i < n ==> ds[..n][i].name == name;
    }
    if i :| 0 <= i < n && ds[..n][i].name == name {
      assert ds[i].name == name;
    }
  }

  lemma {:induction false} ConfigureAllCovers(existing: seq<Device>, base: seq<Device>, m: Merging, configured: seq<Device>, name: string)
    requires WellFiled(m) && |base| <= |m.devices|
    requires forall i :: 0 <= i < |base| ==> m.devices[i].name == base[i].name
    ensures Names(ConfigureAll(existing, base, m, configured).devices, name) <==> Names(m.devices, name) || Names(configured, name)
  {
    if configured != [] {
      var n := |configured| - 1;
      ConfigureAllCovers(existing, base, m, configured[..n], name);
      ConfigureAllKeeps(existing, base, m, configured[..n]);
      ConfigureCovers(existing, base, ConfigureAll(existing, base, m, configured[..n]), configured[n], name);
      NamesOfLast(configured, name);
    }
  }

  /** Every named input device is in the result by name, and no other name is. */
  lemma MergeNames(existing: seq<Device>, scanned: seq<Device>, configured: seq<Device>, name: string)
    ensures Names(Merge(existing, scanned, configured), name) <==> Names(scanned, name) || Names(configured, name)
  {
    ScanShape(existing, scanned);
    ScanWellFiled(existing, scanned);
    var base := Scan(existing, scanned);
    hide Scan, ConfigureAll;
    ConfigureAllCovers(existing, base.devices, base, configured, name);
    assert Names(base.devices, name) <==> Names(scanned, name) by {
      assert forall i :: 0 <= i < |scanned| ==> base.devices[i].name == scanned[i].name;
    }
  }

  // ----- verified types survive

  /** `existing` has exactly one device of this name, and it is verified. */
  predicate KnownVerified(existing: seq<Device>, name: string) {
    CountName(existing, name) == 1 && existing[LastNamed(existing, name)].verified
  }

  predicate SameParser(d: Device, e: Device) {
    d.verified && d.kind == e.kind && d.parser == e.parser
  }

  lemma PreviousOfKnown(existing: seq<Device>, d: Device)
    requires CountName(existing, d.name) == 1
    ensures Previous(existing, d) == Some(existing[LastNamed(existing, d.name)])
  {
    var i := LastWithKey(existing, KeyOf(d));
    if i.Some? {
      OnlyNamed(existing, d.name, i.value);
    }
  }

  lemma {:induction false} ConfigureAllKeepsVerified(existing: seq<Device>, base: seq<Device>, m: Merging, configured: seq<Device>, name: string)
    requires KnownVerified(existing, name)
    requires WellFiled(m) && |base| <= |m.devices|
    requires forall i :: 0 <= i < |base| ==> m.devices[i].name == base[i].name
    requires forall i :: 0 <= i < |m.devices| && m.devices[i].name == name ==>
               SameParser(m.devices[i], existing[LastNamed(existing, name)])
    ensures var r := ConfigureAll(existing, base, m, configured).devices;
            forall i :: 0 <= i < |r| && r[i].name == name ==> SameParser(r[i], existing[LastNamed(existing, name)])
  {
    if configured != [] {
      var n := |configured| - 1;
      ConfigureAllKeepsVerified(existing, base, m, configured[..n], name);
      ConfigureAllKeeps(existing, base, m, configured[..n]);
      var p := ConfigureAll(existing, base, m, configured[..n]);
      ConfigureKeeps(existing, base, p, configured[n]);
      if configured[n].name == name {
        PreviousOfKnown(existing, configured[n]);
      }
    }
  }

  /** A name the previous list holds once and verified keeps its type and parser on every device of
      that name in the result. */
  lemma VerifiedTypeSurvives(existing: seq<Device>, scanned: seq<Device>, configured: seq<Device>, name: string)
    requires KnownVerified(existing, name)
    ensures var r := Merge(existing, scanned, configured);
            forall i :: 0 <= i < |r| && r[i].name == name ==> SameParser(r[i], existing[LastNamed(existing, name)])
  {
    ScanShape(existing, scanned);
    ScanWellFiled(existing, scanned);
    var base := Scan(existing, scanned);
    forall i | 0 <= i < |scanned| && scanned[i].name == name
      ensures SameParser(base.devices[i], existing[LastNamed(existing, name)])
    {
      PreviousOfKnown(existing, scanned[i]);
    }
    ConfigureAllKeepsVerified(existing, base.devices, base, configured, name);
    assert Merge(existing, scanned, configured) == ConfigureAll(existing, base.devices, base, configured).devices;
  }

  // ----- a name scanned once is described completely

  /** The configured devices of one name, applied one after the other. */
  function Overrides(d: Device, configured: seq<Device>): Device {
    var n := |configured| - 1;
    if configured == [] then d
    else
      var e := Overrides(d, configured[..n]);
      if configured[n].name == d.name then Override(e, configured[n]) else e
  }

  lemma {:induction false} OverridesKeepName(d: Device, configured: seq<Device>)
    ensures Overrides(d, configured).name == d.name
  {
    if configured != [] {
      OverridesKeepName(d, configured[..|configured| - 1]);
    }
  }

  /** Only position `at` holds this name, and the index files the name nowhere else. */
  ghost predicate OnlyAt(m: Merging, name: string, at: nat) {
    && at < |m.devices| && m.devices[at].name == name
    && (forall i :: 0 <= i < |m.devices| && m.devices[i].name == name ==> i == at)
    && (forall key :: key in m.index && key.name == name ==> m.index[key] == at)
  }

  lemma {:induction false} ConfigureUnambiguous(existing: seq<Device>, base: seq<Device>, m: Merging, configured: seq<Device>, name: string)
    requires WellFiled(m) && |base| <= |m.devices|
    requires forall i :: 0 <= i < |base| ==> m.devices[i].name == base[i].name
    requires CountName(base, name) == 1 && OnlyAt(m, name, LastNamed(base, name))
    ensures var r := ConfigureAll(existing, base, m, configured);
            var at := LastNamed(base, name);
            OnlyAt(r, name, at) && r.devices[at] == Overrides(m.devices[at], configured)
  {
    if configured != [] {
      var n := |configured| - 1;
      var rest, c := configured[..n], configured[n];
      ConfigureUnambiguous(existing, base, m, rest, name);
      ConfigureAllKeeps(existing, base, m, rest);
      ConfigureKeeps(existing, base, ConfigureAll(existing, base, m, rest), c);
      OverridesKeepName(m.devices[LastNamed(base, name)], rest);
    }
  }

  /** When the scan lists a name once, the result does too: at the scanned position, the scanned
      device with its verification, under all configured devices of that name in order. */
  lemma ScannedOnce(existing: seq<Device>, scanned: seq<Device>, configured: seq<Device>, name: string)
    requires CountName(scanned, name) == 1
    ensures var r := Merge(existing, scanned, configured);
            var at := LastNamed(scanned, name);
            && at < |r|
            && r[at] == Overrides(ScannedCopy(existing, scanned[at]), configured)
            && CountName(r, name) == 1 && LastNamed(r, name) == at
  {
    ScanShape(existing, scanned);
    ScanWellFiled(existing, scanned);
    var base := Scan(existing, scanned);
    var at := LastNamed(scanned, name);
    CountNameByNames(base.devices, scanned, name);
    OnlyNamed(base.devices, name, at);
    forall i | 0 <= i < |base.devices| && base.devices[i].name == name ensures i == at {
      OnlyNamed(base.devices, name, i);
    }
    ConfigureUnambiguous(existing, base.devices, base, configured, name);
    var r := Merge(existing, scanned, configured);
    CountOnlyAt(r, name, at);
  }

  lemma {:induction false} CountNone(ds: seq<Device>, name: string)
    requires !Names(ds, name)
    ensures CountName(ds, name) == 0
  {
    CountNamePositive(ds, name);
  }

  lemma {:induction false} CountOnlyAt(ds: seq<Device>, name: string, at: nat)
    requires at < |ds| && ds[at].name == name
    requires forall i :: 0 <= i < |ds| && ds[i].name == name ==> i == at
    ensures CountName(ds, name) == 1 && LastNamed(ds, name) == at
  {
    var n := |ds| - 1;
    if at < n {
      assert ds[..n][at] == ds[at];
      CountOnlyAt(ds[..n], name, at);
    } else {
      CountNone(ds[..n], name);
    }
  }

  /** Configuration wins over an unverified scan: the last configured type given for the name, trimmed,
      is the type, and its normal form is the parser. */
  lemma {:induction false} LastConfiguredTypeWins(d: Device, configured: seq<Device>, k: nat)
    requires !d.verified
    requires k < |configured| && configured[k].name == d.name && configured[k].kind != ""
    requires forall j :: k < j < |configured| && configured[j].name == d.name ==> configured[j].kind == ""
    ensures var r := Overrides(d, configured);
            !r.verified && r.kind == TrimSpace(configured[k].kind) && r.parser == NormalizeParserType(TrimSpace(configured[k].kind))
  {
    var n := |configured| - 1;
    OverridesStayUnverified(d, configured[..n]);
    if k < n {
      LastConfiguredTypeWins(d, configured[..n], k);
    }
  }

  lemma {:induction false} OverridesStayUnverified(d: Device, configured: seq<Device>)
    ensures Overrides(d, configured).verified == d.verified
    ensures d.verified ==> SameParser(Overrides(d, configured), d)
  {
    if configured != [] {
      OverridesStayUnverified(d, configured[..|configured| - 1]);
    }
  }

  // ----- over many scans

  datatype Round = Round(scanned: seq<Device>, configured: seq<Device>)

  /** The device list after several scans, each merged onto the one before. */
  function MergeRounds(existing: seq<Device>, rounds: seq<Round>): seq<Device>
    decreases |rounds|
  {
    if rounds == [] then existing
    else MergeRounds(Merge(existing, rounds[0].scanned, rounds[0].configured), rounds[1..])
  }

  /** A verified device is never downgraded, whatever is scanned and configured from then on, as long
      as each scan lists its name once. */
  lemma {:induction false} VerifiedForever(existing: seq<Device>, rounds: seq<Round>, name: string)
    requires KnownVerified(existing, name)
    requires forall i :: 0 <= i < |rounds| ==> CountName(rounds[i].scanned, name) == 1
    ensures var r := MergeRounds(existing, rounds);
            KnownVerified(r, name) && SameParser(r[LastNamed(r, name)], existing[LastNamed(existing, name)])
    decreases |rounds|
  {
    if rounds != [] {
      var next := Merge(existing, rounds[0].scanned, rounds[0].configured);
      ScannedOnce(existing, rounds[0].scanned, rounds[0].configured, name);
      VerifiedTypeSurvives(existing, rounds[0].scanned, rounds[0].configured, name);
      VerifiedForever(next, rounds[1..], name);
    }
  }

  // ----- choosing a parser

  const PARSERS: seq<string> := ["nvme", "sat", "scsi"]

  predicate EqualFold(a: string, b: string) {
    ToLower(a) == ToLower(b)
  }

  /** The device type a parse starts from: the known parser, or else the reported type. */
  function LikelyType(d: Device): string {
    if NormalizeParserType(d.parser) != "" then NormalizeParserType(d.parser) else NormalizeParserType(d.kind)
  }

  function Retyped(d: Device, kind: string): Device {
    if d.kind == "" || EqualFold(d.kind, kind) then d.(kind := kind) else d
  }

  predicate NeedsDetection(d: Device) {
    LikelyType(d) == "" || !d.verified
  }

  /** The device after the detection step; `detected` is what the output looks like. */
  function Detected(d: Device, detected: string): Device {
    var seeded := if d.parser == "" && LikelyType(d) in PARSERS then d.(parser := LikelyType(d)) else d;
    if !NeedsDetection(d) then seeded
    else
      Retyped(if LikelyType(d) != detected then seeded.(parser := detected, verified := false) else seeded, detected)
  }

  function PreferredParser(d: Device, detected: string): string {
    if NeedsDetection(d) then detected else LikelyType(d)
  }

  /** The order in which parsers are tried: the preferred one first, the rest in reserve. */
  function ParserOrder(preferred: string): (r: seq<string>)
    ensures forall p :: p in r <==> p in PARSERS
  {
    if preferred == "sat" then ["sat", "nvme", "scsi"]
    else if preferred == "scsi" then ["scsi", "nvme", "sat"]
    else PARSERS
  }

  function FirstAccepting(order: seq<string>, accepts: set<string>): Option<string> {
    if order == [] then None
    else if order[0] in accepts then Some(order[0])
    else FirstAccepting(order[1..], accepts)
  }

  /** `parseSmartOutput`; `accepts` are the parsers that find data in the output. */
  function Parsed(d: Device, detected: string, accepts: set<string>): (Device, bool) {
    var e := Detected(d, detected);
    match FirstAccepting(ParserOrder(PreferredParser(d, detected)), accepts)
    case Some(p) => (Retyped(e.(parser := p), p).(verified := true), true)
    case None => (e.(verified := false), false)
  }

  lemma {:induction false} FirstAcceptingMeaning(order: seq<string>, accepts: set<string>)
    ensures FirstAccepting(order, accepts) == None <==> forall p :: p in order ==> p !in accepts
    ensures FirstAccepting(order, accepts).Some? ==>
              exists i :: 0 <= i < |order| && order[i] == FirstAccepting(order, accepts).value && order[i] in accepts
                          && forall j :: 0 <= j < i ==> order[j] !in accepts
  {
    if order != [] {
      FirstAcceptingMeaning(order[1..], accepts);
      assert order == [order[0]] + order[1..];
      if order[0] !in accepts && FirstAccepting(order, accepts).Some? {
        var i :| 0 <= i < |order[1..]| && order[1..][i] == FirstAccepting(order, accepts).value && order[1..][i] in accepts
                 && forall j :: 0 <= j < i ==> order[1..][j] !in accepts;
        assert forall j :: 0 < j < i + 1 ==> order[j] == order[1..][j - 1];
        assert order[i + 1] in accepts;
      }
    }
  }

  /** Of a device, only the verification, the parser, and an unset or differently spelled type differ. */
  predicate SameButParser(d: Device, e: Device) {
    && e.name == d.name && e.infoName == d.infoName && e.protocol == d.protocol
    && (d.kind == "" || EqualFold(e.kind, d.kind))
  }

  lemma DetectedKeeps(d: Device, detected: string)
    ensures SameButParser(d, Detected(d, detected))
  {
  }

  lemma PreferredComesFirst(preferred: string, accepts: set<string>)
    requires preferred in PARSERS && preferred in accepts
    ensures FirstAccepting(ParserOrder(preferred), accepts) == Some(preferred)
  {
  }

  /** A wrong hint never leaves a device unparsed: parsing succeeds exactly when some parser accepts
      the output. The device is verified exactly then, with the first accepting parser in the order of
      preference, the preferred one when that accepts. Nothing else of it changes but an unset or differently
      spelled type. */
  lemma ParseOutcome(d: Device, detected: string, accepts: set<string>)
    ensures var (e, ok) := Parsed(d, detected, accepts);
            var preferred := PreferredParser(d, detected);
            && (ok <==> exists p :: p in PARSERS && p in accepts)
            && e.verified == ok
            && (ok ==> e.parser in accepts && e.parser in PARSERS)
            && (ok ==> FirstAccepting(ParserOrder(preferred), accepts) == Some(e.parser))
            && (preferred in PARSERS && preferred in accepts ==> e.parser == preferred)
            && SameButParser(d, e)
  {
    var preferred := PreferredParser(d, detected);
    var e := Detected(d, detected);
    DetectedKeeps(d, detected);
    FirstAcceptingMeaning(ParserOrder(preferred), accepts);
    if preferred in PARSERS && preferred in accepts {
      PreferredComesFirst(preferred, accepts);
    }
    ParsedAs(d, e, detected, FirstAccepting(ParserOrder(preferred), accepts), accepts);
  }

  lemma ParsedAs(d: Device, e: Device, detected: string, found: Option<string>, accepts: set<string>)
    requires SameButParser(d, e) && e == Detected(d, detected)
    requires found == FirstAccepting(ParserOrder(PreferredParser(d, detected)), accepts)
    ensures var (r, ok) := Parsed(d, detected, accepts);
            && ok == found.Some? && r.verified == ok && SameButParser(d, r)
            && (ok ==> r.parser == found.value)
  {
  }

  lemma ParsersAreNormal(parser: string)
    requires parser in PARSERS
    ensures NormalizeParserType(parser) == parser && parser != ""
  {
    assert TrimSpace(parser) == parser && ToLower(parser) == parser;
  }

  lemma VerifiedIsNotDetected(d: Device, detected: string)
    requires d.verified && d.parser in PARSERS
    ensures Detected(d, detected) == d && PreferredParser(d, detected) == d.parser
  {
    ParsersAreNormal(d.parser);
    hide NormalizeParserType;
  }

  /** A verified device whose parser still accepts is parsed without detection. It keeps its record, but for
      a type that is not set, or is the parser's name in other letters: this becomes the parser's name. */
  lemma VerifiedParseIsStable(d: Device, detected: string, accepts: set<string>)
    requires d.verified && d.parser in PARSERS && d.parser in accepts
    ensures Parsed(d, detected, accepts)
         == (if d.kind == "" || EqualFold(d.kind, d.parser) then d.(kind := d.parser) else d, true)
    ensures Parsed(d, detected, accepts) == (d, true)
       <==> d.kind == d.parser || (d.kind != "" && !EqualFold(d.kind, d.parser))
  {
    hide NormalizeParserType, EqualFold, Detected, PreferredParser, ParserOrder;
    VerifiedIsNotDetected(d, detected);
    PreferredComesFirst(d.parser, accepts);
    assert d.parser != "" by { ParsersAreNormal(d.parser); }
  }
}
