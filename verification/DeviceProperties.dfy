/** What merging SMART device lists promises of single devices (agent/smart.go): which verification a device
    inherits, on which device a configured one lands, and which parser is tried. */
module DeviceProperties {
  import opened Options
  import opened GoStrings
  import opened DeviceMerge

  // ----- inherited verification

  /** The two devices have the same name and type. */
  predicate SameKey(d: Device, e: Device) {
    d.name == e.name && d.kind == e.kind
  }

  /** `j` is the last earlier device of the name and type of `d`. */
  ghost predicate LastOfKey(existing: seq<Device>, d: Device, j: nat) {
    && j < |existing| && SameKey(existing[j], d)
    && forall h :: j < h < |existing| ==> !SameKey(existing[h], d)
  }

  /** No earlier device has the name and type of `d`, and `j` is the only one of its name. */
  ghost predicate OnlyOfName(existing: seq<Device>, d: Device, j: nat) {
    && (forall h :: 0 <= h < |existing| ==> !SameKey(existing[h], d))
    && j < |existing| && existing[j].name == d.name
    && forall h :: 0 <= h < |existing| && existing[h].name == d.name ==> h == j
  }

  ghost predicate Precedes(existing: seq<Device>, d: Device, j: nat) {
    LastOfKey(existing, d, j) || OnlyOfName(existing, d, j)
  }

  lemma {:induction false} LastWithKeyMeaning(existing: seq<Device>, d: Device)
    ensures match LastWithKey(existing, KeyOf(d))
            case Some(j) => LastOfKey(existing, d, j)
            case None => forall h :: 0 <= h < |existing| ==> !SameKey(existing[h], d)
  {
    if existing != [] {
      var n := |existing| - 1;
      LastWithKeyMeaning(existing[..n], d);
      assert forall h :: 0 <= h < n ==> existing[h] == existing[..n][h];
    }
  }

  lemma LastOfKeyIsUnique(existing: seq<Device>, d: Device, i: nat, j: nat)
    requires LastOfKey(existing, d, i) && LastOfKey(existing, d, j)
    ensures i == j
  {
  }

  /** The record looked up is the one that precedes, if there is any. */
  lemma PreviousMeaning(existing: seq<Device>, d: Device)
    ensures forall j: nat :: Precedes(existing, d, j) ==> Previous(existing, d) == Some(existing[j])
    ensures (forall j: nat :: !Precedes(existing, d, j)) ==> Previous(existing, d) == None
  {
    LastWithKeyMeaning(existing, d);
    var i := LastWithKey(existing, KeyOf(d));
    forall j: nat | Precedes(existing, d, j) ensures Previous(existing, d) == Some(existing[j]) {
      if i.Some? {
        LastOfKeyIsUnique(existing, d, i.value, j);
      } else {
        CountOnlyAt(existing, d.name, j);
      }
    }
    if i.Some? {
      assert Precedes(existing, d, i.value);
    } else if CountName(existing, d.name) == 1 {
      var j := LastNamed(existing, d.name);
      forall h | 0 <= h < |existing| && existing[h].name == d.name ensures h == j { OnlyNamed(existing, d.name, h); }
      assert Precedes(existing, d, j);
    }
  }

  /** A device that was verified keeps type and parser under configured devices. */
  lemma {:induction false} OverrideAllKeepsVerified(d: Device, cs: seq<Device>)
    ensures OverrideAll(d, cs).verified == d.verified
    ensures d.verified ==> OverrideAll(d, cs).kind == d.kind && OverrideAll(d, cs).parser == d.parser
    decreases |cs|
  {
    if cs != [] { OverrideAllKeepsVerified(Override(d, cs[0]), cs[1..]); }
  }

  /** What a merged device has of the verification of the device that it was made from. */
  ghost predicate Inherits(existing: seq<Device>, d: Device, merged: Device) {
    && (forall j: nat :: Precedes(existing, d, j) && existing[j].verified ==>
          merged.verified && merged.kind == existing[j].kind && merged.parser == existing[j].parser)
    && ((forall j: nat :: Precedes(existing, d, j) ==> !existing[j].verified) ==>
          merged.verified == d.verified && (d.verified ==> merged.kind == d.kind))
  }

  /** However often its name occurs: if the last earlier device of a scanned device's name and type is verified,
      or, without any of that name and type, the only one of its name, the merged device at that position is
      verified, with that one's type and parser. Otherwise it is verified only if it was scanned so. */
  lemma ScannedInherits(existing: seq<Device>, scanned: seq<Device>, configured: seq<Device>, i: nat)
    requires i < |scanned|
    ensures i < |Merge(existing, scanned, configured)|
    ensures Inherits(existing, scanned[i], Merge(existing, scanned, configured)[i])
  {
    hide Merge, Applied, Added;
    MergeOrder(existing, scanned, configured);
    PreviousMeaning(existing, scanned[i]);
    OverrideAllKeepsVerified(ScannedCopy(existing, scanned[i]), Applied(existing, scanned, configured, i));
    hide Precedes;
  }

  /** Which configured device the `j`th one listed by itself is made from. */
  function Origin(existing: seq<Device>, base: seq<Device>, filed: set<Key>, configured: seq<Device>, j: nat): (at: nat)
    requires j < |Unmatched(existing, base, filed, configured)|
    ensures at < |configured|
    ensures Unmatched(existing, base, filed, configured)[j] == ConfiguredCopy(existing, configured[at])
    decreases |configured|
  {
    var c := configured[0];
    if Matches(base, filed, c) then 1 + Origin(existing, base, filed, configured[1..], j)
    else if j == 0 then 0
    else 1 + Origin(existing, base, filed + {KeyOf(ConfiguredCopy(existing, c))}, configured[1..], j - 1)
  }

  lemma {:induction false} OriginsInOrder(existing: seq<Device>, base: seq<Device>, filed: set<Key>, configured: seq<Device>, j: nat, k: nat)
    requires j < k < |Unmatched(existing, base, filed, configured)|
    ensures Origin(existing, base, filed, configured, j) < Origin(existing, base, filed, configured, k)
    decreases |configured|
  {
    hide ConfiguredCopy;
    var c := configured[0];
    if Matches(base, filed, c) {
      OriginsInOrder(existing, base, filed, configured[1..], j, k);
    } else if j > 0 {
      OriginsInOrder(existing, base, filed + {KeyOf(ConfiguredCopy(existing, c))}, configured[1..], j - 1, k - 1);
    }
  }

  /** Which configured device the merge lists by itself as number `j`. */
  function AddedFrom(existing: seq<Device>, scanned: seq<Device>, configured: seq<Device>, j: nat): (at: nat)
    requires j < |Added(existing, scanned, configured)|
    ensures at < |configured|
  {
    var base := Scan(existing, scanned);
    Origin(existing, base.devices, base.index.Keys, configured, j)
  }

  /** The parser with which a configured device is listed by itself: inherited, or else decided by its type. */
  ghost predicate FiledAs(existing: seq<Device>, c: Device, parser: string) {
    && (forall j: nat :: Precedes(existing, c, j) ==> parser == if existing[j].verified then existing[j].parser else c.parser)
    && ((forall j: nat :: !Precedes(existing, c, j)) ==> parser == if c.kind != "" then NormalizeParserType(c.kind) else c.parser)
  }

  /** The same for the configured devices that are listed by themselves, which come in order. */
  lemma AddedInherits(existing: seq<Device>, scanned: seq<Device>, configured: seq<Device>, j: nat)
    requires j < |Added(existing, scanned, configured)|
    ensures |scanned| + j < |Merge(existing, scanned, configured)|
    ensures Inherits(existing, configured[AddedFrom(existing, scanned, configured, j)], Merge(existing, scanned, configured)[|scanned| + j])
    ensures FiledAs(existing, configured[AddedFrom(existing, scanned, configured, j)], Added(existing, scanned, configured)[j].parser)
    ensures forall i: nat :: i < j ==> AddedFrom(existing, scanned, configured, i) < AddedFrom(existing, scanned, configured, j)
  {
    hide Merge, Applied, Unmatched, Scan;
    var c := configured[AddedFrom(existing, scanned, configured, j)];
    MergeOrder(existing, scanned, configured);
    PreviousMeaning(existing, c);
    OverrideAllKeepsVerified(Added(existing, scanned, configured)[j], Applied(existing, scanned, configured, |scanned| + j));
    var base := Scan(existing, scanned);
    forall i: nat | i < j ensures AddedFrom(existing, scanned, configured, i) < AddedFrom(existing, scanned, configured, j) {
      OriginsInOrder(existing, base.devices, base.index.Keys, configured, i, j);
    }
    hide Precedes, NormalizeParserType;
  }

  // ----- where a configured device lands

  /** `p` is the last position filed under the key. */
  predicate FiledLast(filed: seq<Key>, key: Key, p: nat) {
    p < |filed| && filed[p] == key && forall h :: p < h < |filed| ==> filed[h] != key
  }

  /** The keys under which the devices of a merge are filed, in order. */
  ghost predicate Filing(m: Merging, filed: seq<Key>) {
    && |filed| == |m.devices|
    && (forall key :: key in m.index <==> key in filed)
    && (forall key :: key in m.index ==> FiledLast(filed, key, m.index[key]))
  }

  lemma FilingAppend(m: Merging, filed: seq<Key>, d: Device)
    requires Filing(m, filed)
    ensures Filing(Append(m, d), filed + [KeyOf(d)])
  {
  }

  lemma ScanIsFiled(existing: seq<Device>, scanned: seq<Device>) returns (filed: seq<Key>)
    ensures Filing(Scan(existing, scanned), filed) && |filed| == |scanned|
    ensures forall i :: 0 <= i < |scanned| ==> filed[i] == KeyOf(ScannedCopy(existing, scanned[i]))
  {
    filed := [];
    if scanned != [] {
      var n := |scanned| - 1;
      filed := ScanIsFiled(existing, scanned[..n]);
      FilingAppend(Scan(existing, scanned[..n]), filed, ScannedCopy(existing, scanned[n]));
      filed := filed + [KeyOf(ScannedCopy(existing, scanned[n]))];
    }
  }

  /** Every device of the merge is filed under its name and the type it had when it was listed. */
  lemma {:induction false} MergeIsFiled(existing: seq<Device>, scanned: seq<Device>, configured: seq<Device>) returns (filed: seq<Key>)
    ensures Filing(Merged(existing, scanned, configured), filed) && |filed| >= |scanned|
    ensures forall i :: 0 <= i < |scanned| ==> filed[i] == KeyOf(ScannedCopy(existing, scanned[i]))
    decreases |configured|
  {
    var base := Scan(existing, scanned);
    if configured == [] {
      filed := ScanIsFiled(existing, scanned);
    } else {
      var n := |configured| - 1;
      filed := MergeIsFiled(existing, scanned, configured[..n]);
      var m := Merged(existing, scanned, configured[..n]);
      if Match(base.devices, m, configured[n]) == None {
        FilingAppend(m, filed, ConfiguredCopy(existing, configured[n]));
        filed := filed + [KeyOf(ConfiguredCopy(existing, configured[n]))];
      }
    }
  }

  /** `p` is the only scanned device of the name. */
  predicate ScannedOnlyAt(scanned: seq<Device>, name: string, p: nat) {
    && p < |scanned| && scanned[p].name == name
    && forall h :: 0 <= h < |scanned| && scanned[h].name == name ==> h == p
  }

  /** Adding a configured device to the merge changes the device last filed under its name and type; or else the
      only scanned one of its name; or else it is listed by itself. Nothing else changes. */
  lemma LandsExactly(existing: seq<Device>, scanned: seq<Device>, configured: seq<Device>, c: Device) returns (filed: seq<Key>)
    ensures |filed| == |Merge(existing, scanned, configured)|
    ensures forall i :: 0 <= i < |scanned| ==> i < |filed| && filed[i] == KeyOf(ScannedCopy(existing, scanned[i]))
    ensures var before := Merge(existing, scanned, configured);
            var after := Merge(existing, scanned, configured + [c]);
            && (forall p: nat :: FiledLast(filed, KeyOf(c), p) ==> after == before[p := Override(before[p], c)])
            && (KeyOf(c) !in filed ==>
                  && (forall p: nat :: ScannedOnlyAt(scanned, c.name, p) ==> p < |before| && after == before[p := Override(before[p], c)])
                  && ((forall p: nat :: !ScannedOnlyAt(scanned, c.name, p)) ==> after == before + [ConfiguredCopy(existing, c)]))
  {
    hide Scan, ConfigureAll, Override, ConfiguredCopy, ScannedCopy;
    filed := MergeIsFiled(existing, scanned, configured);
    var base := Scan(existing, scanned);
    var m := Merged(existing, scanned, configured);
    ConfigureNext(existing, base.devices, base, configured, c);
    ScannedAt(existing, scanned, c.name);
    if KeyOf(c) in filed {
      assert KeyOf(c) in m.index;
      forall p: nat | FiledLast(filed, KeyOf(c), p) ensures p == m.index[KeyOf(c)] {
      }
    }
  }

  lemma ScannedAt(existing: seq<Device>, scanned: seq<Device>, name: string)
    ensures var base := Scan(existing, scanned).devices;
            && |base| == |scanned|
            && (forall p: nat :: ScannedOnlyAt(scanned, name, p) ==> CountName(base, name) == 1 && LastNamed(base, name) == p)
            && ((forall p: nat :: !ScannedOnlyAt(scanned, name, p)) ==> CountName(base, name) != 1)
  {
    ScanShape(existing, scanned);
    var base := Scan(existing, scanned).devices;
    assert forall i :: 0 <= i < |scanned| ==> base[i].name == scanned[i].name;
    forall p: nat | ScannedOnlyAt(scanned, name, p) ensures CountName(base, name) == 1 && LastNamed(base, name) == p {
      CountOnlyAt(base, name, p);
    }
    if CountName(base, name) == 1 {
      var p := LastNamed(base, name);
      forall h | 0 <= h < |scanned| && scanned[h].name == name ensures h == p { OnlyNamed(base, name, h); }
      assert ScannedOnlyAt(scanned, name, p);
    }
  }

  // ----- configured metadata

  lemma OverrideInfo(d: Device, c: Device)
    ensures var r := Override(d, c);
            && r.name == d.name
            && r.infoName == (if c.infoName != "" then c.infoName else d.infoName)
            && r.protocol == (if c.protocol != "" then c.protocol else d.protocol)
  {
    hide NormalizeParserType, TrimSpace;
  }

  /** The last configured name to display that is given for the device wins; without one it keeps its own. */
  lemma {:induction false} LastConfiguredInfoWins(d: Device, configured: seq<Device>)
    ensures var r := Overrides(d, configured);
            && r.name == d.name
            && (forall k: nat :: k < |configured| && GivesInfoLast(d, configured, k) ==> r.infoName == configured[k].infoName)
            && ((forall k: nat :: k < |configured| && configured[k].name == d.name ==> configured[k].infoName == "") ==> r.infoName == d.infoName)
  {
    hide Override;
    OverridesKeepName(d, configured);
    if configured != [] {
      var n := |configured| - 1;
      var rest := configured[..n];
      LastConfiguredInfoWins(d, rest);
      OverrideInfo(Overrides(d, rest), configured[n]);
      assert forall k: nat :: k < n ==> rest[k] == configured[k];
      forall k: nat | k < n ensures GivesInfoLast(d, configured, k) ==> GivesInfoLast(d, rest, k) {
      }
    }
  }

  /** So does the last configured protocol. */
  lemma {:induction false} LastConfiguredProtocolWins(d: Device, configured: seq<Device>)
    ensures var r := Overrides(d, configured);
            && (forall k: nat :: k < |configured| && GivesProtocolLast(d, configured, k) ==> r.protocol == configured[k].protocol)
            && ((forall k: nat :: k < |configured| && configured[k].name == d.name ==> configured[k].protocol == "") ==> r.protocol == d.protocol)
  {
    hide Override;
    OverridesKeepName(d, configured);
    if configured != [] {
      var n := |configured| - 1;
      var rest := configured[..n];
      LastConfiguredProtocolWins(d, rest);
      OverrideInfo(Overrides(d, rest), configured[n]);
      assert forall k: nat :: k < n ==> rest[k] == configured[k];
      forall k: nat | k < n ensures GivesProtocolLast(d, configured, k) ==> GivesProtocolLast(d, rest, k) {
      }
    }
  }

  predicate GivesInfoLast(d: Device, configured: seq<Device>, k: nat)
    requires k < |configured|
  {
    && configured[k].name == d.name && configured[k].infoName != ""
    && forall j :: k < j < |configured| && configured[j].name == d.name ==> configured[j].infoName == ""
  }

  predicate GivesProtocolLast(d: Device, configured: seq<Device>, k: nat)
    requires k < |configured|
  {
    && configured[k].name == d.name && configured[k].protocol != ""
    && forall j :: k < j < |configured| && configured[j].name == d.name ==> configured[j].protocol == ""
  }

  // ----- parser names

  /** The names of types that mean a parser, and no other type becomes a parser's name. */
  lemma ParserNames(value: string)
    ensures var v := ToLower(TrimSpace(value));
            && (NormalizeParserType(value) == "nvme" <==> v in ["nvme", "sntasmedia", "sntrealtek"])
            && (NormalizeParserType(value) == "sat" <==> v in ["sat", "ata"])
            && (NormalizeParserType(value) == "scsi" <==> v == "scsi")
            && (NormalizeParserType(value) !in PARSERS ==> NormalizeParserType(value) == v)
  {
  }

  /** A device that is not verified yet is parsed by the parser its output looks like, if that accepts it, whatever
      its type says; otherwise by the first of NVMe, SATA and SCSI that does. */
  lemma UnverifiedParsesAsDetected(d: Device, detected: string, accepts: set<string>)
    requires !d.verified
    ensures var (e, ok) := Parsed(d, detected, accepts);
            && (detected in ["nvme", "sat", "scsi"] && detected in accepts ==> ok && e.parser == detected)
            && (!(detected in ["nvme", "sat", "scsi"] && detected in accepts) ==>
                  && ("nvme" in accepts ==> ok && e.parser == "nvme")
                  && ("nvme" !in accepts && "sat" in accepts ==> ok && e.parser == "sat")
                  && ("nvme" !in accepts && "sat" !in accepts && "scsi" in accepts ==> ok && e.parser == "scsi"))
  {
    hide Detected, NormalizeParserType, EqualFold;
    FirstOfThree("nvme", "sat", "scsi", accepts);
    FirstOfThree("sat", "nvme", "scsi", accepts);
    FirstOfThree("scsi", "nvme", "sat", accepts);
  }

  lemma FirstOfThree(a: string, b: string, c: string, accepts: set<string>)
    ensures FirstAccepting([a, b, c], accepts)
         == if a in accepts then Some(a) else if b in accepts then Some(b) else if c in accepts then Some(c) else None
  {
    assert [a, b, c][1..] == [b, c] && [b, c][1..] == [c] && [c][1..] == [];
    assert FirstAccepting([c], accepts) == if c in accepts then Some(c) else FirstAccepting([], accepts);
    assert FirstAccepting([b, c], accepts) == if b in accepts then Some(b) else FirstAccepting([c], accepts);
  }
}
