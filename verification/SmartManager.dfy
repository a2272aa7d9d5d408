/** The SMART manager of agent/smart.go on device objects: merging device lists, dropping excluded
    devices, pruning cached data, and choosing a parser. */
module SmartManager {
  import opened Options
  import opened GoStrings
  import opened DeviceMerge

  class DeviceInfo {
    var name: string
    var kind: string
    var infoName: string
    var protocol: string
    var typeVerified: bool
    var parserType: string

    function Value(): Device
      reads this
    {
      Device(name, kind, infoName, protocol, typeVerified, parserType)
    }

    constructor (d: Device)
      ensures Value() == d
    {
      name, kind, infoName, protocol := d.name, d.kind, d.infoName, d.protocol;
      typeVerified, parserType := d.verified, d.parser;
    }
  }

  /** The devices a loop over the list does not skip. */
  function Named(devices: seq<DeviceInfo?>): (r: seq<DeviceInfo>)
    reads devices
  {
    var n := |devices| - 1;
    if devices == [] then []
    else if devices[n] == null || devices[n].name == "" then Named(devices[..n])
    else Named(devices[..n]) + [devices[n]]
  }

  function NonNull(devices: seq<DeviceInfo?>): seq<DeviceInfo>
    requires null !in devices
  {
    devices
  }

  function Values(devices: seq<DeviceInfo>): (r: seq<Device>)
    reads devices
    ensures |r| == |devices|
  {
    seq(|devices|, i requires 0 <= i < |devices| reads devices => devices[i].Value())
  }

  lemma {:induction false} NamedOnly(devices: seq<DeviceInfo?>)
    ensures forall i :: 0 <= i < |Named(devices)| ==> Named(devices)[i].name != "" && Named(devices)[i] in devices
  {
    if devices != [] {
      NamedOnly(devices[..|devices| - 1]);
    }
  }

  /** Exactly the devices that are there and have a name. */
  lemma {:induction false} NamedMeaning(devices: seq<DeviceInfo?>, d: DeviceInfo)
    ensures d in Named(devices) <==> d in devices && d.name != ""
  {
    if devices != [] {
      var n := |devices| - 1;
      assert devices == devices[..n] + [devices[n]];
      NamedMeaning(devices[..n], d);
    }
  }

  lemma NamedStep(devices: seq<DeviceInfo?>, i: nat)
    requires i < |devices|
    ensures var d := devices[i];
            && (d == null || d.name == "" ==> Named(devices[..i + 1]) == Named(devices[..i]))
            && (d != null && d.name != "" ==>
                  && Named(devices[..i + 1]) == Named(devices[..i]) + [d]
                  && Values(Named(devices[..i + 1])) == Values(Named(devices[..i])) + [d.Value()])
  {
    assert devices[..i + 1][..i] == devices[..i];
  }

  lemma {:induction false} NamedAll(devices: seq<DeviceInfo>)
    requires forall d :: d in devices ==> d.name != ""
    ensures Named(devices) == devices
  {
    if devices != [] {
      var n := |devices| - 1;
      assert forall d :: d in devices[..n] ==> d in devices;
      NamedAll(devices[..n]);
    }
  }

  method CountNames(devices: seq<DeviceInfo?>) returns (counts: map<string, nat>)
    ensures forall name :: CountName(Values(Named(devices)), name) == if name in counts then counts[name] else 0
  {
    counts := map[];
    for i := 0 to |devices|
      invariant forall name :: CountName(Values(Named(devices[..i])), name) == if name in counts then counts[name] else 0
    {
      NamedStep(devices, i);
      var d := devices[i];
      if d == null || d.name == "" {
        continue;
      }
      AppendDevice(Values(Named(devices[..i])), d.Value());
      counts := counts[d.name := (if d.name in counts then counts[d.name] else 0) + 1];
    }
    assert devices[..|devices|] == devices;
  }

  /** `index` gives, for every name that counts once in `all`, its device among `done`. */
  ghost predicate IndexesUnique(index: map<string, DeviceInfo>, done: seq<DeviceInfo>, all: seq<Device>)
    reads done
  {
    && (forall name :: name in index <==> CountName(all, name) == 1 && CountName(Values(done), name) > 0)
    && (forall name :: name in index ==> index[name] == done[LastNamed(Values(done), name)])
  }

  lemma IndexesNext(index: map<string, DeviceInfo>, done: seq<DeviceInfo>, all: seq<Device>, d: DeviceInfo)
    requires IndexesUnique(index, done, all)
    ensures IndexesUnique(if CountName(all, d.name) == 1 then index[d.name := d] else index, done + [d], all)
  {
    assert Values(done + [d]) == Values(done) + [d.Value()];
    AppendDevice(Values(done), d.Value());
  }

  /** The devices that appear once by name. */
  method BuildUniqueNameIndex(devices: seq<DeviceInfo?>) returns (unique: map<string, DeviceInfo>)
    ensures IndexesUnique(unique, Named(devices), Values(Named(devices)))
  {
    var counts := CountNames(devices);
    unique := map[];
    ghost var all := Values(Named(devices));
    for i := 0 to |devices|
      invariant all == Values(Named(devices))
      invariant IndexesUnique(unique, Named(devices[..i]), all)
    {
      NamedStep(devices, i);
      var d := devices[i];
      if d == null || d.name == "" {
        continue;
      }
      IndexesNext(unique, Named(devices[..i]), all, d);
      if d.name in counts && counts[d.name] == 1 {
        unique := unique[d.name := d];
      }
    }
    assert devices[..|devices|] == devices;
  }

  // ----- merging

  /** The index of devices by key. */
  method BuildKeyIndex(devices: seq<DeviceInfo?>) returns (index: map<Key, DeviceInfo>)
    ensures var named := Named(devices);
            && (forall key :: key in index <==> LastWithKey(Values(named), key).Some?)
            && (forall key :: key in index ==> index[key] == named[LastWithKey(Values(named), key).value])
  {
    index := map[];
    for i := 0 to |devices|
      invariant var done := Named(devices[..i]);
                && (forall key :: key in index <==> LastWithKey(Values(done), key).Some?)
                && (forall key :: key in index ==> index[key] == done[LastWithKey(Values(done), key).value])
    {
      NamedStep(devices, i);
      var d := devices[i];
      if d == null || d.name == "" {
        continue;
      }
      AppendDevice(Values(Named(devices[..i])), d.Value());
      index := index[Key(d.name, d.kind) := d];
    }
    assert devices[..|devices|] == devices;
  }

  /** `preserveVerifiedType`. */
  method PreserveVerifiedType(target: DeviceInfo, prev: DeviceInfo)
    requires target != prev
    modifies target
    ensures target.Value() == Preserve(old(target.Value()), Some(prev.Value()))
    ensures prev.typeVerified ==> target.kind == prev.kind && target.typeVerified && target.parserType == prev.parserType
    ensures !prev.typeVerified ==> target.Value() == old(target.Value())
  {
    if !prev.typeVerified {
      return;
    }
    target.kind := prev.kind;
    target.typeVerified := true;
    target.parserType := prev.parserType;
  }

  /** `applyConfiguredMetadata`. */
  method ApplyConfiguredMetadata(existingDev: DeviceInfo, configuredDev: DeviceInfo)
    requires existingDev != configuredDev
    modifies existingDev
    ensures existingDev.Value() == Override(old(existingDev.Value()), configuredDev.Value())
    ensures existingDev.typeVerified == old(existingDev.typeVerified) && existingDev.name == old(existingDev.name)
    ensures existingDev.typeVerified || configuredDev.kind == "" ==>
              existingDev.kind == old(existingDev.kind) && existingDev.parserType == old(existingDev.parserType)
    ensures existingDev.infoName == if configuredDev.infoName != "" then configuredDev.infoName else old(existingDev.infoName)
    ensures existingDev.protocol == if configuredDev.protocol != "" then configuredDev.protocol else old(existingDev.protocol)
  {
    if configuredDev.kind != "" && !existingDev.typeVerified {
      var newType := TrimSpace(configuredDev.kind);
      existingDev.kind := newType;
      existingDev.typeVerified := false;
      existingDev.parserType := NormalizeParserType(newType);
    }
    if configuredDev.infoName != "" {
      existingDev.infoName := configuredDev.infoName;
    }
    if configuredDev.protocol != "" {
      existingDev.protocol := configuredDev.protocol;
    }
  }

  /** The two indexes over the previous devices `olds`, whose values are `existing`. */
  ghost predicate PreviousIndexed(byKey: map<Key, DeviceInfo>, byName: map<string, DeviceInfo>, olds: seq<DeviceInfo>, existing: seq<Device>)
    requires |olds| == |existing|
  {
    && (forall key :: key in byKey <==> LastWithKey(existing, key).Some?)
    && (forall key :: key in byKey ==> byKey[key] == olds[LastWithKey(existing, key).value])
    && (forall name :: name in byName <==> CountName(existing, name) == 1)
    && (forall name :: name in byName ==> byName[name] == olds[LastNamed(existing, name)])
  }

  /** Fresh, distinct objects with the merged values, and the key index pointing into them. */
  ghost predicate Represents(devices: seq<DeviceInfo>, index: map<Key, DeviceInfo>, m: Merging)
    reads devices
  {
    && Values(devices) == m.devices
    && index.Keys == m.index.Keys
    && (forall key :: key in index ==> m.index[key] < |devices| && index[key] == devices[m.index[key]])
    && (forall i, j :: 0 <= i < j < |devices| ==> devices[i] != devices[j])
  }

  lemma RepresentsAppend(devices: seq<DeviceInfo>, index: map<Key, DeviceInfo>, m: Merging, d: DeviceInfo)
    requires Represents(devices, index, m) && d !in devices
    ensures Represents(devices + [d], index[KeyOf(d.Value()) := d], Append(m, d.Value()))
  {
    assert Values(devices + [d]) == Values(devices) + [d.Value()];
  }

  /** The loop body for a scanned device: a copy that keeps an earlier verification. */
  method CopyScanned(scannedDevice: DeviceInfo, byKey: map<Key, DeviceInfo>, byName: map<string, DeviceInfo>,
                     ghost olds: seq<DeviceInfo>, ghost existing: seq<Device>)
    returns (copyDev: DeviceInfo)
    requires Values(olds) == existing && PreviousIndexed(byKey, byName, olds, existing)
    ensures fresh(copyDev) && copyDev.Value() == ScannedCopy(existing, scannedDevice.Value())
    ensures copyDev.name == scannedDevice.name
  {
    copyDev := new DeviceInfo(scannedDevice.Value());
    var key := Key(copyDev.name, copyDev.kind);
    if key in byKey {
      PreserveVerifiedType(copyDev, byKey[key]);
    } else if copyDev.name in byName {
      PreserveVerifiedType(copyDev, byName[copyDev.name]);
    }
  }

  /** The same for a configured device that matches nothing. */
  method CopyConfigured(configuredDevice: DeviceInfo, byKey: map<Key, DeviceInfo>, byName: map<string, DeviceInfo>,
                        ghost olds: seq<DeviceInfo>, ghost existing: seq<Device>)
    returns (copyDev: DeviceInfo)
    requires Values(olds) == existing && PreviousIndexed(byKey, byName, olds, existing)
    ensures fresh(copyDev) && copyDev.Value() == ConfiguredCopy(existing, configuredDevice.Value())
  {
    copyDev := new DeviceInfo(configuredDevice.Value());
    var key := Key(copyDev.name, copyDev.kind);
    if key in byKey {
      PreserveVerifiedType(copyDev, byKey[key]);
    } else if copyDev.name in byName {
      PreserveVerifiedType(copyDev, byName[copyDev.name]);
    } else if copyDev.kind != "" {
      copyDev.parserType := NormalizeParserType(copyDev.kind);
    }
  }

  /** The first loop of `mergeDeviceLists`. */
  method MergeScanned(scanned: seq<DeviceInfo?>, byKey: map<Key, DeviceInfo>, byName: map<string, DeviceInfo>,
                      ghost olds: seq<DeviceInfo>, ghost existing: seq<Device>)
    returns (devices: seq<DeviceInfo>, index: map<Key, DeviceInfo>)
    requires Values(olds) == existing && PreviousIndexed(byKey, byName, olds, existing)
    ensures Represents(devices, index, Scan(existing, old(Values(Named(scanned)))))
    ensures forall j :: 0 <= j < |devices| ==> fresh(devices[j]) && devices[j].name != ""
  {
    hide ScannedCopy;
    devices, index := [], map[];
    forall i | 0 <= i < |scanned| { NamedStep(scanned, i); }
    for i := 0 to |scanned|
      invariant Values(olds) == existing
      invariant Represents(devices, index, Scan(existing, old(Values(Named(scanned[..i])))))
      invariant forall j :: 0 <= j < |devices| ==> fresh(devices[j]) && devices[j].name != ""
    {
      var scannedDevice := scanned[i];
      if scannedDevice == null || scannedDevice.name == "" {
        continue;
      }
      ghost var m := Scan(existing, old(Values(Named(scanned[..i]))));
      ScanNext(existing, old(Values(Named(scanned[..i]))), scannedDevice.Value());
      var copyDev := CopyScanned(scannedDevice, byKey, byName, olds, existing);
      RepresentsAppend(devices, index, m, copyDev);
      devices := devices + [copyDev];
      index := index[Key(copyDev.name, copyDev.kind) := copyDev];
    }
    assert scanned[..|scanned|] == scanned;
  }

  /** A configured device on a merged one: the object it is matched to changes, no other does. */
  lemma RepresentsUpdate(devices: seq<DeviceInfo>, index: map<Key, DeviceInfo>, m: Merging, at: nat, before: seq<Device>)
    requires at < |devices| && |before| == |devices| == |m.devices|
    requires forall i :: 0 <= i < |devices| && i != at ==> devices[i].Value() == m.devices[i]
    requires index.Keys == m.index.Keys
    requires forall key :: key in index ==> m.index[key] < |devices| && index[key] == devices[m.index[key]]
    requires forall i, j :: 0 <= i < j < |devices| ==> devices[i] != devices[j]
    ensures Represents(devices, index, m.(devices := m.devices[at := devices[at].Value()]))
  {
  }

  predicate Extends(prefix: seq<DeviceInfo>, devices: seq<DeviceInfo>) {
    |prefix| <= |devices| && forall i :: 0 <= i < |prefix| ==> devices[i] == prefix[i]
  }

  /** The loop body for a configured device: override the device it matches, or list a copy. */
  method ConfigureDevice(devices: seq<DeviceInfo>, index: map<Key, DeviceInfo>, scannedByName: map<string, DeviceInfo>,
                         configuredDevice: DeviceInfo, byKey: map<Key, DeviceInfo>, byName: map<string, DeviceInfo>,
                         ghost olds: seq<DeviceInfo>, ghost existing: seq<Device>, ghost base: seq<Device>, ghost m: Merging)
    returns (devices': seq<DeviceInfo>, index': map<Key, DeviceInfo>)
    requires Represents(devices, index, m) && |base| <= |devices|
    requires forall name :: name in scannedByName <==> CountName(base, name) == 1
    requires forall name :: name in scannedByName ==> scannedByName[name] == devices[LastNamed(base, name)]
    requires Values(olds) == existing && PreviousIndexed(byKey, byName, olds, existing)
    requires forall j :: 0 <= j < |devices| ==> devices[j] != configuredDevice && devices[j] !in olds
    modifies devices
    ensures Values(olds) == existing
    ensures Represents(devices', index', Configure(existing, base, m, configuredDevice.Value()))
    ensures Extends(devices, devices') && |devices'| <= |devices| + 1 && forall j :: |devices| <= j < |devices'| ==> fresh(devices'[j])
  {
    hide Override, ConfiguredCopy;
    ghost var c := configuredDevice.Value();
    var key := Key(configuredDevice.name, configuredDevice.kind);
    if key in index {
      ApplyConfiguredMetadata(index[key], configuredDevice);
      RepresentsUpdate(devices, index, m, m.index[key], m.devices);
      return devices, index;
    }
    if configuredDevice.name in scannedByName {
      ApplyConfiguredMetadata(scannedByName[configuredDevice.name], configuredDevice);
      RepresentsUpdate(devices, index, m, LastNamed(base, c.name), m.devices);
      return devices, index;
    }
    var copyDev := CopyConfigured(configuredDevice, byKey, byName, olds, existing);
    RepresentsAppend(devices, index, m, copyDev);
    return devices + [copyDev], index[Key(copyDev.name, copyDev.kind) := copyDev];
  }

  /** The second loop of `mergeDeviceLists`. */
  method MergeConfigured(scannedDevices: seq<DeviceInfo>, scannedIndex: map<Key, DeviceInfo>, scannedByName: map<string, DeviceInfo>,
                         configured: seq<DeviceInfo?>, byKey: map<Key, DeviceInfo>, byName: map<string, DeviceInfo>,
                         ghost olds: seq<DeviceInfo>, ghost existing: seq<Device>, ghost m: Merging)
    returns (devices: seq<DeviceInfo>)
    requires Represents(scannedDevices, scannedIndex, m)
    requires forall name :: name in scannedByName <==> CountName(m.devices, name) == 1
    requires forall name :: name in scannedByName ==> scannedByName[name] == scannedDevices[LastNamed(m.devices, name)]
    requires Values(olds) == existing && PreviousIndexed(byKey, byName, olds, existing)
    requires forall j :: 0 <= j < |scannedDevices| ==> scannedDevices[j] !in configured && scannedDevices[j] !in olds
    modifies scannedDevices
    ensures Extends(scannedDevices, devices) && forall j :: |scannedDevices| <= j < |devices| ==> fresh(devices[j])
    ensures forall i, j :: 0 <= i < j < |devices| ==> devices[i] != devices[j]
    ensures Values(devices) == ConfigureAll(existing, m.devices, m, old(Values(Named(configured)))).devices
  {
    var index := scannedIndex;
    devices := scannedDevices;
    ghost var cur := m;
    forall i | 0 <= i < |configured| { NamedStep(configured, i); }
    for i := 0 to |configured|
      invariant Values(olds) == existing
      invariant forall j :: 0 <= j < |configured| && configured[j] != null ==> configured[j].Value() == old(configured[j].Value())
      invariant cur == ConfigureAll(existing, m.devices, m, old(Values(Named(configured[..i]))))
      invariant Extends(scannedDevices, devices) && forall j :: |scannedDevices| <= j < |devices| ==> fresh(devices[j])
      invariant Represents(devices, index, cur)
    {
      var configuredDevice := configured[i];
      if configuredDevice == null || configuredDevice.name == "" {
        continue;
      }
      ConfigureNext(existing, m.devices, m, old(Values(Named(configured[..i]))), configuredDevice.Value());
      assert forall j :: 0 <= j < |devices| ==> devices[j] != configuredDevice && devices[j] !in olds;
      ghost var next := Configure(existing, m.devices, cur, configuredDevice.Value());
      devices, index := ConfigureDevice(devices, index, scannedByName, configuredDevice, byKey, byName, olds, existing, m.devices, cur);
      cur := next;
    }
    assert configured[..|configured|] == configured;
  }

  method IndexScannedByName(scannedDevices: seq<DeviceInfo>) returns (scannedByName: map<string, DeviceInfo>)
    requires forall j :: 0 <= j < |scannedDevices| ==> scannedDevices[j].name != ""
    ensures var base := Values(scannedDevices);
            && (forall name :: name in scannedByName <==> CountName(base, name) == 1)
            && (forall name :: name in scannedByName ==> scannedByName[name] == scannedDevices[LastNamed(base, name)])
  {
    NamedAll(scannedDevices);
    scannedByName := BuildUniqueNameIndex(scannedDevices);
  }

  /** The merge proper, on the indexes over the previous devices. */
  method MergeIndexed(byKey: map<Key, DeviceInfo>, byName: map<string, DeviceInfo>, scanned: seq<DeviceInfo?>, configured: seq<DeviceInfo?>,
                      ghost olds: seq<DeviceInfo>, ghost existing: seq<Device>)
    returns (devices: seq<DeviceInfo>)
    requires Values(olds) == existing && PreviousIndexed(byKey, byName, olds, existing)
    ensures forall j :: 0 <= j < |devices| ==> fresh(devices[j])
    ensures forall i, j :: 0 <= i < j < |devices| ==> devices[i] != devices[j]
    ensures Values(devices) == Merge(existing, old(Values(Named(scanned))), old(Values(Named(configured))))
  {
    var scannedDevices, scannedIndex := MergeScanned(scanned, byKey, byName, olds, existing);
    var scannedByName := IndexScannedByName(scannedDevices);
    ghost var m := Scan(existing, old(Values(Named(scanned))));
    assert Values(olds) == existing;
    label scannedDone:
    devices := MergeConfigured(scannedDevices, scannedIndex, scannedByName, configured, byKey, byName, olds, existing, m);
    assert old@scannedDone(Values(Named(configured))) == old(Values(Named(configured)));
  }

  /** `mergeDeviceLists`. Unless nothing was scanned or configured, the result is made of new objects
      holding the merged values. Having no `modifies` clause, it changes no input object. */
  method MergeDeviceLists(existing: seq<DeviceInfo?>, scanned: seq<DeviceInfo?>, configured: seq<DeviceInfo?>)
    returns (devices: seq<DeviceInfo?>)
    ensures scanned == [] && configured == [] ==> devices == existing
    ensures scanned != [] || configured != [] ==>
              && (forall j :: 0 <= j < |devices| ==> devices[j] != null && fresh(devices[j]))
              && (forall i, j :: 0 <= i < j < |devices| ==> devices[i] != devices[j])
              && Values(NonNull(devices)) == Merge(old(Values(Named(existing))), old(Values(Named(scanned))), old(Values(Named(configured))))
  {
    if |scanned| == 0 && |configured| == 0 {
      return existing;
    }
    ghost var olds := Named(existing);
    ghost var was := Values(olds);
    var byKey := BuildKeyIndex(existing);
    assert Named(existing) == olds && Values(olds) == was;
    var byName := BuildUniqueNameIndex(existing);
    assert Named(existing) == olds && Values(olds) == was;
    assert PreviousIndexed(byKey, byName, olds, was);
    assert Values(Named(scanned)) == old(Values(Named(scanned))) && Values(Named(configured)) == old(Values(Named(configured)));
    var merged := MergeIndexed(byKey, byName, scanned, configured, olds, was);
    devices := merged;
    assert NonNull(devices) == merged;
  }

  // ----- the manager

  /** A cached SMART record, as far as pruning looks at it. */
  datatype SmartData = SmartData(diskName: string, diskType: string)

  /** Exactly one device has this name. */
  ghost predicate NamedOnce(devices: seq<Device>, name: string) {
    exists i :: 0 <= i < |devices| && devices[i].name == name
                && forall j :: 0 <= j < |devices| && devices[j].name == name ==> j == i
  }

  predicate Files(devices: seq<Device>, key: Key) {
    exists i :: 0 <= i < |devices| && KeyOf(devices[i]) == key
  }

  /** A device stands behind the record: of its name and type, or, for a record without a type, the
      only one of its name. */
  ghost predicate Backed(devices: seq<Device>, data: SmartData) {
    if data.diskType == "" then NamedOnce(devices, data.diskName)
    else Files(devices, Key(data.diskName, data.diskType))
  }

  lemma NamedOnceIsCountOne(devices: seq<Device>, name: string)
    ensures CountName(devices, name) == 1 <==> NamedOnce(devices, name)
  {
    if CountName(devices, name) == 1 {
      var i := LastNamed(devices, name);
      forall j | 0 <= j < |devices| && devices[j].name == name ensures j == i { OnlyNamed(devices, name, j); }
    }
    if NamedOnce(devices, name) {
      var i :| 0 <= i < |devices| && devices[i].name == name
               && forall j :: 0 <= j < |devices| && devices[j].name == name ==> j == i;
      CountOnlyAt(devices, name, i);
    }
  }

  lemma FilesAppend(devices: seq<Device>, d: Device, key: Key)
    ensures Files(devices + [d], key) <==> Files(devices, key) || KeyOf(d) == key
  {
    var all := devices + [d];
    assert all[|devices|] == d && forall i :: 0 <= i < |devices| ==> all[i] == devices[i];
  }

  method CollectKeys(devices: seq<DeviceInfo?>) returns (keys: set<Key>)
    ensures forall key :: key in keys <==> Files(Values(Named(devices)), key)
  {
    keys := {};
    for i := 0 to |devices|
      invariant forall key :: key in keys <==> Files(Values(Named(devices[..i])), key)
    {
      NamedStep(devices, i);
      var d := devices[i];
      if d == null || d.name == "" {
        continue;
      }
      forall key { FilesAppend(Values(Named(devices[..i])), d.Value(), key); }
      keys := keys + {Key(d.name, d.kind)};
    }
    assert devices[..|devices|] == devices;
  }

  function Unexcluded(devices: seq<DeviceInfo>, excluded: set<string>): seq<DeviceInfo>
    reads devices
  {
    var n := |devices| - 1;
    if devices == [] then []
    else Unexcluded(devices[..n], excluded) + if devices[n].name in excluded then [] else [devices[n]]
  }

  /** Exactly the devices whose name is not excluded. */
  lemma {:induction false} UnexcludedMeaning(devices: seq<DeviceInfo>, excluded: set<string>, d: DeviceInfo)
    ensures d in Unexcluded(devices, excluded) <==> d in devices && d.name !in excluded
  {
    if devices != [] {
      var n := |devices| - 1;
      assert devices == devices[..n] + [devices[n]];
      UnexcludedMeaning(devices[..n], excluded, d);
    }
  }

  lemma UnexcludedNext(devices: seq<DeviceInfo?>, i: nat, excluded: set<string>)
    requires i < |devices|
    ensures var d := devices[i];
            var before := Unexcluded(Named(devices[..i]), excluded);
            Unexcluded(Named(devices[..i + 1]), excluded)
            == if d == null || d.name == "" || d.name in excluded then before else before + [d]
  {
    NamedStep(devices, i);
    var d := devices[i];
    if d != null && d.name != "" {
      var before := Named(devices[..i]);
      assert (before + [d])[..|before|] == before;
      assert Unexcluded(before, excluded) + [] == Unexcluded(before, excluded);
    }
  }

  /** The loop over the cached records: exactly those backed by a device stay. */
  method Prune(data: map<string, Option<SmartData>>, validKeys: set<Key>, nameCounts: map<string, nat>, ghost values: seq<Device>)
      returns (kept: map<string, Option<SmartData>>)
    requires forall key :: key in validKeys <==> Files(values, key)
    requires forall name :: (name in nameCounts && nameCounts[name] == 1) <==> CountName(values, name) == 1
    ensures forall key :: key in kept <==> key in data && data[key].Some? && Backed(values, data[key].value)
    ensures forall key :: key in kept ==> kept[key] == data[key]
  {
    hide CountName, Files, NamedOnce;
    kept := data;
    var todo := data.Keys;
    while todo != {}
      invariant todo <= kept.Keys <= data.Keys
      invariant forall key :: key in kept ==> kept[key] == data[key]
      invariant forall key :: key in data && key !in todo ==> (key in kept <==> data[key].Some? && Backed(values, data[key].value))
      decreases todo
    {
      var key :| key in todo;
      todo := todo - {key};
      if kept[key] == None {
        kept := kept - {key};
        continue;
      }
      var record := kept[key].value;
      NamedOnceIsCountOne(values, record.diskName);
      if record.diskType == "" {
        if record.diskName in nameCounts && nameCounts[record.diskName] == 1 {
          continue;
        }
      } else if Key(record.diskName, record.diskType) in validKeys {
        continue;
      }
      kept := kept - {key};
    }
  }

  class SmartManager {
    var smartDevices: seq<DeviceInfo?>
    var smartDataMap: map<string, Option<SmartData>>
    var excludedDevices: set<string>

    constructor ()
      ensures smartDevices == [] && smartDataMap == map[] && excludedDevices == {}
    {
      smartDevices, smartDataMap, excludedDevices := [], map[], {};
    }

    /** `updateSmartDevices`: the new list replaces the old, and exactly the records it backs stay. */
    method UpdateSmartDevices(devices: seq<DeviceInfo?>)
      modifies this`smartDevices, this`smartDataMap
      ensures smartDevices == devices
      ensures forall key :: key in smartDataMap <==>
                && key in old(smartDataMap)
                && old(smartDataMap)[key].Some?
                && Backed(Values(Named(devices)), old(smartDataMap)[key].value)
      ensures forall key :: key in smartDataMap ==> smartDataMap[key] == old(smartDataMap)[key]
    {
      smartDevices := devices;
      if |smartDataMap| == 0 {
        return;
      }
      ghost var values := Values(Named(devices));
      var validKeys := CollectKeys(devices);
      assert Values(Named(devices)) == values;
      var nameCounts := CountNames(devices);
      assert Values(Named(devices)) == values;
      smartDataMap := Prune(smartDataMap, validKeys, nameCounts, values);
    }

    /** `filterExcludedDevices`: with no exclusions the list passes unchanged. */
    method FilterExcludedDevices(devices: seq<DeviceInfo?>) returns (filtered: seq<DeviceInfo?>)
      ensures excludedDevices == {} ==> filtered == devices
      ensures excludedDevices != {} ==> filtered == Unexcluded(Named(devices), excludedDevices)
    {
      if excludedDevices == {} {
        return devices;
      }
      filtered := [];
      assert Unexcluded(Named(devices[..0]), excludedDevices) == [];
      hide Unexcluded, Named;
      for i := 0 to |devices|
        invariant filtered == Unexcluded(Named(devices[..i]), excludedDevices)
      {
        UnexcludedNext(devices, i, excludedDevices);
        var device := devices[i];
        if device == null || device.name == "" {
          continue;
        }
        if device.name in excludedDevices {
          continue;
        }
        filtered := filtered + [device];
      }
      assert devices[..|devices|] == devices;
    }

    /** The first half of `parseSmartOutput`: the parser to try first, from hint or detection. */
    method DetectParser(device: DeviceInfo, detected: string) returns (deviceType: string)
      modifies device
      ensures device.Value() == Detected(old(device.Value()), detected)
      ensures deviceType == PreferredParser(old(device.Value()), detected)
    {
      deviceType := NormalizeParserType(device.parserType);
      if deviceType == "" {
        deviceType := NormalizeParserType(device.kind);
      }
      if device.parserType == "" && deviceType in PARSERS {
        device.parserType := deviceType;
      }
      if deviceType == "" || !device.typeVerified {
        if deviceType != detected {
          deviceType := detected;
          device.parserType := detected;
          device.typeVerified := false;
        }
        if device.kind == "" || EqualFold(device.kind, detected) {
          device.kind := detected;
        }
      }
    }

    /** `parseSmartOutput` on one device. */
    method ParseSmartOutput(device: DeviceInfo, detected: string, accepts: set<string>) returns (ok: bool)
      modifies device
      ensures (device.Value(), ok) == Parsed(old(device.Value()), detected, accepts)
    {
      hide Detected, PreferredParser, EqualFold, NormalizeParserType, ParserOrder;
      var deviceType := DetectParser(device, detected);
      ghost var found := device.Value();
      var order := ParserOrder(deviceType);
      for i := 0 to |order|
        invariant device.Value() == found
        invariant FirstAccepting(order, accepts) == FirstAccepting(order[i..], accepts)
      {
        assert order[i..][1..] == order[i + 1..];
        if order[i] in accepts {
          device.parserType := order[i];
          if device.kind == "" || EqualFold(device.kind, order[i]) {
            device.kind := order[i];
          }
          device.typeVerified := true;
          return true;
        }
      }
      device.typeVerified := false;
      return false;
    }
  }
}
