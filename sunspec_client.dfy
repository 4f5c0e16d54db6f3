/**
 * The session with one SunSpec device: connection set-up and discovery of the
 * model registry, one harvesting pass over a list of model ids with failures
 * isolated per model, the extraction of point values from one model, point
 * writes, the common-model device summary, and teardown.
 */
module Client {
  import opened Wrappers
  import opened Text
  import opened Config
  import opened SunSpecDevice

  /** A value in a reading: a point value, or the per-instance values of a repeating group. */
  datatype Entry = Scalar(v: Value) | GroupData(items: seq<map<string, Value>>)

  /** What one successful model read yields; `timestamp` is the caller's clock. */
  datatype Reading = Reading(modelId: int, modelName: string, points: map<string, Entry>, timestamp: nat)

  /** The summary built from the common model (model 1). */
  datatype DeviceInfo = DeviceInfo(
    manufacturer: Entry, model: Entry, version: Entry, serialNumber: Entry, deviceAddress: Entry)

  /** The value of `get_cached_data`. */
  datatype CachedView = CachedView(
    data: map<string, Reading>, lastReadTime: Option<nat>, availableModels: map<int, string>)

  /** The name a model gets when the library supplies none: `Model_<id>`. */
  function DefaultModelName(id: int): string {
    "Model_" + IntToString(id)
  }

  /** The key of a model's reading in a harvested result: `model_<id>`. */
  function SnapshotKey(id: int): string {
    "model_" + IntToString(id)
  }

  /** Distinct model ids never share a result key. */
  lemma SnapshotKeyInjective(a: int, b: int)
    ensures SnapshotKey(a) == SnapshotKey(b) ==> a == b
  {
    PrefixedInjective("model_", IntToString(a), IntToString(b));
    IntToStringInjective(a, b);
  }

  /**
   * The configuration checks of `_connect_tcp` and `_connect_rtu`: the
   * transport to build, or the error `connect` catches.
   */
  function TransportFor(inv: InverterConfig): (r: Result<Transport, string>)
    ensures r.Success? <==>
              (inv.connectionType == "tcp" && inv.tcp.Some?) || (inv.connectionType == "rtu" && inv.rtu.Some?)
    ensures r.Success? && inv.connectionType == "tcp" ==> r.value == TcpTransport(inv.tcp.value)
    ensures r.Success? && inv.connectionType == "rtu" ==> r.value == RtuTransport(inv.rtu.value)
  {
    if inv.connectionType == "tcp" then
      if inv.tcp.None? then Failure("TCP configuration not provided")
      else Success(TcpTransport(inv.tcp.value))
    else if inv.connectionType == "rtu" then
      if inv.rtu.None? then Failure("RTU configuration not provided")
      else Success(RtuTransport(inv.rtu.value))
    else Failure("Unsupported connection type")
  }

  /** A connection type the validator rejects can never yield a transport. */
  lemma RejectedTypeHasNoTransport(inv: InverterConfig)
    ensures ValidateConnectionType(inv.connectionType).Failure? ==> TransportFor(inv).Failure?
  {
  }

  /** The default configuration yields a TCP transport to its default host. */
  lemma DefaultConfigTransport()
    ensures TransportFor(GetDefaultConfig().inverter)
            == Success(TcpTransport(TcpConfig("192.168.1.100", 502, 1, 10)))
  {
  }

  // ---------------------------------------------------------------------------
  // Specification of discovery

  /** The registry name of a discovered model: its first instance's name, else `Model_<id>`. */
  function FirstInstanceName(id: int, instances: seq<ModelInstance>): string {
    if |instances| > 0 && instances[0].modelName.Some? then instances[0].modelName.value
    else DefaultModelName(id)
  }

  /**
   * The registry discovery builds: exactly the integer keys of the scan, each
   * named as discovery names it.
   */
  function RegistryOf(models: map<ModelKey, seq<ModelInstance>>): (reg: map<int, string>)
    ensures IsRegistryOf(reg, models)
  {
    var reg := map k | k in models && k.ById? :: k.id := FirstInstanceName(k.id, models[k]);
    assert forall id :: ById(id) in models ==> ById(id).id == id;
    reg
  }

  /** `reg` names exactly the integer keys of `models`, each as discovery names it. */
  ghost predicate IsRegistryOf(reg: map<int, string>, models: map<ModelKey, seq<ModelInstance>>) {
    && (forall id :: id in reg <==> ById(id) in models)
    && (forall id :: id in reg ==> reg[id] == FirstInstanceName(id, models[ById(id)]))
  }

  /** A registry is determined by the scan it reflects. */
  lemma RegistryUnique(reg: map<int, string>, models: map<ModelKey, seq<ModelInstance>>)
    requires IsRegistryOf(reg, models)
    ensures reg == RegistryOf(models)
  {
    var other := RegistryOf(models);
    assert reg.Keys == other.Keys;
    assert forall id :: id in reg ==> reg[id] == other[id];
  }

  // ---------------------------------------------------------------------------
  // Specification of one model read

  /** The scaled value when the library computed one, else the raw value. */
  function PreferredValue(p: Point): Value
    requires p.value.Some?
  {
    if p.cvalue.Some? then p.cvalue.value else p.value.value
  }

  /** The points that carry a raw value, each mapped to its preferred value. */
  function PointValues(points: map<string, Point>): map<string, Value> {
    map n | n in points && points[n].value.Some? :: PreferredValue(points[n])
  }

  function InstanceValues(instances: seq<map<string, Point>>): seq<map<string, Value>> {
    seq(|instances|, i requires 0 <= i < |instances| => PointValues(instances[i]))
  }

  /** The repeating groups, each mapped to the values of its instances; single groups are dropped. */
  function GroupEntries(groups: map<string, Group>): map<string, Entry> {
    map g | g in groups && groups[g].Repeating? :: GroupData(InstanceValues(groups[g].instances))
  }

  /** The `points` of a reading: point values, then repeating groups written over them. */
  function ModelEntries(inst: ModelInstance): map<string, Entry> {
    var scalars := PointValues(inst.points);
    (map n | n in scalars :: Scalar(scalars[n])) + GroupEntries(inst.groups)
  }

  function NameFor(available: map<int, string>, id: int): string {
    if id in available then available[id] else DefaultModelName(id)
  }

  /**
   * What `read_model` returns (`None` standing for its empty dict): nothing
   * when there is no device, the model is absent or has no instances, or the
   * read raises; otherwise the reading of the first instance.
   */
  function ReadingOf(device: Option<Device>, available: map<int, string>, id: int, readOk: bool, now: nat)
    : (r: Option<Reading>)
    ensures r.None? <==> device.None? || ById(id) !in device.value.models
                         || |device.value.models[ById(id)]| == 0 || !readOk
    ensures r.Some? ==> r.value.modelId == id && r.value.timestamp == now
                        && r.value.modelName == NameFor(available, id)
                        && r.value.points == ModelEntries(device.value.models[ById(id)][0])
  {
    if device.None? || ById(id) !in device.value.models then None
    else
      var instances := device.value.models[ById(id)];
      if |instances| == 0 || !readOk then None
      else Some(Reading(id, NameFor(available, id), ModelEntries(instances[0]), now))
  }

  // ---------------------------------------------------------------------------
  // Specification of one harvesting pass

  /** Whether the read at position `i` of a pass returns normally: `failedAt` lists those that raise. */
  predicate ReadSucceeds(failedAt: set<nat>, i: int) {
    i !in failedAt
  }

  /** Position `i` of `ids` delivers a reading: discovered, and its read succeeded. */
  predicate Delivers(ids: seq<int>, i: int, available: map<int, string>, device: Option<Device>,
                     failedAt: set<nat>, now: nat)
    requires 0 <= i < |ids|
  {
    ids[i] in available && ReadingOf(device, available, ids[i], ReadSucceeds(failedAt, i), now).Some?
  }

  /**
   * The result of reading `ids` in order: an undiscovered id is skipped, a
   * read at a position in `failedAt` raises and is skipped, every other
   * reading is stored under `model_<id>`.
   */
  function Harvest(ids: seq<int>, available: map<int, string>, device: Option<Device>,
                   failedAt: set<nat>, now: nat): map<string, Reading>
    decreases |ids|
  {
    if ids == [] then map[]
    else
      var n := |ids| - 1;
      var data := Harvest(ids[..n], available, device, failedAt, now);
      if ids[n] !in available then data
      else
        match ReadingOf(device, available, ids[n], ReadSucceeds(failedAt, n), now)
        case Some(reading) => data[SnapshotKey(ids[n]) := reading]
        case None => data
  }

  /** Reading one more position extends the result by that position's reading, if any. */
  lemma HarvestStep(ids: seq<int>, i: int, available: map<int, string>, device: Option<Device>,
                    failedAt: set<nat>, now: nat)
    requires 0 <= i < |ids|
    ensures Delivers(ids, i, available, device, failedAt, now) ==>
              Harvest(ids[..i + 1], available, device, failedAt, now)
              == Harvest(ids[..i], available, device, failedAt, now)[
                   SnapshotKey(ids[i]) := ReadingOf(device, available, ids[i], ReadSucceeds(failedAt, i), now).value]
    ensures !Delivers(ids, i, available, device, failedAt, now) ==>
              Harvest(ids[..i + 1], available, device, failedAt, now)
              == Harvest(ids[..i], available, device, failedAt, now)
  {
    assert ids[..i + 1][..i] == ids[..i];
  }

  /** A result key is present exactly when some position of the id list delivered it. */
  lemma {:induction false} HarvestKeys(ids: seq<int>, available: map<int, string>, device: Option<Device>,
                                       failedAt: set<nat>, now: nat, k: string)
    ensures k in Harvest(ids, available, device, failedAt, now) <==>
            exists i :: 0 <= i < |ids| && Delivers(ids, i, available, device, failedAt, now)
                        && k == SnapshotKey(ids[i])
  {
    if ids != [] {
      var n := |ids| - 1;
      var pre := ids[..n];
      HarvestKeys(pre, available, device, failedAt, now, k);
      assert forall i :: 0 <= i < n ==> pre[i] == ids[i];
      assert forall i :: 0 <= i < n ==>
        (Delivers(pre, i, available, device, failedAt, now) <==> Delivers(ids, i, available, device, failedAt, now));
    }
  }

  /**
   * Every stored reading is a successful read of a discovered model, taken
   * at `now`, and it sits under that model's own key.
   */
  predicate WellKeyed(data: map<string, Reading>, available: map<int, string>, device: Option<Device>, now: nat) {
    forall k :: k in data ==>
      && data[k].modelId in available
      && k == SnapshotKey(data[k].modelId)
      && data[k].timestamp == now
      && Some(data[k]) == ReadingOf(device, available, data[k].modelId, true, now)
  }

  lemma {:induction false} HarvestValues(ids: seq<int>, available: map<int, string>, device: Option<Device>,
                                         failedAt: set<nat>, now: nat)
    ensures WellKeyed(Harvest(ids, available, device, failedAt, now), available, device, now)
  {
    if ids != [] {
      var n := |ids| - 1;
      HarvestValues(ids[..n], available, device, failedAt, now);
      var pre := Harvest(ids[..n], available, device, failedAt, now);
      var step := ReadingOf(device, available, ids[n], ReadSucceeds(failedAt, n), now);
      if ids[n] in available && step.Some? {
        assert step == ReadingOf(device, available, ids[n], true, now);
        assert Harvest(ids, available, device, failedAt, now) == pre[SnapshotKey(ids[n]) := step.value];
      } else {
        assert Harvest(ids, available, device, failedAt, now) == pre;
      }
    }
  }

  /**
   * Failure isolation and discovery gating for one model id: its key is in
   * the result exactly when the id is discovered and at least one of its
   * positions was read successfully, and then it holds that model's reading;
   * what happens at other ids' positions makes no difference.
   */
  lemma HarvestOfModel(ids: seq<int>, available: map<int, string>, device: Option<Device>,
                       failedAt: set<nat>, now: nat, id: int)
    ensures var data := Harvest(ids, available, device, failedAt, now);
            && (SnapshotKey(id) in data <==>
                  exists i :: 0 <= i < |ids| && ids[i] == id
                              && Delivers(ids, i, available, device, failedAt, now))
            && (SnapshotKey(id) in data ==>
                  Some(data[SnapshotKey(id)]) == ReadingOf(device, available, id, true, now))
  {
    var data := Harvest(ids, available, device, failedAt, now);
    HarvestKeys(ids, available, device, failedAt, now, SnapshotKey(id));
    HarvestValues(ids, available, device, failedAt, now);
    forall i | 0 <= i < |ids| {
      SnapshotKeyInjective(ids[i], id);
    }
    if SnapshotKey(id) in data {
      SnapshotKeyInjective(data[SnapshotKey(id)].modelId, id);
    }
  }

  /** The summary fields of the common model, with the defaults `dict.get` supplies. */
  function InfoFrom(points: map<string, Entry>): (info: DeviceInfo)
    ensures info.manufacturer == (if "Mn" in points then points["Mn"] else Scalar(StrValue("Unknown")))
    ensures info.model == (if "Md" in points then points["Md"] else Scalar(StrValue("Unknown")))
    ensures info.version == (if "Vr" in points then points["Vr"] else Scalar(StrValue("Unknown")))
    ensures info.serialNumber == (if "SN" in points then points["SN"] else Scalar(StrValue("Unknown")))
    ensures info.deviceAddress == (if "DA" in points then points["DA"] else Scalar(IntValue(1)))
  {
    var unknown := Scalar(StrValue("Unknown"));
    DeviceInfo(
      if "Mn" in points then points["Mn"] else unknown,
      if "Md" in points then points["Md"] else unknown,
      if "Vr" in points then points["Vr"] else unknown,
      if "SN" in points then points["SN"] else unknown,
      if "DA" in points then points["DA"] else Scalar(IntValue(1)))
  }

  /** The device after `point.cvalue = value` on the first instance of model `id`. */
  function WithWrittenPoint(models: map<ModelKey, seq<ModelInstance>>, id: int, name: string, v: Value)
    : map<ModelKey, seq<ModelInstance>>
    requires ById(id) in models && |models[ById(id)]| > 0 && name in models[ById(id)][0].points
  {
    var instances := models[ById(id)];
    var inst := instances[0];
    var p := inst.points[name];
    models[ById(id) := instances[0 := inst.(points := inst.points[name := p.(cvalue := Some(v))])]]
  }

  /** Writing a point adds, drops and renames no model, so a registry of the scan stays one. */
  lemma WritePreservesRegistry(reg: map<int, string>, models: map<ModelKey, seq<ModelInstance>>,
                               id: int, name: string, v: Value)
    requires IsRegistryOf(reg, models)
    requires ById(id) in models && |models[ById(id)]| > 0 && name in models[ById(id)][0].points
    ensures IsRegistryOf(reg, WithWrittenPoint(models, id, name, v))
  {
    var written := WithWrittenPoint(models, id, name, v);
    assert written.Keys == models.Keys;
    assert written[ById(id)][0].modelName == models[ById(id)][0].modelName;
  }

  // ---------------------------------------------------------------------------
  // The loops that build the dictionaries

  /** Walks a point map, keeping each point that has a raw value. */
  method ExtractPoints(points: map<string, Point>) returns (r: map<string, Value>)
    ensures r == PointValues(points)
  {
    r := map[];
    var todo := points.Keys;
    while todo != {}
      invariant todo <= points.Keys
      invariant r == PointValues(points - todo)
      decreases |todo|
    {
      var n :| n in todo;
      if points[n].value.Some? {
        r := r[n := PreferredValue(points[n])];
      }
      todo := todo - {n};
    }
    assert points - {} == points;
  }

  /** Builds the per-instance values of one repeating group, in instance order. */
  method ExtractInstances(instances: seq<map<string, Point>>) returns (r: seq<map<string, Value>>)
    ensures r == InstanceValues(instances)
  {
    r := [];
    for i := 0 to |instances|
      invariant |r| == i
      invariant forall j :: 0 <= j < i ==> r[j] == PointValues(instances[j])
    {
      var values := ExtractPoints(instances[i]);
      r := r + [values];
    }
  }

  /** Walks the groups of an instance, writing each repeating one over `entries`. */
  method AddGroups(groups: map<string, Group>, entries: map<string, Entry>) returns (r: map<string, Entry>)
    ensures r == entries + GroupEntries(groups)
  {
    r := entries;
    var todo := groups.Keys;
    while todo != {}
      invariant todo <= groups.Keys
      invariant forall g :: g in r <==> g in entries || (g in groups && g !in todo && groups[g].Repeating?)
      invariant forall g :: g in r ==>
                  r[g] == if g in groups && g !in todo && groups[g].Repeating?
                          then GroupData(InstanceValues(groups[g].instances)) else entries[g]
      decreases |todo|
    {
      var g :| g in todo;
      if groups[g].Repeating? {
        var items := ExtractInstances(groups[g].instances);
        r := r[g := GroupData(items)];
      }
      todo := todo - {g};
    }
  }

  // ---------------------------------------------------------------------------
  // The session object

  class SunSpecClient {
    const config: Config
    var device: Option<Device>
    var isConnected: bool
    var lastReadTime: Option<nat>
    var cachedData: map<string, Reading>
    var availableModels: map<int, string>

    /** A connected session has a device whose scan the registry reflects. */
    ghost predicate Valid()
      reads this`isConnected, this`device, this`availableModels
    {
      isConnected ==> device.Some? && IsRegistryOf(availableModels, device.value.models)
    }

    constructor (config: Config)
      ensures Valid()
      ensures this.config == config && device == None && !isConnected
      ensures lastReadTime == None && cachedData == map[] && availableModels == map[]
    {
      this.config := config;
      device := None;
      isConnected := false;
      lastReadTime := None;
      cachedData := map[];
      availableModels := map[];
    }

    /**
     * Builds the transport from the configuration and runs discovery;
     * `built` is whether the device constructor returns (`false`: it raised)
     * and `scan` is what the device scan returns (`None`: the scan raised).
     * Every failure is reported as `false`, never raised.
     */
    method Connect(built: bool, scan: Option<map<ModelKey, seq<ModelInstance>>>) returns (ok: bool)
      requires Valid()
      modifies this`device, this`availableModels, this`isConnected
      ensures Valid()
      ensures ok == isConnected
      ensures ok <==> TransportFor(config.inverter).Success? && built && scan.Some?
      ensures TransportFor(config.inverter).Failure? || !built ==>
                device == old(device) && availableModels == old(availableModels)
      ensures TransportFor(config.inverter).Success? && built ==>
                device == Some(Device(TransportFor(config.inverter).value,
                                      if ok then scan.value else map[]))
      ensures ok ==> IsRegistryOf(availableModels, scan.value)
      ensures !ok ==> availableModels == old(availableModels)
      ensures cachedData == old(cachedData) && lastReadTime == old(lastReadTime)
    {
      var transport := TransportFor(config.inverter);
      if transport.Failure? || !built {
        isConnected := false;
        return false;
      }
      device := Some(Device(transport.value, map[]));
      var discovered := DiscoverModels(scan);
      if !discovered {
        isConnected := false;
        return false;
      }
      isConnected := true;
      ok := true;
    }

    /**
     * `_discover_models`: after a successful scan the registry is rebuilt
     * from scratch; when the scan raises (or there is no device) the old
     * registry stays.
     */
    method DiscoverModels(scan: Option<map<ModelKey, seq<ModelInstance>>>) returns (ok: bool)
      modifies this`device, this`availableModels
      ensures ok <==> old(device).Some? && scan.Some?
      ensures ok ==> device == Some(old(device).value.(models := scan.value))
                     && IsRegistryOf(availableModels, scan.value)
      ensures !ok ==> device == old(device) && availableModels == old(availableModels)
    {
      if device.None? || scan.None? {
        return false;
      }
      var models := scan.value;
      device := Some(device.value.(models := models));
      availableModels := map[];
      var todo := models.Keys;
      while todo != {}
        invariant todo <= models.Keys
        invariant device == Some(old(device).value.(models := models))
        invariant forall id :: id in availableModels <==> ById(id) in models && ById(id) !in todo
        invariant forall id :: id in availableModels ==>
                    availableModels[id] == FirstInstanceName(id, models[ById(id)])
        decreases |todo|
      {
        var k :| k in todo;
        if k.ById? {
          availableModels := availableModels[k.id := FirstInstanceName(k.id, models[k])];
        }
        todo := todo - {k};
      }
      ok := true;
    }

    /** The id list a pass reads: the argument, or the configured models when it is `None`. */
    function IdsToRead(modelIds: Option<seq<int>>): seq<int>
      reads this
    {
      if modelIds.None? then config.dataCollection.modelsToRead else modelIds.value
    }

    /**
     * `read_data`: one harvesting pass. It raises when the session is not
     * connected; otherwise it replaces the cache wholesale and stamps it.
     */
    method ReadData(modelIds: Option<seq<int>>, failedAt: set<nat>, now: nat)
      returns (r: Result<map<string, Reading>, string>)
      requires Valid()
      modifies this`cachedData, this`lastReadTime
      ensures Valid()
      ensures !isConnected || device.None? ==>
                r.Failure? && cachedData == old(cachedData) && lastReadTime == old(lastReadTime)
      ensures isConnected && device.Some? ==>
                && r == Success(Harvest(IdsToRead(modelIds), availableModels, device, failedAt, now))
                && cachedData == r.value && lastReadTime == Some(now)
    {
      if !isConnected || device.None? {
        return Failure("Device not connected");
      }
      var ids := IdsToRead(modelIds);
      var data := map[];
      for i := 0 to |ids|
        invariant data == Harvest(ids[..i], availableModels, device, failedAt, now)
      {
        HarvestStep(ids, i, availableModels, device, failedAt, now);
        if ids[i] in availableModels {
          var modelData := ReadModel(ids[i], ReadSucceeds(failedAt, i), now);
          if modelData.Some? {
            assert Delivers(ids, i, availableModels, device, failedAt, now);
            data := data[SnapshotKey(ids[i]) := modelData.value];
          } else {
            assert !Delivers(ids, i, availableModels, device, failedAt, now);
          }
        } else {
          assert !Delivers(ids, i, availableModels, device, failedAt, now);
        }
      }
      assert ids[..|ids|] == ids;
      cachedData := data;
      lastReadTime := Some(now);
      r := Success(data);
    }

    /**
     * `read_model`: reads the first instance of one model; `readOk` is
     * whether the device read succeeds.
     */
    method ReadModel(modelId: int, readOk: bool, now: nat) returns (r: Option<Reading>)
      ensures r == ReadingOf(device, availableModels, modelId, readOk, now)
    {
      if device.None? || ById(modelId) !in device.value.models {
        return None;
      }
      var instances := device.value.models[ById(modelId)];
      if |instances| == 0 {
        return None;
      }
      var model := instances[0];
      if !readOk {
        return None;
      }
      var values := ExtractPoints(model.points);
      var entries := map n | n in values :: Scalar(values[n]);
      entries := AddGroups(model.groups, entries);
      r := Some(Reading(modelId, NameFor(availableModels, modelId), entries, now));
    }

    /**
     * `write_point`: raises when not connected; reports `false` when the
     * model, an instance or the point is missing; otherwise sets the point's
     * scaled value locally and reports whether the device write succeeded.
     */
    method WritePoint(modelId: int, pointName: string, value: Value, writeOk: bool)
      returns (r: Result<bool, string>)
      requires Valid()
      modifies this`device
      ensures Valid()
      ensures !isConnected || old(device).None? ==> r.Failure? && device == old(device)
      ensures isConnected && old(device).Some? ==>
                var models := old(device).value.models;
                if ById(modelId) !in models || |models[ById(modelId)]| == 0
                   || pointName !in models[ById(modelId)][0].points
                then r == Success(false) && device == old(device)
                else r == Success(writeOk)
                     && device == Some(old(device).value.(models := WithWrittenPoint(models, modelId, pointName, value)))
    {
      if !isConnected || device.None? {
        return Failure("Device not connected");
      }
      var models: map<ModelKey, seq<ModelInstance>> := device.value.models;
      if ById(modelId) !in models || |models[ById(modelId)]| == 0
         || pointName !in models[ById(modelId)][0].points {
        return Success(false);
      }
      WritePreservesRegistry(availableModels, models, modelId, pointName, value);
      device := Some(device.value.(models := WithWrittenPoint(models, modelId, pointName, value)));
      r := Success(writeOk);
    }

    /** `get_device_info`: the common-model summary, `None` for the empty dict. */
    method GetDeviceInfo(readOk: bool, now: nat) returns (info: Option<DeviceInfo>)
      ensures info.Some? <==> isConnected && ReadingOf(device, availableModels, 1, readOk, now).Some?
      ensures info.Some? ==> info.value == InfoFrom(ReadingOf(device, availableModels, 1, readOk, now).value.points)
    {
      if !isConnected {
        return None;
      }
      var common := ReadModel(1, readOk, now);
      if common.None? {
        return None;
      }
      info := Some(InfoFrom(common.value.points));
    }

    /**
     * `disconnect`: nothing happens without a device; otherwise the device is
     * dropped and the session marked disconnected, whether or not closing it
     * raised. The registry and the cache are left as they were.
     */
    method Disconnect()
      requires Valid()
      modifies this`device, this`isConnected
      ensures Valid()
      ensures old(device).None? ==> device == None && isConnected == old(isConnected)
      ensures old(device).Some? ==> device == None && !isConnected
    {
      if device.Some? {
        device := None;
        isConnected := false;
      }
    }

    /** `get_cached_data`: the last pass's data, its time and the registry, as stored. */
    function GetCachedData(): (v: CachedView)
      reads this
      ensures v.data == cachedData && v.lastReadTime == lastReadTime && v.availableModels == availableModels
    {
      CachedView(cachedData, lastReadTime, availableModels)
    }
  }
}
