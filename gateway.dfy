/**
 * The gateway service around one client session: start-up and shutdown, one
 * iteration of the background polling loop that merges each harvest into the
 * live snapshot, the connect/disconnect routes with their polling-task
 * bookkeeping, and the read-only routes with their status guards.
 */
module Gateway {
  import opened Wrappers
  import opened Config
  import opened SunSpecDevice
  import opened Client

  /** The state of the background polling task the gateway holds. */
  datatype TaskState = Running | Cancelled

  /** Where a cancellation reaches one loop iteration, if it does. */
  datatype CancelPoint = NotCancelled | CancelledDuringRead | CancelledDuringSleep

  /** What the loop does after one iteration: sleep that many seconds, or leave the loop. */
  datatype LoopStep = Sleep(seconds: int) | Exit

  /** A route's answer: a body, or an HTTP error status with its detail. */
  datatype Response<+T> = Ok(body: T) | HttpError(status: int, detail: string)

  datatype ModelsBody = ModelsBody(availableModels: map<int, string>, configuredModels: seq<int>)

  /** The body of `/data/model/{id}`; `points` is `None` where the read yields the empty dict. */
  datatype ModelDataBody = ModelDataBody(modelId: int, points: Option<Reading>, timestamp: nat)

  /** The body of `/device/connect` and `/device/disconnect`. */
  datatype ConnectionBody = ConnectionBody(connected: bool, timestamp: nat)

  datatype Health = Health(status: string, connected: bool, modelsConfigured: nat,
                           lastPoll: Option<nat>, timestamp: nat)

  /** Seconds the loop waits after an iteration that failed. */
  const RetryPause := 5

  /** `t` is the newest timestamp in `data`, and `None` exactly when `data` is empty. */
  predicate IsLatest(data: map<string, Reading>, t: Option<nat>) {
    && (t.None? <==> data == map[])
    && (t.Some? ==> && (exists k :: k in data && data[k].timestamp == t.value)
                    && (forall k :: k in data ==> data[k].timestamp <= t.value))
  }

  /** The newest timestamp of a snapshot is determined by the snapshot. */
  lemma LatestUnique(data: map<string, Reading>, a: Option<nat>, b: Option<nat>)
    requires IsLatest(data, a) && IsLatest(data, b)
    ensures a == b
  {
    if a.Some? {
      var ka :| ka in data && data[ka].timestamp == a.value;
      var kb :| kb in data && data[kb].timestamp == b.value;
      assert data[ka].timestamp <= b.value && data[kb].timestamp <= a.value;
    }
  }

  /**
   * Failure isolation and retention across one merge: after the snapshot
   * absorbs a harvest, a model's key is present exactly when it was before
   * or the model was delivered now; a delivered model holds its fresh
   * reading, any other model keeps its previous entry.
   */
  lemma MergeOfModel(last: map<string, Reading>, ids: seq<int>, available: map<int, string>,
                     device: Option<Device>, failedAt: set<nat>, now: nat, id: int)
    ensures var merged := last + Harvest(ids, available, device, failedAt, now);
            var delivered := exists i :: 0 <= i < |ids| && ids[i] == id
                                         && Delivers(ids, i, available, device, failedAt, now);
            && (SnapshotKey(id) in merged <==> SnapshotKey(id) in last || delivered)
            && (delivered ==> Some(merged[SnapshotKey(id)]) == ReadingOf(device, available, id, true, now))
            && (!delivered && SnapshotKey(id) in last ==> merged[SnapshotKey(id)] == last[SnapshotKey(id)])
  {
    HarvestOfModel(ids, available, device, failedAt, now, id);
  }

  /**
   * When no entry of the snapshot is newer than `now`, none is after a merge
   * at `now` either, and a merge that delivered anything makes `now` the
   * newest timestamp.
   */
  lemma MergeTimestamps(last: map<string, Reading>, ids: seq<int>, available: map<int, string>,
                        device: Option<Device>, failedAt: set<nat>, now: nat)
    requires forall k :: k in last ==> last[k].timestamp <= now
    ensures var pass := Harvest(ids, available, device, failedAt, now);
            && (forall k :: k in last + pass ==> (last + pass)[k].timestamp <= now)
            && (pass != map[] ==> IsLatest(last + pass, Some(now)))
  {
    var pass := Harvest(ids, available, device, failedAt, now);
    var merged := last + pass;
    HarvestValues(ids, available, device, failedAt, now);
    forall k | k in merged
      ensures merged[k].timestamp <= now
    {
      if k in pass {
        assert merged[k] == pass[k];
      } else {
        assert merged[k] == last[k];
      }
    }
    if pass != map[] {
      var k :| k in pass;
      assert merged[k] == pass[k];
      assert merged[k].timestamp == now;
      assert k in merged;
    }
  }

  class SunSpecGateway {
    const config: Config
    const client: SunSpecClient
    var isConnected: bool
    var lastData: map<string, Reading>
    var pollingTask: Option<TaskState>

    /** The gateway's client is a consistent session built from the gateway's configuration. */
    ghost predicate Valid()
      reads client`isConnected, client`device, client`availableModels
    {
      client.Valid() && client.config == config
    }

    constructor (config: Config)
      ensures Valid()
      ensures this.config == config && fresh(client)
      ensures !isConnected && lastData == map[] && pollingTask == None
      ensures client.device == None && !client.isConnected && client.lastReadTime == None
      ensures client.cachedData == map[] && client.availableModels == map[]
    {
      this.config := config;
      client := new SunSpecClient(config);
      isConnected := false;
      lastData := map[];
      pollingTask := None;
    }

    /**
     * `startup`: connect once; on success mark the gateway connected and
     * start the polling task, otherwise leave the gateway as it was.
     */
    method Startup(built: bool, scan: Option<map<ModelKey, seq<ModelInstance>>>)
      requires Valid()
      modifies this`isConnected, this`pollingTask, client`device, client`availableModels, client`isConnected
      ensures Valid()
      ensures client.isConnected <==> TransportFor(config.inverter).Success? && built && scan.Some?
      ensures TransportFor(config.inverter).Failure? || !built ==>
                client.device == old(client.device) && client.availableModels == old(client.availableModels)
      ensures TransportFor(config.inverter).Success? && built ==>
                client.device == Some(Device(TransportFor(config.inverter).value,
                                             if client.isConnected then scan.value else map[]))
      ensures client.isConnected ==> IsRegistryOf(client.availableModels, scan.value)
      ensures !client.isConnected ==> client.availableModels == old(client.availableModels)
      ensures client.isConnected ==> isConnected && pollingTask == Some(Running)
      ensures !client.isConnected ==> isConnected == old(isConnected) && pollingTask == old(pollingTask)
    {
      var connected := client.Connect(built, scan);
      if connected {
        isConnected := true;
        pollingTask := Some(Running);
      }
    }

    /**
     * `shutdown`: a held task is cancelled and awaited, and stays held; the
     * client is then disconnected. The gateway's own flag is not touched.
     */
    method Shutdown()
      requires Valid()
      modifies this`pollingTask, client`device, client`isConnected
      ensures Valid()
      ensures pollingTask == if old(pollingTask).Some? then Some(Cancelled) else None
      ensures client.device == None && !client.isConnected
      ensures isConnected == old(isConnected)
    {
      if pollingTask.Some? {
        pollingTask := Some(Cancelled);
      }
      client.Disconnect();
    }

    /**
     * One iteration of `_polling_loop`. A pass over the configured models
     * that raises (the session is not connected) leaves the snapshot alone
     * and pauses for the retry interval; a successful pass is merged key by
     * key into the snapshot, entries it did not deliver being kept, and the
     * loop then sleeps for the poll interval. A cancellation ends the loop:
     * during the pass it discards the pass, during the sleep it comes after
     * the merge.
     */
    method PollCycle(cancel: CancelPoint, failedAt: set<nat>, now: nat) returns (next: LoopStep)
      requires Valid()
      modifies this`lastData, client`cachedData, client`lastReadTime
      ensures Valid()
      ensures var connected := old(client.isConnected) && old(client.device).Some?;
              var pass := Harvest(config.dataCollection.modelsToRead, client.availableModels,
                                  client.device, failedAt, now);
              if !connected then
                && lastData == old(lastData)
                && client.cachedData == old(client.cachedData) && client.lastReadTime == old(client.lastReadTime)
                && next == (if cancel.NotCancelled? then Sleep(RetryPause) else Exit)
              else if cancel.CancelledDuringRead? then
                && lastData == old(lastData)
                && client.cachedData == old(client.cachedData) && client.lastReadTime == old(client.lastReadTime)
                && next == Exit
              else
                && lastData == old(lastData) + pass
                && client.cachedData == pass && client.lastReadTime == Some(now)
                && next == (if cancel.CancelledDuringSleep? then Exit else Sleep(config.dataCollection.pollInterval))
    {
      if cancel.CancelledDuringRead? && client.isConnected && client.device.Some? {
        return Exit;
      }
      var result := client.ReadData(Some(config.dataCollection.modelsToRead), failedAt, now);
      if result.Failure? {
        return if cancel.NotCancelled? then Sleep(RetryPause) else Exit;
      }
      if result.value != map[] {
        MergeIntoSnapshot(result.value);
      }
      next := if cancel.CancelledDuringSleep? then Exit else Sleep(config.dataCollection.pollInterval);
    }

    /** The merge step of the loop: each key of `data` overwrites the snapshot's entry. */
    method MergeIntoSnapshot(data: map<string, Reading>)
      modifies this`lastData
      ensures lastData == old(lastData) + data
    {
      var todo := data.Keys;
      while todo != {}
        invariant todo <= data.Keys
        invariant forall k :: k in lastData <==> k in old(lastData) || (k in data && k !in todo)
        invariant forall k :: k in lastData ==>
                    lastData[k] == if k in data && k !in todo then data[k] else old(lastData)[k]
        decreases |todo|
      {
        var k :| k in todo;
        lastData := lastData[k := data[k]];
        todo := todo - {k};
      }
      assert lastData == old(lastData) + data;
    }

    /**
     * `POST /device/connect`: the gateway's flag follows the outcome, and a
     * polling task is started only when connected and none is held, so
     * repeated connects never start a second task. The body carries the
     * outcome and the route's clock.
     */
    method ConnectDevice(built: bool, scan: Option<map<ModelKey, seq<ModelInstance>>>, now: nat)
      returns (r: ConnectionBody)
      requires Valid()
      modifies this`isConnected, this`pollingTask, client`device, client`availableModels, client`isConnected
      ensures Valid()
      ensures r.timestamp == now
      ensures r.connected <==> TransportFor(config.inverter).Success? && built && scan.Some?
      ensures isConnected == r.connected && client.isConnected == r.connected
      ensures TransportFor(config.inverter).Failure? || !built ==>
                client.device == old(client.device) && client.availableModels == old(client.availableModels)
      ensures TransportFor(config.inverter).Success? && built ==>
                client.device == Some(Device(TransportFor(config.inverter).value,
                                             if r.connected then scan.value else map[]))
      ensures r.connected ==> IsRegistryOf(client.availableModels, scan.value)
      ensures !r.connected ==> client.availableModels == old(client.availableModels)
      ensures pollingTask == if r.connected && old(pollingTask).None? then Some(Running) else old(pollingTask)
      ensures lastData == old(lastData)
    {
      var connected := client.Connect(built, scan);
      isConnected := connected;
      if connected && pollingTask.None? {
        pollingTask := Some(Running);
      }
      r := ConnectionBody(connected, now);
    }

    /**
     * `POST /device/disconnect`: a held task is cancelled and dropped without
     * being awaited, the client is disconnected and the gateway marked
     * disconnected; the snapshot is kept. The body carries `false` and the
     * route's clock.
     */
    method DisconnectDevice(now: nat) returns (r: ConnectionBody)
      requires Valid()
      modifies this`isConnected, this`pollingTask, client`device, client`isConnected
      ensures Valid()
      ensures r == ConnectionBody(false, now)
      ensures !isConnected && pollingTask == None
      ensures client.device == None && !client.isConnected
      ensures lastData == old(lastData)
    {
      if pollingTask.Some? {
        pollingTask := None;
      }
      client.Disconnect();
      isConnected := false;
      r := ConnectionBody(false, now);
    }

    /** `GET /data/live`: 503 when disconnected, 404 while the snapshot is empty, else the snapshot. */
    function LiveData(): (r: Response<map<string, Reading>>)
      reads this
      ensures !isConnected <==> r == HttpError(503, "Device not connected")
      ensures isConnected && lastData == map[] <==> r == HttpError(404, "No data available")
      ensures r.Ok? <==> isConnected && lastData != map[]
      ensures r.Ok? ==> r.body == lastData
    {
      if !isConnected then HttpError(503, "Device not connected")
      else if lastData == map[] then HttpError(404, "No data available")
      else Ok(lastData)
    }

    /** `GET /device/models`: 503 when disconnected, else the registry beside the configured ids. */
    function AvailableModels(): (r: Response<ModelsBody>)
      reads this, client
      ensures r.HttpError? <==> !isConnected
      ensures r.HttpError? ==> r.status == 503
      ensures r.Ok? ==> r.body.availableModels == client.availableModels
                        && r.body.configuredModels == config.dataCollection.modelsToRead
    {
      if !isConnected then HttpError(503, "Device not connected")
      else Ok(ModelsBody(client.availableModels, config.dataCollection.modelsToRead))
    }

    /** `GET /device/info`: 503 when the gateway is disconnected, else the client's summary. */
    method DeviceInfoRoute(readOk: bool, now: nat) returns (r: Response<Option<DeviceInfo>>)
      ensures r.HttpError? <==> !isConnected
      ensures r.HttpError? ==> r.status == 503
      ensures r.Ok? ==>
                var common := ReadingOf(client.device, client.availableModels, 1, readOk, now);
                r.body == if client.isConnected && common.Some? then Some(InfoFrom(common.value.points)) else None
    {
      if !isConnected {
        return HttpError(503, "Device not connected");
      }
      var info := client.GetDeviceInfo(readOk, now);
      r := Ok(info);
    }

    /**
     * `GET /data/model/{id}`: 503 when the gateway is disconnected; otherwise
     * the read of that model, which is the empty dict rather than a 404 when
     * the model is missing or its read fails.
     */
    method ModelData(modelId: int, readOk: bool, now: nat) returns (r: Response<ModelDataBody>)
      ensures r.HttpError? <==> !isConnected
      ensures r.HttpError? ==> r.status == 503
      ensures r.Ok? ==> r.body == ModelDataBody(modelId, ReadingOf(client.device, client.availableModels,
                                                                   modelId, readOk, now), now)
    {
      if !isConnected {
        return HttpError(503, "Device not connected");
      }
      var data := client.ReadModel(modelId, readOk, now);
      r := Ok(ModelDataBody(modelId, data, now));
    }

    /** `GET /health`: always healthy; the newest snapshot timestamp, none while it is empty. */
    method HealthCheck(now: nat) returns (h: Health)
      ensures h.status == "healthy" && h.connected == isConnected && h.timestamp == now
      ensures h.modelsConfigured == |config.dataCollection.modelsToRead|
      ensures IsLatest(lastData, h.lastPoll)
    {
      var latest: Option<nat> := None;
      var todo := lastData.Keys;
      while todo != {}
        invariant todo <= lastData.Keys
        invariant latest.None? <==> todo == lastData.Keys
        invariant latest.Some? ==>
                    && (exists k :: k in lastData && k !in todo && lastData[k].timestamp == latest.value)
                    && (forall k :: k in lastData && k !in todo ==> lastData[k].timestamp <= latest.value)
        decreases |todo|
      {
        var k :| k in todo;
        var t := lastData[k].timestamp;
        if latest.None? || latest.value < t {
          latest := Some(t);
        }
        todo := todo - {k};
      }
      if latest.None? {
        assert lastData.Keys == {};
        assert lastData == map[];
      }
      h := Health("healthy", isConnected, |config.dataCollection.modelsToRead|, latest, now);
    }
  }
}
