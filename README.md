# SunSpec gateway: session and polling engine

This project models the core of a gateway between a REST API and one SunSpec inverter. That core has four parts:

- The client session (`SunSpecClient`). It builds a Modbus TCP or RTU transport from the configuration and discovers the device's models into a registry that maps model ids to names. It harvests the configured models one by one, isolating read failures to the model that failed. It also extracts point values (the scaled value when present, otherwise the raw one), writes a point, summarises the common model (model 1) and disconnects.
- The gateway service (`SunSpecGateway`). Each polling iteration merges the harvest into a last-known-good snapshot. The connect, disconnect, startup and shutdown transitions manage the gateway's connected flag and its background polling task. The read-only REST handlers decide status codes (503, 404) from that state, and the health summary reports the newest snapshot timestamp.
- The configuration records, their defaults, and the validator that accepts only `tcp` or `rtu` as the connection type.
- The direct-connection helper. It proposes inverter addresses from the computer's own IPv4 address and tests for the link-local prefix `169.254.`.

The SunSpec register library is replaced by an abstract device value (`SunSpecDevice.Device`). That value maps model keys to lists of model instances; each instance has named points, and each point has an optional raw value and an optional scaled value. Anything the library or the runtime decides is passed in as a parameter, except the point values a read returns (see "## Left out"):

- whether the TCP or RTU device constructor returns or raises (`built`);
- the outcome of the device scan (`scan`, `None` when it raises);
- the outcome of each read (`readOk`, or `failedAt`, which lists the positions of a pass whose read raises);
- the outcome of a device write (`writeOk`);
- the clock (`now`, a natural number standing in for `datetime.now()`; one value per read pass or route call, see "## Left out");
- where a cancellation reaches a polling iteration (`CancelPoint`).

Files, one module each:

- `wrappers.dfy`: `Option` and `Result`.
- `text.dfy`: decimal rendering of integers as Python's `str(int)` does it, its round trip and injectivity, and `str.split` on one character.
- `config.dfy`: `src/config.py`.
- `device.dfy`: the abstract device.
- `sunspec_client.dfy`: `src/sunspec_client.py`. It holds the specification functions and lemmas, the dictionary-building loops, and the `SunSpecClient` class.
- `gateway.dfy`: `src/gateway.py`. It holds the merge and timestamp lemmas and the `SunSpecGateway` class.
- `direct_connection.dfy`: `suggest_inverter_ips` and the link-local test of `setup_direct_connection.py`.

Points where the code behaves differently from what a connection manager is commonly expected to do. The model follows the code:

- The transport kinds are named `tcp` and `rtu`; `rtu` is the serial-line transport.
- `connect` is not idempotent. Each call builds a new device and runs discovery again, and the previous device is never closed. Only the polling task is protected against a second start: `connect_device` starts a task only when none is held.
- A failed discovery does not close the new device. The session keeps it and reports `false`. The registry keeps its previous contents, because it is reset only after the scan has returned.
- `disconnect` clears neither the registry nor the cached data.
- `disconnect_device` cancels the polling task without awaiting it, so a pass in flight can outlive the disconnect. `shutdown` does await the polling task, and then keeps holding it, cancelled. After a shutdown, `connect_device` therefore never starts polling again.
- The snapshot is never cleared. A reconnect merges new readings into the entries of the previous session.
- `/data/model/{id}` answers 200 with an empty reading for a missing model or a failed read, never 404. The route's 404 test checks for `None`, which the read never returns.

## Model

| member | source | states |
|---|---|---|
| Config.DefaultTcpConfig | src/config.py:20-25 | a TCP section built from a host alone has port 502, unit id 1 and timeout 10 |
| Config.DefaultRtuConfig | src/config.py:28-36 | an RTU section built from a port name alone has 19200 baud, 8 data bits, parity "N", 1 stop bit, unit id 1 and timeout 10 |
| Config.DefaultDataCollection | src/config.py:52-57 | polling defaults: interval 30, models [1, 103, 160, 113], 3 retries, retry delay 5 |
| Config.DefaultServer | src/config.py:13-17 | server defaults: host 0.0.0.0, port 8080, log level INFO |
| Config.DefaultLogging | src/config.py:60-66 | logging defaults: level INFO, file gateway.log, 10MB, 5 backups |
| Config.DefaultGatewayInfo | src/config.py:69-73 | the gateway's name and version |
| Config.ValidateConnectionType | src/config.py:45-49 | a connection type is accepted, and returned unchanged, exactly when it is "tcp" or "rtu"; anything else is an error |
| Config.NewInverterConfig | src/config.py:39-49 | an inverter section can be constructed exactly when its connection type validates, and then holds the given sections |
| Config.GetDefaultConfig | src/config.py:117-128 | the development configuration is TCP to 192.168.1.100 with default TCP fields, has no RTU section, and uses every other section's defaults |
| Config.DefaultConfigValidates | src/config.py:117-128 | the default inverter section passes the connection-type validator |
| Text.Split | setup_direct_connection.py:64 | a split always yields at least one field |
| Text.SplitJoin | setup_direct_connection.py:64 | the fields of a split rejoin to the input, and no field contains the separator |
| Text.JoinSplit | setup_direct_connection.py:64 | splitting separator-free fields joined with the separator gives those fields back |
| Text.SplitSingleField | setup_direct_connection.py:64 | a string without the separator splits into itself alone |
| Text.SplitLeadingField | setup_direct_connection.py:64 | a leading field without a separator splits off as the first field |
| Text.NatToStringRoundTrip | src/sunspec_client.py:165 | parsing the decimal rendering of a number gives back the number; the helper behind the injectivity of the rendered `model_<id>` keys |
| Text.IntToStringInjective | src/sunspec_client.py:165 | distinct integers render as distinct strings |
| Client.SnapshotKeyInjective | src/sunspec_client.py:165 | distinct model ids never share a result key `model_<id>` |
| Client.TransportFor | src/sunspec_client.py:60-110 | a transport is built exactly when the type is "tcp" with a TCP section or "rtu" with an RTU section, from that section; every other case is an error |
| Client.RejectedTypeHasNoTransport | src/sunspec_client.py:60-65 | a connection type the validator rejects never yields a transport |
| Client.DefaultConfigTransport | src/sunspec_client.py:79-92 | the default configuration yields a TCP transport to 192.168.1.100:502, unit 1, timeout 10 |
| Client.RegistryOf | src/sunspec_client.py:123-131 | the registry discovery builds holds exactly the integer keys of the scan, each named by its first instance's model name or `Model_<id>` |
| Client.RegistryUnique | src/sunspec_client.py:123-131 | any map with that property is the registry: discovery's result is determined by the scan alone |
| Client.ReadingOf | src/sunspec_client.py:175-228 | a read yields nothing exactly when there is no device, the model is absent, it has no instances or the read raises; otherwise the reading carries the id, the registry name (or `Model_<id>`), the clock and the entries of the first instance |
| Client.Harvest | src/sunspec_client.py:154-169 | the result of the read loop: ids in order, an undiscovered id skipped, a read that raises skipped, every other reading stored under `model_<id>` |
| Client.HarvestStep | src/sunspec_client.py:156-169 | reading one more id adds that id's reading under `model_<id>` when it is discovered and its read succeeds, and changes nothing otherwise |
| Client.HarvestKeys | src/sunspec_client.py:156-169 | a key is in a pass's result exactly when some position delivered a reading for an id with that key |
| Client.HarvestValues | src/sunspec_client.py:156-169 | every stored reading is a successful read of a discovered model, stamped with the pass's clock, under its own model's key |
| Client.HarvestOfModel | src/sunspec_client.py:156-169 | failure isolation: a model's key is present exactly when the model is discovered and one of its positions read successfully, whatever happened at the other ids, and it then holds that model's reading |
| Client.InfoFrom | src/sunspec_client.py:290-296 | the summary takes Mn, Md, Vr and SN, each defaulting to "Unknown", and DA, defaulting to 1 |
| Client.WritePreservesRegistry | src/sunspec_client.py:259-263 | setting a point's scaled value adds, drops and renames no model, so the registry still reflects the device |
| Client.ExtractPoints | src/sunspec_client.py:192-200 | the loop keeps exactly the points with a raw value, each mapped to its scaled value when present and to its raw value otherwise |
| Client.ExtractInstances | src/sunspec_client.py:206-216 | the loop gives each instance of a repeating group its point values, in instance order |
| Client.AddGroups | src/sunspec_client.py:203-217 | the loop writes every repeating group over the point entries of the same name, and keeps every other entry; non-list groups are skipped |
| Client.SunSpecClient.constructor | src/sunspec_client.py:36-48 | a new session has no device, is disconnected, and has an empty cache, registry and read time |
| Client.SunSpecClient.Connect | src/sunspec_client.py:57-77 | reports success, and sets the flag, exactly when the configuration names a usable transport, its constructor returns and the scan succeeds; then the device holds the scan and the registry reflects it. A failed scan leaves the new device without models and keeps the old registry; a failed configuration check or a raising constructor changes neither. The cache is untouched |
| Client.SunSpecClient.DiscoverModels | src/sunspec_client.py:112-136 | with a device and a successful scan, the registry is rebuilt from scratch to reflect the scan; without a device, or when the scan raises, the registry and device are unchanged |
| Client.SunSpecClient.ReadData | src/sunspec_client.py:148-173 | raises when not connected or without a device, changing nothing; otherwise returns the harvest of the given ids (the configured ones for `None`), replaces the cache with it, and stamps the read time |
| Client.SunSpecClient.ReadModel | src/sunspec_client.py:175-228 | the method returns exactly the reading `Client.ReadingOf` describes, built by the extraction loops |
| Client.SunSpecClient.WritePoint | src/sunspec_client.py:242-275 | raises when not connected; reports false, changing nothing, for a missing model, instance or point; otherwise sets the point's scaled value locally and reports the device write's outcome, so the local change is kept when the write fails |
| Client.SunSpecClient.GetDeviceInfo | src/sunspec_client.py:281-300 | a summary exactly when connected and model 1 reads successfully, built from its entries |
| Client.SunSpecClient.Disconnect | src/sunspec_client.py:302-312 | without a device nothing changes; otherwise the device is dropped and the session disconnected, whether or not the close raised |
| Client.SunSpecClient.GetCachedData | src/sunspec_client.py:314-320 | the cache, its read time and the registry, as stored |
| Gateway.LatestUnique | src/gateway.py:269 | the newest timestamp of a snapshot is determined by it |
| Gateway.MergeOfModel | src/gateway.py:127-132 | after a merge, a model's key is present exactly when it was before or the model was delivered; a delivered model holds its fresh reading, and one that was skipped or failed keeps its previous entry |
| Gateway.MergeTimestamps | src/gateway.py:127-132 | with a clock that does not go back, no entry is newer than the merge's clock, and a merge that delivered anything makes its clock the newest timestamp |
| Gateway.SunSpecGateway.constructor | src/gateway.py:43-50 | a new gateway is disconnected, with an empty snapshot, no task and a fresh client on the same configuration |
| Gateway.SunSpecGateway.Startup | src/gateway.py:86-102 | on a successful first connect, marks the gateway connected and starts the polling task; otherwise changes neither; in every case the client's device and registry are what the connect left: unchanged when the transport or device constructor fails, the new device otherwise, and the scan's registry exactly when connected |
| Gateway.SunSpecGateway.Shutdown | src/gateway.py:104-120 | a held task ends up cancelled and stays held, the client is left without device and disconnected, and the gateway's flag is unchanged |
| Gateway.SunSpecGateway.PollCycle | src/gateway.py:122-141 | a pass that raises keeps the snapshot and backs off 5 seconds; a successful pass is merged over the snapshot (result keys overwrite, other entries stay) and the loop sleeps the poll interval; only a cancellation exits, and one during the pass discards it |
| Gateway.SunSpecGateway.MergeIntoSnapshot | src/gateway.py:131-132 | the loop overwrites each key of the result in the snapshot and keeps every other key |
| Gateway.SunSpecGateway.ConnectDevice | src/gateway.py:222-235 | the flag and the body's `connected` become the connect outcome and the body carries the route's clock; the client's device and registry are what the connect left (unchanged on a failed transport or constructor, the new device otherwise, the scan's registry exactly when connected); a task is started only when connected and none is held, so repeated connects never start a second one |
| Gateway.SunSpecGateway.DisconnectDevice | src/gateway.py:237-251 | drops any task, disconnects the client, clears the flag and answers `connected: false` with the route's clock; the snapshot is kept |
| Gateway.SunSpecGateway.LiveData | src/gateway.py:191-200 | 503 exactly when disconnected, 404 exactly when connected with an empty snapshot, otherwise the snapshot unchanged |
| Gateway.SunSpecGateway.AvailableModels | src/gateway.py:175-189 | 503 exactly when disconnected, otherwise the client's registry beside the configured model ids |
| Gateway.SunSpecGateway.DeviceInfoRoute | src/gateway.py:163-173 | 503 exactly when disconnected, otherwise the client's common-model summary, which may be empty |
| Gateway.SunSpecGateway.ModelData | src/gateway.py:202-220 | 503 exactly when disconnected, otherwise the id, the read of that model (empty for a missing model or a failed read) and the clock |
| Gateway.SunSpecGateway.HealthCheck | src/gateway.py:262-271 | always healthy; the gateway's flag, the number of configured models, and the newest snapshot timestamp, which is absent exactly when the snapshot is empty |
| DirectConnection.NetworkInfoOf | setup_direct_connection.py:21-42 | the resolved address, flagged as a direct link exactly when it starts with `169.254.`; nothing when resolution raised |
| DirectConnection.IsApipa | setup_direct_connection.py:33 | an address is link-local exactly when it starts with `169.254.`; the same test chooses the branch at line 50 |
| DirectConnection.SubnetBase | setup_direct_connection.py:76-77 | the subnet base exists exactly when the address has at least three dot-separated fields, and is those fields rejoined |
| DirectConnection.CandidateInjective | setup_direct_connection.py:69 | distinct host numbers give distinct addresses in one subnet |
| DirectConnection.Kept | setup_direct_connection.py:68-78 | the addresses of the given hosts of a subnet, in order, except the one equal to the computer's address |
| DirectConnection.KeptMembers | setup_direct_connection.py:68-71 | an address is kept exactly when it is one of the host addresses and differs from the computer's |
| DirectConnection.KeptAll | setup_direct_connection.py:78 | when no host address equals the computer's, every host address is kept, in order |
| DirectConnection.DropsOnlyMatch | setup_direct_connection.py:78 | over distinct hosts, exactly the host whose address is the computer's is dropped; the others stay in order |
| DirectConnection.KeptLength | setup_direct_connection.py:78 | over distinct hosts, one address is dropped when the computer's address is among them, and none otherwise |
| DirectConnection.ApipaBase | setup_direct_connection.py:64-65 | a link-local address always has three fields, so its branch cannot raise, and its subnet base is link-local |
| DirectConnection.ApipaCandidates | setup_direct_connection.py:68-71 | every subnet candidate appended on a direct link is itself link-local |
| DirectConnection.SuggestInverterIps | setup_direct_connection.py:45-78 | a missing or empty address gives no suggestions. A link-local address gives the 7 fixed addresses, then subnet hosts 1, 2, 3, 4, 5, 10, 100 and 200 that differ from it. Any other address gives subnet hosts 1 to 254 that differ from it, or the index error when it has fewer than three fields |
| DirectConnection.RegularSuggestions | setup_direct_connection.py:74-78 | the ordinary-network list never holds the computer's address, holds every other host 1 to 254 in increasing order, and has 253 or 254 entries |
| DirectConnection.ApipaSuggestions | setup_direct_connection.py:50-73 | the direct-link list starts with the fixed list unfiltered, holds the computer's own address exactly when it is a fixed one, continues with link-local addresses only, and has 14 or 15 entries |

## Left out

- The pySunSpec2 library (device constructors, `scan`, `model.read`, `model.write`, `close`). It is replaced by the abstract device and by per-call outcome parameters. In particular, a read does not refresh the register values of the model: the reading is taken from the instance as scanned or as last written locally. The `hasattr` probes are left out too: every instance has points and groups, every point has both value fields, and a missing model name is `None`.
- Client.SunSpecClient.WritePoint: a locally written `cvalue`, even one the device rejected (`writeOk` false), is what every later reading of that model reports, and so what every poll stores for it. In the source the next `read_model` runs `model.read` first (src/sunspec_client.py:189), which replaces it with the device's value.
- Client.SunSpecClient.Connect: when the scan raises, the device is left with no models. What a partial scan leaves in the library's model list is not modelled.
- Python dictionary insertion order is left out. Results, the registry and the snapshot are maps, so only their contents are stated, not the order of their keys in JSON output.
- asyncio is left out (`create_task`, `cancel`, the awaits, `run_in_executor`, `sleep`). The concurrency itself is not modelled: one polling iteration is a sequential method, the polling task is a held state (`Running`, `Cancelled`), and a cancellation is an input saying where it arrives. A pass that is cancelled when it never reaches a suspension point is not distinguished.
- `datetime.now()` is replaced by the `now` parameter. The ISO timestamps the source compares as strings are modelled as natural numbers. The source's naive local-time strings sort like the instants they name only while local time does not go back. A daylight-saving fall-back breaks that, and the model does not capture it.
- Client.Harvest: one `now` stamps every reading of a pass. The source calls the clock again for each model read, so later models of a pass carry later stamps.
- Client.SunSpecClient.ReadData: `lastReadTime` is the same `now` as the pass's readings. The source takes it from a separate clock call after the loop, so it is later than every reading's stamp.
- Gateway.MergeTimestamps: because of the single clock value per pass, the newest entry after a delivering merge equals the pass's `now`, which is also the client's `lastReadTime`. In the source the newest entry is the stamp of the last model delivered, and `last_read_time` is later than it.
- Gateway.SunSpecGateway.ModelData: the reading's stamp and the response's `timestamp` are the same `now`. The source calls the clock for each of them, the route's call coming later.
- Gateway.SunSpecGateway.HealthCheck: `data.get("timestamp", "")` is not modelled, because every stored reading carries a timestamp; the default never applies.
- `get_available_models` (src/sunspec_client.py:277-279) returns the registry field. `Gateway.SunSpecGateway.AvailableModels` reads that field directly.
- The route 404 in `/data/model/{id}` cannot be reached and is not modelled. Neither are the 500 answers the routes give for exceptions, since none of the called client methods raise on those paths.
- FastAPI plumbing is left out: app construction, CORS, the static mount, the `/` redirect, `/api/status`, `/config`, the `WriteRequest` body model and HTTP error rendering. Only the status and body decisions are modelled.
- The socket calls of `get_network_info` are left out. The resolved address is a parameter, so only the link-local test and its result are modelled.
- `load_config` is left out: YAML parsing and file access.
- `main.py`, `app_engine_main.py`, the probing and diagnostic scripts, the HTTP test clients and `test_basic.py` are left out. They are I/O, printing and process control around the core.
- The interactive part of `setup_direct_connection.py`, the ping probes and `create_gateway` are left out: console and process I/O.
- All logging is left out.
