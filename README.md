# Beacon, modelled in Dafny

Beacon is a small network-monitoring web application: an ASP.NET server with a browser
client. It does four things:

- It keeps a table of **devices** (host name, IP address, status, last seen) and the TCP
  **ports** monitored on them.
- It keeps **URL monitors**, which it checks over HTTP. These checks keep per-monitor
  statistics and the TLS **certificate** last seen on the site.
- It runs a **background service** that re-checks the active monitors at the shortest
  active interval.
- It **discovers** hosts on the local network. It pings each address in a range,
  resolves the name, probes a fixed table of ports, classifies the device and adds it to
  the device table.

The browser scripts show counters, certificate badges, device lists and a monitor filter.

This project models the decision logic of that system and proves what each part promises:

- One Dafny module per source file.
- Entities that the source updates in place are classes:
  - `UrlModels.UrlMonitor`, the monitor record;
  - `DeviceStore.DeviceContext`, the two device tables;
  - `ClientDashboard.Dashboard`, the page's global lists.
- Their methods are specified against functions on plain values. Each method's state
  afterwards equals a function of its state before (`Snapshot()`).
- Network answers are parameters of type `HttpAnswer`, `TlsAnswer`, `PingReply` and
  `HostAnswers`. So are database save faults and the clock (`now`, integer milliseconds).
  Everything is therefore sequential and deterministic.

Modules and the source files they model:

| module | source |
|---|---|
| `UrlModels` | Models/URL.cs |
| `Certificates` | Models/Certificate.cs |
| `MonitoringApi` | Controllers/MonitoringController.cs |
| `UrlService` | Services/URLMonitoringService.cs |
| `BackgroundService` | Services/URLMonitorBackgroundService.cs |
| `UrlApi` | Controllers/URLController.cs |
| `DeviceStore` | Models/Device.cs, Models/MonitoredPort.cs, Data/ApplicationDbContext.cs |
| `DevicesApi` | Controllers/DevicesController.cs |
| `Discovery` | Services/NetworkDiscoveryService.cs |
| `DiscoveryApi` | Controllers/API/NetworkDiscoveryAPIController.cs |
| `ClientUtils` | wwwroot/js/utils.js |
| `ClientDevices` | wwwroot/js/devices.js |
| `ClientDashboard` | wwwroot/js/Functions.js |
| `ClientMonitoring` | wwwroot/js/monitoring.js |
| `ClientCertificates` | wwwroot/js/certificates.js |

`Common` holds the shared vocabulary:

- optional values and integer time;
- counting and filtering, with their lemmas;
- .NET `int.Parse` and white space;
- splitting, searching and ASCII lower-casing of strings;
- decimal printing with its round trip;
- a stable sort.

## Model

| member | source | states |
|---|---|---|
| UrlModels.Ratio | Models/URL.cs:62 | The success percentage is 0 before the first check, within 0..100 while successes do not exceed checks, and 100 when every check succeeded |
| UrlModels.Uptime | Models/URL.cs:57-59 | Present exactly when both the last-up and last-down instants are set and the last-up one is later; then it is now minus the last-up instant |
| UrlModels.ReliabilityScore | Models/URL.cs:62 | 0 with no checks; for a consistent monitor (successes ≤ checks, percentage recomputed) it equals the stored percentage and lies in 0..100 |
| UrlModels.NewMonitorDefaults | Models/URL.cs:27-45 | A new monitor is active, Unknown, not up, with timeout 30, interval 5, certificate monitoring on, all counters 0, reliability 0 and no uptime |
| UrlModels.NewMonitor | Models/URL.cs:27-45 | The record a new monitor's initialisers give, created now; NewMonitorDefaults lists its fields |
| UrlModels.IsHttpsIgnoresCase | Models/URL.cs:55 | The https test gives the same answer for a URL and its lower-cased form |
| UrlModels.IsHttps | Models/URL.cs:55 | Whether the address starts with "https://" ignoring ASCII case; IsHttpsIgnoresCase and IsHttpsExamples state its meaning |
| UrlModels.IsHttpsExamples | Models/URL.cs:55 | "https://…" and "HTTPS://…" count as https; "http://…" does not |
| UrlModels.UrlMonitor.constructor | Models/URL.cs:20-48 | A fresh monitor object holds exactly the default record |
| UrlModels.Snapshots | Models/URL.cs:20-51 | The records of a list of monitor objects, one per object |
| UrlModels.SnapshotsIndex | Models/URL.cs:20-51 | The i-th record is the i-th monitor's snapshot |
| Certificates.NewCertificate | Models/Certificate.cs:33-39 | A new certificate has status Unknown, is not a device certificate (no device id), and is stamped now |
| Certificates.IsExpired | Models/Certificate.cs:46 | Expired iff now is after the expiry date; partnered by ExpiryWindows |
| Certificates.IsExpiringSoon | Models/Certificate.cs:47 | Expiring soon iff the expiry is within 30 days of now and not passed; partnered by ExpiryWindows and DaysAgreeWithWindows |
| Certificates.DaysUntilExpiry | Models/Certificate.cs:48 | The whole days to the expiry, truncated toward zero; its bounds are DaysAgreeWithWindows and DaysNearExpiry |
| Certificates.ExpiryWindows | Models/Certificate.cs:46-47 | Expired and expiring-soon never both hold; a certificate is expired, expiring soon, or at least 30 days away, and one at least 30 days away is neither |
| Certificates.DaysAgreeWithWindows | Models/Certificate.cs:46-48 | At least 30 days left iff neither expired nor expiring soon; 0..29 days while expiring soon; never positive once expired |
| Certificates.DaysNearExpiry | Models/Certificate.cs:48 | Truncation gives 0 days anywhere within one day of the expiry instant, on either side, and a negative count only a whole day or more after it |
| MonitoringApi.Started | Controllers/MonitoringController.cs:93-95 | Starting a check adds one to the checks and leaves the successes and the configuration alone |
| MonitoringApi.Failure | Controllers/MonitoringController.cs:150-159 | The exception handler leaves Error with the message, no response code or time, the down instant now, one more failure, and unchanged counters |
| MonitoringApi.Judged | Controllers/MonitoringController.cs:112-128 | A 2xx code gives Up and one more success; any other code gives Down and no new success |
| MonitoringApi.Recomputed | Controllers/MonitoringController.cs:161-163 | The percentage is recomputed from the two counters |
| MonitoringApi.WithCertificate | Controllers/MonitoringController.cs:139-147 | Attaching the certificate read from the handshake keeps the monitor's configuration |
| MonitoringApi.FullCheck | Controllers/MonitoringController.cs:91-163 | One full check adds one check, stamps now, adds at most one success, ends Up, Down or Error, and recomputes the percentage |
| MonitoringApi.FullCheckBookkeeping | Controllers/MonitoringController.cs:93-95 | A full check keeps successes ≤ checks, so the percentage stays within 0..100 and equals the reliability score; the status is never Timeout or Unknown (see also lines 161-163) |
| MonitoringApi.SuccessfulResponse | Controllers/MonitoringController.cs:112-122 | A 2xx response, with no certificate step or a completed one, gives Up, the up instant now, one more success, a zero failure streak, the code and time recorded, and an empty error |
| MonitoringApi.UnsuccessfulResponse | Controllers/MonitoringController.cs:112-114 | A non-2xx response gives Down, the down instant now, an unchanged success count, one more failure, the code recorded and an empty error (see also lines 123-128) |
| MonitoringApi.ExceptionMeansError | Controllers/MonitoringController.cs:150-159 | Any exception, a timeout included, gives Error (never Timeout). It clears the response data, records the exception's message, adds one failure and keeps the certificate. An out-of-range client timeout records .NET's refusal text, "Specified argument was out of the range of valid values. (Parameter 'value')" |
| MonitoringApi.UpExactly | Controllers/MonitoringController.cs:116-159 | The monitor ends Up iff the client accepted its timeout, the response was 2xx and no certificate step failed |
| MonitoringApi.TlsFailureAfterSuccess | Controllers/MonitoringController.cs:116-159 | A failed TLS step after a 2xx response gives Error with the TLS message, yet the success is counted, the failure streak is 1 and both the up and down instants are now |
| MonitoringApi.TlsFailureAfterFailure | Controllers/MonitoringController.cs:123-159 | A failed TLS step after a non-2xx response adds two failures in one check |
| MonitoringApi.CertificateReplaced | Controllers/MonitoringController.cs:131-147 | A completed handshake always installs a fresh certificate whose thumbprint is the serial number and whose expiry is NotAfter as local time (the UTC instant plus the host offset), with no dedup against the old one; otherwise the certificate is unchanged |
| MonitoringApi.LocalTimeShift | Controllers/MonitoringController.cs:143 | The stored expiry is NotAfter plus the host offset, so east of UTC a certificate reads as valid for up to the offset after it lapsed, and west of UTC as expired before it lapses; the days left shift by the same offset (see also Models/Certificate.cs:46-48) |
| MonitoringApi.FailuresAccumulate | Controllers/MonitoringController.cs:91-163 | n checks without a 2xx-and-clean outcome add n checks, no success, and at least n to the failure streak |
| MonitoringApi.RunKeepsValid | Controllers/MonitoringController.cs:161-163 | Any run of full checks keeps the monitor invariant and adds one check per probe |
| MonitoringApi.FullCycleShape | Controllers/MonitoringController.cs:85-95 | The cycle checks exactly the active monitors, each once, and leaves inactive ones unchanged; it reports one summary per active monitor, in table order (see also lines 165-176) |
| MonitoringApi.FullCycleKeepsValid | Controllers/MonitoringController.cs:85-177 | The cycle keeps the monitor invariant on every monitor of the table |
| MonitoringApi.FullCycleExtend | Controllers/MonitoringController.cs:91-177 | One more monitor of the table is one more iteration of the loop |
| MonitoringApi.FullCycle | Controllers/MonitoringController.cs:83-177 | The table and summaries after CheckAllMonitors, the k-th active monitor checked with probe k; its properties are FullCycleShape, FullCycleKeepsValid and FullCycleExtend |
| MonitoringApi.CheckEntry | Controllers/MonitoringController.cs:91-177 | One iteration of the cycle loop leaves the table and the summaries of the cycle step |
| MonitoringApi.CheckMonitorFully | Controllers/MonitoringController.cs:93-163 | Checking a monitor object leaves exactly the full-check state |
| MonitoringApi.Start | Controllers/MonitoringController.cs:93-95 | The object's state afterwards is the started state |
| MonitoringApi.Judge | Controllers/MonitoringController.cs:112-128 | The object's state afterwards is the judged state |
| MonitoringApi.RecordResponse | Controllers/MonitoringController.cs:112-114 | Records the code and time and clears the error; nothing else changes |
| MonitoringApi.MarkUp | Controllers/MonitoringController.cs:118-121 | Up, up instant now, one more success, failure streak 0; nothing else changes |
| MonitoringApi.MarkDown | Controllers/MonitoringController.cs:125-127 | Down, down instant now, one more failure; nothing else changes |
| MonitoringApi.AttachCertificate | Controllers/MonitoringController.cs:139-147 | The object afterwards carries the certificate from the handshake |
| MonitoringApi.Fail | Controllers/MonitoringController.cs:150-159 | The object's state afterwards is the exception handler's state |
| MonitoringApi.ClearResponse | Controllers/MonitoringController.cs:154-155 | Clears the response code and time; nothing else changes |
| MonitoringApi.MarkError | Controllers/MonitoringController.cs:153 | Error, down instant now, the message, one more failure; nothing else changes (see also lines 156-158) |
| MonitoringApi.RecomputeUptime | Controllers/MonitoringController.cs:161-163 | The object's percentage is recomputed from its counters |
| MonitoringApi.CheckAllMonitors | Controllers/MonitoringController.cs:83-180 | The table's monitors afterwards are the cycle's records, and the returned list is the cycle's summaries |
| MonitoringApi.ExpiringCertificates | Controllers/MonitoringController.cs:242-250 | Exactly the certificates with now < expiry ≤ now + days, ascending by expiry, each as many times as in the table (a permutation of the window); none (the 500 path) when the cutoff date is out of range |
| MonitoringApi.DashboardExpiring | Controllers/MonitoringController.cs:305-310 | The dashboard keeps the first ten of the 30-day window, in order |
| MonitoringApi.WindowAgreesWithExpiringSoon | Controllers/MonitoringController.cs:306 | Every certificate of the 30-day window is expiring soon, except one that expires exactly 30 days from now (see also Models/Certificate.cs:47) |
| MonitoringApi.DtoDaysUntilExpiry | Controllers/MonitoringController.cs:363-365 | The summary's day count is absent iff the expiry date is absent |
| MonitoringApi.DtoAgreesWithCertificate | Controllers/MonitoringController.cs:361-365 | The summary agrees with the certificate on the days, and on expiry except at the expiry instant: the summary says expired there, the certificate does not (see also Models/Certificate.cs:46,48) |
| UrlService.StatusCheck | Services/URLMonitoringService.cs:80-104 | A status check always stamps now on the last-checked and updated instants and keeps the configuration |
| UrlService.StatusCheckOutcome | Services/URLMonitoringService.cs:86-101 | Up iff a 2xx response; Down iff another response; Timeout iff the request was cancelled; Error iff another failure. The error text is "", "Request timed out" or the message, and a response records its code and time |
| UrlService.StatusCheckKeepsStatistics | Services/URLMonitoringService.cs:80-109 | Counters, percentage, up/down instants and certificate are untouched. After a timeout or error the previous code and time stay. The timeout setting plays no part, at any instant |
| UrlService.StatusCheckKeepsValid | Services/URLMonitoringService.cs:80-109 | A status check keeps the monitor invariant and the reliability score |
| UrlService.StatusCheckIdempotent | Services/URLMonitoringService.cs:80-109 | Repeating a status check with the same answer and time changes nothing more, while a second full check with any probe never leaves the monitor as the first did, since it counts one more check (see also Controllers/MonitoringController.cs:93) |
| UrlService.TimeoutDiffersFromFullCheck | Services/URLMonitoringService.cs:91-95 | A timeout is Timeout in the status check but Error in the full check (see also Controllers/MonitoringController.cs:150-153) |
| UrlService.CheckUrl | Services/URLMonitoringService.cs:80-108 | The monitor object afterwards holds the status-check state |
| UrlService.SetOutcome | Services/URLMonitoringService.cs:88-99 | Sets the status and the error text; nothing else changes |
| UrlService.Stamp | Services/URLMonitoringService.cs:103-104 | Sets the last-checked and updated instants; nothing else changes |
| UrlService.StatusPassShape | Services/URLMonitoringService.cs:111-121 | The pass keeps the table's length; each position is checked with its own answer when active and is unchanged otherwise |
| UrlService.StatusPassCounts | Services/URLMonitoringService.cs:111-121 | The pass keeps the number of active monitors and stamps every active monitor with now |
| UrlService.StatusPassKeepsValid | Services/URLMonitoringService.cs:111-121 | After a pass every monitor still satisfies the invariant |
| UrlService.StatusPass | Services/URLMonitoringService.cs:111-121 | The table after CheckAllActiveUrlsAsync: active monitors checked, each with its own answer, the others unchanged; its properties are StatusPassShape, StatusPassCounts and StatusPassKeepsValid |
| UrlService.CheckAllActiveUrls | Services/URLMonitoringService.cs:111-121 | The table's monitors afterwards are the pass over their previous records |
| BackgroundService.MinInterval | Services/URLMonitorBackgroundService.cs:73-75 | The minimum is absent iff the list is empty; otherwise it is some monitor's interval and no larger than any |
| BackgroundService.NextCheckDelayMinutes | Services/URLMonitorBackgroundService.cs:59-84 | The delay is always at least 1 minute; it is the 5-minute default when reading fails or no monitor is active |
| BackgroundService.DelayIsShortestInterval | Services/URLMonitorBackgroundService.cs:73-77 | With an active monitor, the delay is at most every active interval (or 1). It equals some active interval, or 1 when that interval is below 1 |
| BackgroundService.InactiveIgnored | Services/URLMonitorBackgroundService.cs:74 | Inserting an inactive monitor anywhere never changes the delay |
| BackgroundService.CyclesRun | Services/URLMonitorBackgroundService.cs:26-54 | The loop runs at most one cycle per round |
| BackgroundService.Waits | Services/URLMonitorBackgroundService.cs:43-47 | The delays waited in full, in order; WhatStopsTheLoop and LoopEnding state their count and bounds |
| BackgroundService.Faults | Services/URLMonitorBackgroundService.cs:45-53 | Whether the loop ends by Task.Delay's exception; LoopEnding and OverlongIntervalsFault state when |
| BackgroundService.WhatStopsTheLoop | Services/URLMonitorBackgroundService.cs:26-53 | Every round runs iff each earlier round was neither cancelled nor asked for a delay over Task.Delay's limit, and the last was not cancelled at the loop head. Without either, every round waits and nothing faults; every wait is 1 to 71582 minutes |
| BackgroundService.TooLongBound | Services/URLMonitorBackgroundService.cs:47 | A delay is over Task.Delay's limit of 4294967294 ms iff it exceeds 71582 minutes; the fallback delay after a failed load never is |
| BackgroundService.LoopEnding | Services/URLMonitorBackgroundService.cs:26-57 | The loop runs as many cycles as waits, or one more; one more means the last round was cancelled in its wait or asked for an over-long delay, and the loop faults exactly in the second case |
| BackgroundService.OverlongIntervalsFault | Services/URLMonitorBackgroundService.cs:67-77 | When every active monitor's interval exceeds 71582 minutes, the first cycle runs and the loop then faults without waiting (see also line 47) |
| BackgroundService.FailuresIrrelevant | Services/URLMonitorBackgroundService.cs:28-40 | Whether the cycles throw changes neither how many cycles run, nor the waits, nor whether the loop faults |
| BackgroundService.Execute | Services/URLMonitorBackgroundService.cs:22-57 | The loop's cycle count, its waits and whether it ends by the exception Task.Delay throws for an over-long delay (line 47) are those of the round-by-round definition |
| UrlApi.ViewOf | Controllers/URLController.cs:46-62 | An entry's certificate part is null iff the monitor has no certificate; id, status and response time are the monitor's |
| UrlApi.StatusCountsPartition | Controllers/URLController.cs:32-34 | Up, down and failing (Error or Timeout) counts plus the never-checked (Unknown) monitors make up the total; the three sum to at most the total (see also line 40) |
| UrlApi.CertificateCountsDisjoint | Controllers/URLController.cs:35-36 | The expiring and expired counts are disjoint and count only monitors with a certificate |
| UrlApi.ViewsMatchMonitors | Controllers/URLController.cs:46-63 | One entry per monitor, in order, with the certificate part present iff the monitor has one |
| UrlApi.Views | Controllers/URLController.cs:46-63 | One view per monitor; ViewsMatchMonitors and ViewOf state the correspondence |
| UrlApi.GetStatus | Controllers/URLController.cs:28-63 | The counters and views of the status endpoint; StatusCountsPartition and CertificateCountsDisjoint state how the counters relate |
| UrlApi.FirstWithId | Controllers/URLController.cs:90 | Absent iff no monitor has the id; otherwise the first position holding it (see also lines 102, 128) |
| UrlApi.GetMonitor | Controllers/URLController.cs:87-96 | NotFound iff no monitor has the id; otherwise a monitor of the list with that id |
| UrlApi.MergedFields | Controllers/URLController.cs:107-111 | A null name or description keeps the old one. Active, timeout and interval are always overwritten. Identity, history, counters and certificate stay, and the invariant is kept (see also lines 156-158) |
| UrlApi.OmittedSettingsReset | Controllers/URLController.cs:107-111 | A body naming only the name resets the monitor to active, 30 s and 5 min, whatever it was before (see also lines 156-158) |
| UrlApi.MergedIdempotent | Controllers/URLController.cs:107-111 | Applying the same update twice equals applying it once |
| UrlApi.Merged | Controllers/URLController.cs:99-116 | The monitor after an update; MergedFields, OmittedSettingsReset and MergedIdempotent state its meaning |
| UrlApi.UnknownIdChangesNothing | Controllers/URLController.cs:101-105 | An unknown id leaves the table as it was for both update and check; other ids' monitors never change (see also lines 127-131) |
| UrlApi.UpdateThenGet | Controllers/URLController.cs:87-115 | After an update, reading the id returns the merged monitor |
| UrlApi.UpdateMonitor | Controllers/URLController.cs:98-115 | NotFound iff the id is unknown, else NoContent; the table afterwards is the merged table |
| UrlApi.Rename | Controllers/URLController.cs:107-108 | A null name or description keeps the old value; nothing else changes |
| UrlApi.Reschedule | Controllers/URLController.cs:109-111 | Overwrites active, timeout and interval and stamps the update time; nothing else changes |
| UrlApi.CheckMonitor | Controllers/URLController.cs:124-135 | NotFound iff the id is unknown; otherwise it returns the status-checked monitor, and the table holds it |
| DeviceStore.StatusCode | Models/Device.cs:28-35 | The codes are 0..4, and 0 is exactly Unknown |
| DeviceStore.StatusCodesDistinct | Models/Device.cs:28-35 | Distinct states have distinct codes and distinct names |
| DeviceStore.FindByIp | Data/ApplicationDbContext.cs:26 | Absent iff no device has the address; otherwise the first device with it |
| DeviceStore.FindByIpAppended | Data/ApplicationDbContext.cs:26 | A device appended after devices with other addresses is the one found by its address |
| DeviceStore.FindById | Models/Device.cs:8 | Absent iff no device has the identity; otherwise a device with it |
| DeviceStore.EmptyDb | Data/ApplicationDbContext.cs:15-17 | An empty database satisfies the unique indexes |
| DeviceStore.InsertKeepsValid | Data/ApplicationDbContext.cs:26 | Inserting an address not yet stored keeps the unique indexes, and the new device is found by its address |
| DeviceStore.AddPortsKeepsValid | Data/ApplicationDbContext.cs:33-37 | Ports of stored devices with keys new among themselves and to the table keep the constraints (see also Models/MonitoredPort.cs:13) |
| DeviceStore.AddPortsOfNewDeviceKeepsValid | Data/ApplicationDbContext.cs:33-37 | Ports of a device that has none yet, with distinct keys, keep the constraints |
| DeviceStore.InsertWithPortsKeepsValid | Data/ApplicationDbContext.cs:26 | Inserting a device and then its ports with distinct keys keeps the constraints (see also line 33) |
| DeviceStore.ReplaceKeepsValid | Data/ApplicationDbContext.cs:26 | Replacing a device by one with the same identity and address keeps the constraints |
| DeviceStore.DeviceContext.constructor | Data/ApplicationDbContext.cs:15-17 | A fresh context holds the empty database |
| DeviceStore.DeviceContext.Insert | Models/Device.cs:8-21 | Adding a device stores it with the next identity and returns that identity |
| DeviceStore.DeviceContext.AddPort | Models/MonitoredPort.cs:5-24 | Adding a port appends it to the port table; nothing else changes |
| DeviceStore.DeviceContext.AddPorts | Models/MonitoredPort.cs:5-24 | Adding a list of ports appends them in order; nothing else changes |
| DeviceStore.DeviceContext.Replace | Models/Device.cs:6-26 | Writing back a device changes only that position |
| DevicesApi.PingDevice | Controllers/DevicesController.cs:493-516 | Reachable iff the reply status is Success; the response time is the round trip only when reachable, else 0; a ping that throws gives unreachable, 0, "Failed" |
| DevicesApi.ServiceNamesCoverCommonPorts | Controllers/DevicesController.cs:542-561 | Exactly the 13 common ports have their own name, everything else is "Unknown"; the list is increasing and within 1..65535 (see also line 569) |
| DevicesApi.GetServiceName | Controllers/DevicesController.cs:542-561 | The service name of a port; ServiceNamesCoverCommonPorts states which ports have one |
| DevicesApi.ScannedPorts | Controllers/DevicesController.cs:581-592 | One port record per open port |
| DevicesApi.ScannedPortsDistinct | Controllers/DevicesController.cs:581-592 | Records for distinct port numbers of one device have distinct keys (see also Data/ApplicationDbContext.cs:33) |
| DevicesApi.AddDeviceRefusals | Controllers/DevicesController.cs:122-142 | Checks run in order (model state, duplicate address as Conflict, then format as BadRequest); a refusal changes nothing |
| DevicesApi.AddDeviceEffect | Controllers/DevicesController.cs:120-225 | The reply and tables after AddDevice; AddDeviceRefusals, AddDeviceStores and AddDeviceKeepsValid state its meaning |
| DevicesApi.AddDeviceStores | Controllers/DevicesController.cs:145-211 | An accepted request stores one device: Online iff the ping succeeds, seen now. A non-empty requested name is kept; otherwise a reachable device with a DNS answer takes the DNS name, an empty requested name stays empty, and a missing one becomes the address. The requested ports follow unless two share a key, which is a 500 |
| DevicesApi.RequestedPortDefaults | Controllers/DevicesController.cs:189-199 | A requested port defaults to protocol "TCP" and an empty service name, enabled, status Unknown |
| DevicesApi.AddDeviceKeepsValid | Controllers/DevicesController.cs:120-225 | Adding a device keeps the unique indexes |
| DevicesApi.AddDevice | Controllers/DevicesController.cs:119-225 | The context and the reply afterwards are those of the AddDevice definition |
| DevicesApi.QuickAddRefusals | Controllers/DevicesController.cs:233-263 | Format first (BadRequest), then duplicate (Conflict); a refusal changes nothing. An unreachable device is reported unsuccessful and nothing is stored |
| DevicesApi.QuickAddEffect | Controllers/DevicesController.cs:229-329 | The reply and tables after QuickAddDevice; QuickAddRefusals, QuickAddStoresOpenPorts and QuickAddKeepsValid state its meaning |
| DevicesApi.QuickAddStoresOpenPorts | Controllers/DevicesController.cs:249-325 | A successful quick add stores one Online device and exactly the open common ports, in list order, each Open over TCP with its service name; the reply lists the same ports |
| DevicesApi.OpenPortsFacts | Controllers/DevicesController.cs:269-276 | The open common ports are exactly the common ports that answer, increasing, within the port range |
| DevicesApi.QuickAddKeepsValid | Controllers/DevicesController.cs:229-329 | A quick add keeps the unique indexes |
| DevicesApi.OpenCommonPorts | Controllers/DevicesController.cs:269-276 | The scan loop returns the open common ports in list order |
| DevicesApi.QuickAddDevice | Controllers/DevicesController.cs:228-329 | The context and the reply afterwards are those of the QuickAdd definition |
| DevicesApi.GetAllDevices | Controllers/DevicesController.cs:332-341 | As written: every stored device, most recently seen first (a permutation of the table, sorted), or the 500 of the serialiser's cycle error when a stored device has a port |
| DevicesApi.ListedDevices | Controllers/DevicesController.cs:332-341 | As evidently intended: every stored device, most recently seen first, with no failure |
| DevicesApi.DeviceListFailure | Controllers/DevicesController.cs:332-341 | On a consistent database the list as written fails iff some port is stored, and otherwise equals the intended list (see also Models/MonitoredPort.cs:34) |
| DevicesApi.QuickAddBreaksDeviceList | Controllers/DevicesController.cs:229-341 | A quick add that stores an open port makes the device list fail |
| DevicesApi.ImportedShape | Controllers/DevicesController.cs:411-486 | One result per entry, in order, naming its address. Earlier devices stay in front, and one device is added per successful result |
| DevicesApi.ImportOne | Controllers/DevicesController.cs:416-478 | One entry of a bulk import; RepeatedAddressRejected and ImportedStoresAddress state its refusals and its store |
| DevicesApi.Imported | Controllers/DevicesController.cs:409-487 | The tables and results after a bulk import; ImportedShape, ImportedSplit, ImportedPrefix and ImportedKeepsValid state its meaning |
| DevicesApi.ImportedKeepsAddresses | Controllers/DevicesController.cs:411-476 | An address already stored stays stored through the rest of the batch |
| DevicesApi.ImportedStoresAddress | Controllers/DevicesController.cs:419-470 | After an entry with a well-formed address, that address is stored |
| DevicesApi.ImportedLast | Controllers/DevicesController.cs:411-476 | The last result is that of the last entry against the tables the earlier entries left |
| DevicesApi.RepeatedAddressRejected | Controllers/DevicesController.cs:419-450 | A well-formed address repeated later in the same batch is refused as "Device already exists" |
| DevicesApi.RepeatedLastRejected | Controllers/DevicesController.cs:419-450 | The last entry is refused when an earlier entry had its address |
| DevicesApi.ImportedSplit | Controllers/DevicesController.cs:411-476 | Importing a batch in two parts leaves the same tables as importing it at once |
| DevicesApi.ImportedPrefix | Controllers/DevicesController.cs:411-476 | The results of a prefix of a batch are a prefix of the batch's results |
| DevicesApi.ImportedKeepsValid | Controllers/DevicesController.cs:411-476 | Bulk import keeps the unique indexes |
| DevicesApi.BulkImportDevices | Controllers/DevicesController.cs:408-490 | The tables and results are those of the batch definition; total = number of entries; successes = number of successful results |
| DevicesApi.PingByIdRules | Controllers/DevicesController.cs:383-405 | NotFound iff the identity is unknown, with nothing changed. Only that device changes: Online iff reachable, and LastSeen moves only when reachable |
| DevicesApi.PingByIdEffect | Controllers/DevicesController.cs:384-405 | The reply and tables after PingDeviceById; PingByIdRules states its meaning |
| DevicesApi.SetStatusRules | Controllers/DevicesController.cs:361-380 | NotFound iff unknown. Only that device changes, to the given status; LastSeen moves only for Online |
| DevicesApi.SetStatusEffect | Controllers/DevicesController.cs:362-380 | The reply and tables after UpdateDeviceStatus; SetStatusRules states its meaning |
| DevicesApi.RefreshRules | Controllers/DevicesController.cs:600-611 | The background refresh sets Online iff reachable and moves LastSeen whatever the ping says |
| DevicesApi.RefreshEffect | Controllers/DevicesController.cs:600-611 | The tables after the background status refresh; RefreshRules states its meaning |
| DevicesApi.StatusUpdatesKeepValid | Controllers/DevicesController.cs:361-405 | The three status updates keep the unique indexes (see also lines 600-611) |
| DevicesApi.PingDeviceById | Controllers/DevicesController.cs:383-405 | The context and reply afterwards are those of the ping-by-id definition |
| DevicesApi.UpdateDeviceStatus | Controllers/DevicesController.cs:361-380 | The context and reply afterwards are those of the status-update definition |
| DevicesApi.ScanNeverDuplicates | Controllers/DevicesController.cs:563-598 | The scan adds only open common ports not yet monitored for the device, each Open over TCP, and changes nothing else |
| DevicesApi.ScanEffect | Controllers/DevicesController.cs:563-598 | The tables after ScanDevicePorts; ScanNeverDuplicates and ScanKeepsValid state its meaning |
| DevicesApi.ScanKeepsValid | Controllers/DevicesController.cs:563-598 | The scan keeps the unique indexes |
| DevicesApi.ScanDevicePorts | Controllers/DevicesController.cs:563-598 | The context afterwards is that of the scan definition |
| DevicesApi.AddWanted | Controllers/DevicesController.cs:571-595 | The scan loop appends one record per wanted candidate, in list order |
| Discovery.TablePorts | Services/NetworkDiscoveryService.cs:28-46 | The table's ports, in declaration order |
| Discovery.PortTableDistinct | Services/NetworkDiscoveryService.cs:28-46 | The table has 16 distinct ports, all within 1..65535 |
| Discovery.PortTableAgreesWithServiceNames | Services/NetworkDiscoveryService.cs:28-46 | On shared ports the table and the device controller give the same service name (see also Controllers/DevicesController.cs:542-561) |
| Discovery.WinRmNotInPortTable | Services/NetworkDiscoveryService.cs:28-46 | Of the controller's 13 ports only 5985 and 5986 are missing from the table (see also Controllers/DevicesController.cs:569) |
| Discovery.DetermineDeviceType | Services/NetworkDiscoveryService.cs:256-292 | The result is always one of the ten labels |
| Discovery.HostnameLabel | Services/NetworkDiscoveryService.cs:261-269 | The label a hostname keyword gives, if any; DeviceTypeDependencies states that it decides first |
| Discovery.PortsLabel | Services/NetworkDiscoveryService.cs:271-291 | The label the open ports give; DetermineDeviceType and DeviceTypeDependencies state its range and what it depends on |
| Discovery.DeviceTypeDependencies | Services/NetworkDiscoveryService.cs:256-292 | A hostname keyword decides regardless of ports. Otherwise only the set of open port numbers matters, and case does not |
| Discovery.KeywordPriority | Services/NetworkDiscoveryService.cs:261-269 | router/gateway beats every keyword, switch beats server and printer, and Printer needs "printer" without server, srv or switch |
| Discovery.PortRules | Services/NetworkDiscoveryService.cs:272-291 | Without a keyword: Web Server iff web and remote ports; Web Service iff web only; Database Server iff a database port and no web; Server iff remote only; Unknown Device iff no open ports |
| Discovery.HostRange | Services/NetworkDiscoveryService.cs:331-334 | base.S … base.E has E−S+1 addresses when S ≤ E, none otherwise |
| Discovery.HostRangeAt | Services/NetworkDiscoveryService.cs:331-334 | The k-th address is the base, a dot and S+k |
| Discovery.HostRangeDistinct | Services/NetworkDiscoveryService.cs:331-334 | The generated addresses are distinct |
| Discovery.DashRangeForm | Services/NetworkDiscoveryService.cs:321-334 | "a.b.c.S-E" expands to a.b.c.S … a.b.c.E, E−S+1 addresses if S ≤ E and none otherwise; the dash wins over a slash |
| Discovery.SplitAtDots | Services/NetworkDiscoveryService.cs:325 | A dotted quad of dot-free fields splits into its four fields |
| Discovery.GetNetworkRangeRoundTrip | Services/NetworkDiscoveryService.cs:309-313 | The local range text expands to exactly the 254 hosts a.b.c.1 … a.b.c.254 (see also lines 321-334) |
| Discovery.CidrRangeForm | Services/NetworkDiscoveryService.cs:336-353 | A parsed address with prefix 24 gives hosts 1..254 whatever its last octet; any other prefix or an unparsable address gives an empty list (see also lines 360-363) |
| Discovery.GetNetworkRange | Services/NetworkDiscoveryService.cs:309-313 | The local /24 as a dash range over the last octet; LocalRangeAddressesValid in ClientUtils states that its hosts are well formed |
| Discovery.ParsedRangeDistinct | Services/NetworkDiscoveryService.cs:315-366 | A parsed range never lists an address twice |
| Discovery.SingleAddressRange | Services/NetworkDiscoveryService.cs:354-358 | Text with neither dash nor slash is returned unvalidated as the only address |
| Discovery.ParsedRange | Services/NetworkDiscoveryService.cs:315-366 | The addresses of a range string; DashRangeForm, CidrRangeForm, SingleAddressRange and ParsedRangeDistinct state its meaning |
| Discovery.ExpandHosts | Services/NetworkDiscoveryService.cs:331-334 | The `for` loop yields exactly the host range |
| Discovery.ParseNetworkRange | Services/NetworkDiscoveryService.cs:315-366 | The method returns the range definition's list |
| Discovery.OpenTablePorts | Services/NetworkDiscoveryService.cs:211-226 | At most one entry per table entry, each open, over TCP, with the table's service |
| Discovery.OpenTablePortsComplete | Services/NetworkDiscoveryService.cs:216-226 | Every open table entry is reported |
| Discovery.OpenTablePortsDistinct | Services/NetworkDiscoveryService.cs:211-226 | Reported ports are distinct |
| Discovery.ProbedPortsExact | Services/NetworkDiscoveryService.cs:211-226 | A port is reported iff it is in the table and open, once, over TCP, with its service name, within the port range (see also lines 28-46) |
| Discovery.ProbePorts | Services/NetworkDiscoveryService.cs:206-237 | The probing returns the open table ports |
| Discovery.ProbeEntries | Services/NetworkDiscoveryService.cs:211-233 | The loop returns the open ports among the entries, in order |
| Discovery.Probed | Services/NetworkDiscoveryService.cs:103-146 | A probe reports a device iff the ping succeeds |
| Discovery.ProbeFindings | Services/NetworkDiscoveryService.cs:116-139 | A responding probe reports the address, responding, the round trip, the DNS name or "Unknown-"+address, exactly the open table ports and one of the ten types |
| Discovery.ProbeDevice | Services/NetworkDiscoveryService.cs:103-146 | The method returns the probe definition's result |
| Discovery.Responding | Services/NetworkDiscoveryService.cs:77-95 | The found devices are responding probes of addresses in the list |
| Discovery.RespondingComplete | Services/NetworkDiscoveryService.cs:82-88 | Every responding address is found |
| Discovery.RespondingMembers | Services/NetworkDiscoveryService.cs:77-95 | A device is found iff it is the responding probe of an address in the list |
| Discovery.RespondingOnce | Services/NetworkDiscoveryService.cs:77-95 | Distinct addresses give found devices with distinct addresses |
| Discovery.Discovered | Services/NetworkDiscoveryService.cs:68-101 | The responding devices of a range, ordered by last octet; RespondingMembers, RespondingComplete and DiscoveredOnce state its meaning |
| Discovery.DiscoveredOnce | Services/NetworkDiscoveryService.cs:68-101 | A discovery reports each address at most once and every responding address of the range |
| Discovery.DiscoveredLocal | Services/NetworkDiscoveryService.cs:55-66 | Nothing without a local address, else the discovery of its /24; ScanLocalNetwork states the endpoint built on it |
| Discovery.DiscoveryOutput | Services/NetworkDiscoveryService.cs:68-101 | The result holds exactly the responding probes of the range, ascending by last octet; it fails iff a found address does not parse |
| Discovery.DiscoveredResponded | Services/NetworkDiscoveryService.cs:68-101 | Everything discovered answered its ping (see also lines 111-114) |
| Discovery.DiscoverDevices | Services/NetworkDiscoveryService.cs:68-101 | The method returns the discovery definition's result |
| Discovery.ProbeAll | Services/NetworkDiscoveryService.cs:77-97 | The loop keeps the responding probes in address order |
| Discovery.LocalScanRange | Services/NetworkDiscoveryService.cs:55-66 | The local scan probes exactly hosts 1..254 of the local network and sorts the responders by last octet (see also lines 309-313) |
| Discovery.DiscoverLocalNetwork | Services/NetworkDiscoveryService.cs:55-66 | The method returns the local-scan definition's result (empty without a local address) |
| Discovery.PortRecords | Services/NetworkDiscoveryService.cs:181-193 | One monitored port per discovered port |
| Discovery.UpsertExisting | Services/NetworkDiscoveryService.cs:153-163 | A stored address changes only that device (new name, Online, seen now) and adds no port. A failing save changes nothing and returns false (see also lines 196-203) |
| Discovery.UpsertNew | Services/NetworkDiscoveryService.cs:164-203 | A new address is stored Online unless its own save fails. On success one enabled port per discovered port follows. A failing port save or a duplicate port key returns false and leaves the device stored without ports |
| Discovery.UpsertEffect | Services/NetworkDiscoveryService.cs:148-204 | The tables and result after AddDiscoveredDeviceAsync; UpsertExisting, UpsertNew and UpsertKeepsValid state its meaning |
| Discovery.ProbedDeviceAdds | Services/NetworkDiscoveryService.cs:116-139 | A freshly probed device always fits the unique indexes, so adding it fails only when a save fails (see also lines 164-197) |
| Discovery.UpsertKeepsValid | Services/NetworkDiscoveryService.cs:148-204 | The upsert keeps the unique indexes |
| Discovery.AddDiscoveredDevice | Services/NetworkDiscoveryService.cs:148-204 | The context and result afterwards are those of the upsert definition |
| DiscoveryApi.StoredIps | Controllers/API/NetworkDiscoveryAPIController.cs:40-41 | The stored addresses, in table order (see also lines 86-87) |
| DiscoveryApi.Tagged | Controllers/API/NetworkDiscoveryAPIController.cs:42-47 | Tagging keeps the list's length |
| DiscoveryApi.TagExisting | Controllers/API/NetworkDiscoveryAPIController.cs:42-47 | The loop yields the tagged list (see also lines 88-93) |
| DiscoveryApi.TaggingRule | Controllers/API/NetworkDiscoveryAPIController.cs:40-47 | Tagging changes only the flag, which is set iff a stored device has the address (see also lines 86-93) |
| DiscoveryApi.SummaryPartitions | Controllers/API/NetworkDiscoveryAPIController.cs:49-55 | New and existing devices partition the tagged list by the flag, and their sizes sum to the total (see also lines 95-102) |
| DiscoveryApi.SummaryPermutes | Controllers/API/NetworkDiscoveryAPIController.cs:49-55 | The new and existing lists together are a permutation of the tagged devices |
| DiscoveryApi.ListedOnce | Controllers/API/NetworkDiscoveryAPIController.cs:40-55 | Found devices with distinct addresses are listed once each, and every found address is listed |
| DiscoveryApi.ReportedOnce | Controllers/API/NetworkDiscoveryAPIController.cs:72-106 | A range scan lists each discovered address once, and every responding address of the range |
| DiscoveryApi.ScanRangeRules | Controllers/API/NetworkDiscoveryAPIController.cs:72-106 | A blank range is BadRequest; a server error iff the range is not blank and discovery fails. Otherwise every responding address of the range is reported, each exactly once, as new iff not stored, and the counts add up |
| DiscoveryApi.ScanNetworkRange | Controllers/API/NetworkDiscoveryAPIController.cs:72-113 | The method returns the range-scan definition's result |
| DiscoveryApi.ScanRange | Controllers/API/NetworkDiscoveryAPIController.cs:72-106 | The reply of ScanNetworkRange; ScanRangeRules states its meaning |
| DiscoveryApi.ScanLocal | Controllers/API/NetworkDiscoveryAPIController.cs:31-66 | The reply of ScanLocalNetwork; ScanLocalNetwork states the method against it |
| DiscoveryApi.ScanLocalNetwork | Controllers/API/NetworkDiscoveryAPIController.cs:31-66 | The method returns the local-scan definition's result |
| DiscoveryApi.ProbeRules | Controllers/API/NetworkDiscoveryAPIController.cs:119-142 | BadRequest iff the address is blank; NotFound iff the ping fails; otherwise the flag is set iff a stored device has the address |
| DiscoveryApi.ProbeOne | Controllers/API/NetworkDiscoveryAPIController.cs:119-142 | The reply of ProbeDevice; ProbeRules states its meaning |
| DiscoveryApi.ProbeDevice | Controllers/API/NetworkDiscoveryAPIController.cs:119-148 | The method returns the probe definition's result |
| DiscoveryApi.AddedAll | Controllers/API/NetworkDiscoveryAPIController.cs:163-201 | One result per requested address |
| DiscoveryApi.AddOneReports | Controllers/API/NetworkDiscoveryAPIController.cs:165-200 | One address gives one result about it: "Device is not responding" when silent, success only if it answered |
| DiscoveryApi.AddOne | Controllers/API/NetworkDiscoveryAPIController.cs:165-200 | One requested address probed and upserted; AddOneReports states its meaning |
| DiscoveryApi.AddedAllResults | Controllers/API/NetworkDiscoveryAPIController.cs:163-201 | The k-th result is about the k-th address, in request order |
| DiscoveryApi.AddedAllKeepsValid | Controllers/API/NetworkDiscoveryAPIController.cs:163-201 | Adding discovered devices keeps the unique indexes |
| DiscoveryApi.AddDevicesTallies | Controllers/API/NetworkDiscoveryAPIController.cs:156-159 | A missing or empty list is BadRequest and changes nothing. Otherwise total = requested = results, and successes + failures = total (see also lines 203-209) |
| DiscoveryApi.AddDevicesEffect | Controllers/API/NetworkDiscoveryAPIController.cs:154-212 | The reply and tables of AddDevices; AddDevicesTallies, AddedAll and AddedAllKeepsValid state its meaning |
| DiscoveryApi.AddDevices | Controllers/API/NetworkDiscoveryAPIController.cs:154-212 | The context and reply afterwards are those of the add-devices definition |
| DiscoveryApi.AddRequested | Controllers/API/NetworkDiscoveryAPIController.cs:165-200 | One iteration leaves the context and the result of the one-address definition |
| DiscoveryApi.StatusBounds | Controllers/API/NetworkDiscoveryAPIController.cs:222-240 | Online and offline counts sum to at most the total. Devices added in the last week are at most the total, and 0 when all are older |
| DiscoveryApi.Status | Controllers/API/NetworkDiscoveryAPIController.cs:218-250 | The counters of GetDiscoveryStatus; StatusBounds states their bounds |
| ClientUtils.BreakdownBounds | wwwroot/js/utils.js:2-4 | For s ≥ 0: hours < 24, minutes < 60, and 86400·days + 3600·hours + 60·minutes ≤ s < that + 60 |
| ClientUtils.FormatUptimeForms | wwwroot/js/utils.js:6-8 | "Dd Hh Mm" from a day up, "Hh Mm" from an hour up, "Mm" below an hour |
| ClientUtils.FormatUptime | wwwroot/js/utils.js:1-9 | The uptime text; BreakdownBounds and FormatUptimeForms state its meaning |
| ClientUtils.OctetPatternMeaning | wwwroot/js/utils.js:20 | A field matches the pattern iff it is 1–3 decimal digits of value ≤ 255 |
| ClientUtils.IsValidIpMeaning | wwwroot/js/utils.js:19-22 | Accepted iff exactly four dot-separated fields, each 1–3 digits of value ≤ 255 |
| ClientUtils.IsValidIp | wwwroot/js/utils.js:19-22 | The address pattern; IsValidIpMeaning states its meaning |
| ClientUtils.FieldExamples | wwwroot/js/utils.js:20 | "010", "0" and "255" are accepted fields; "256", "" and "1000" are not |
| ClientUtils.RefusesThreeFields | wwwroot/js/utils.js:20 | "1.2.3" is refused |
| ClientUtils.PrintedByteIsOctet | wwwroot/js/utils.js:20 | A printed byte is an accepted field |
| ClientUtils.JoinedOctetsValid | wwwroot/js/utils.js:19-22 | Four accepted fields joined by dots are accepted |
| ClientUtils.LocalRangeAddressesValid | wwwroot/js/utils.js:19-22 | Every host of the local scan range passes the client's check (see also Services/NetworkDiscoveryService.cs:309-313) |
| ClientDevices.MapDeviceStatusAgrees | wwwroot/js/devices.js:475-483 | Each state's code maps to its own name in lower case (see also Models/Device.cs:30-34) |
| ClientDevices.MapDeviceStatusDistinct | wwwroot/js/devices.js:475-483 | "unknown" iff the code is outside 1..4; codes 1..4 get distinct labels |
| ClientDevices.MapDeviceStatus | wwwroot/js/devices.js:475-483 | The label of a status code; MapDeviceStatusAgrees and MapDeviceStatusDistinct state its meaning |
| ClientDevices.EveryDeviceTypeHasIcon | wwwroot/js/devices.js:196-208 | Every label the classifier produces has its own icon, never the fallback; routers and web services share the globe (see also Services/NetworkDiscoveryService.cs:256-292) |
| ClientDevices.UnknownTypeIcon | wwwroot/js/devices.js:195-210 | The fallback icon appears iff the type is outside the table |
| ClientDevices.DeviceTypeIcon | wwwroot/js/devices.js:195-210 | The icon of a device type; EveryDeviceTypeHasIcon and UnknownTypeIcon state its meaning |
| ClientDevices.LoadedDevicesShape | wwwroot/js/devices.js:343-352 | Same count and order; id, address, name and last-seen kept; the status label of the code; type and description as the server sent them, "" where it sent none; no response time |
| ClientDevices.ToClientDevice | wwwroot/js/devices.js:343-352 | The mapping of one server device to the page's form; LoadedDevicesShape states its fields |
| ClientDevices.LoadedDevices | wwwroot/js/devices.js:343-352 | The page's devices built from the API list; LoadedDevicesShape states its meaning |
| ClientDevices.LoadDevicesFromApi | wwwroot/js/devices.js:333-359 | The page's device list is replaced by the loaded list when the request succeeds and kept when it fails (the catch); the monitors stay |
| ClientDevices.Reloaded | wwwroot/js/devices.js:333-359 | The page's list after a load, replaced on success and kept on failure; CardsMatchStore and CardsAsWritten state what the cards then show |
| ClientDevices.Serialised | Controllers/DevicesController.cs:340 | The fields of a stored device the page reads from the JSON, with the status as its number; ShownStatus states that the status survives the round trip |
| ClientDevices.ShownStatus | wwwroot/js/devices.js:343-352 | A stored device is shown online or offline iff it is stored so (see also lines 475-483) |
| ClientDevices.CardsMatchStore | wwwroot/js/Functions.js:253-254 | With the device list as evidently intended, the online and offline cards after loading equal the stored counts, whatever the page showed before (see also wwwroot/js/devices.js:343-352 and Controllers/DevicesController.cs:332-341) |
| ClientDevices.CardsCountListed | wwwroot/js/Functions.js:253-254 | Cards over a loaded list count the listed devices by stored state |
| ClientDevices.CardsAsWritten | wwwroot/js/devices.js:333-359 | As written, the cards match the store while no port is stored; once one is, the page keeps the list it showed before (see also Controllers/DevicesController.cs:332-341) |
| ClientDevices.StaleCards | wwwroot/js/devices.js:356-358 | One Online device with one port: the page that showed none still shows 0 online against 1 stored |
| ClientDashboard.Dashboard.constructor | wwwroot/js/Functions.js:2-3 | Both global lists start empty |
| ClientDashboard.NewDeviceDefaults | wwwroot/js/Functions.js:66-78 | The new device is "checking", seen now, with no response time. A blank name or type becomes "Unknown" or "other", and other values are kept |
| ClientDashboard.NewDevice | wwwroot/js/Functions.js:62-85 | The device addDevice builds; NewDeviceDefaults states its fields |
| ClientDashboard.AddDevice | wwwroot/js/Functions.js:62-85 | Exactly one device is appended at the end; the monitors stay |
| ClientDashboard.MetricsPartition | wwwroot/js/Functions.js:251-269 | Online+offline ≤ total, recent ≤ total, up+down ≤ monitors, expiring+expired ≤ monitors |
| ClientDashboard.MonitorGroups | wwwroot/js/Functions.js:262-269 | Up/down and expiring/expired are disjoint; "checking" is in neither URL group; a monitor without a certificate is in neither certificate group; one with a certificate is in one of them iff it has 30 days or fewer |
| ClientDashboard.RecentRule | wwwroot/js/Functions.js:255-259 | Recent iff last seen strictly after now − 1 h; a device never seen counts only within an hour of the epoch |
| ClientDashboard.LoadMetrics | wwwroot/js/Functions.js:251-269 | The eight metric numbers; MetricsPartition, MonitorGroups and RecentRule state how they relate |
| ClientDashboard.CertBadgeBands | wwwroot/js/Functions.js:227-232 | cert-expired for ≤ 0 (or null), cert-expiring for 1..30, cert-valid beyond. The text is "Expired" in the expired band, "1 day" for exactly 1, and "N days" otherwise |
| ClientDashboard.CertClass | wwwroot/js/Functions.js:227-228 | The badge class of a day count; CertBadgeBands states its bands |
| ClientDashboard.DaysText | wwwroot/js/Functions.js:230-232 | The badge text of a day count; CertBadgeBands states its bands |
| ClientDashboard.NoCertificateBadge | wwwroot/js/Functions.js:243-247 | Without a certificate, an https URL gets the "No certificate info" block and any other URL gets nothing |
| ClientDashboard.ServerDaysBadge | wwwroot/js/Functions.js:227-228 | With the server's truncated days, the badge is expired iff there is no expiry date or less than a day is left; in the last day it shows expired while the server does not (see also Controllers/MonitoringController.cs:361-365) |
| ClientDashboard.RenderCertificateInfo | wwwroot/js/Functions.js:222-249 | The certificate block of a monitor card; CertBadgeBands, NoCertificateBadge and ServerDaysBadge state its meaning |
| ClientMonitoring.PayloadRules | wwwroot/js/monitoring.js:1-27 | Always active and watching certificates; interval and timeout from the form. A blank name becomes the URL's host, and nothing is posted iff the name is blank and the URL unparsable |
| ClientMonitoring.AddUrlMonitorPayload | wwwroot/js/monitoring.js:1-27 | The body addUrlMonitor posts; PayloadRules states its meaning |
| ClientMonitoring.AllChecking | wwwroot/js/monitoring.js:30-36 | Same length, each monitor "checking" and stamped now, nothing else changed |
| ClientMonitoring.AllCheckingCountsNothing | wwwroot/js/monitoring.js:30-36 | After marking all as checking, no monitor counts as up or down (see also wwwroot/js/Functions.js:262-263) |
| ClientMonitoring.CheckAllUrls | wwwroot/js/monitoring.js:30-40 | The page's monitors afterwards are all marked checking; the devices stay (see also wwwroot/js/Functions.js:132-142) |
| ClientMonitoring.FirstWithId | wwwroot/js/monitoring.js:77 | Absent iff no monitor has the id; otherwise the first position with it |
| ClientMonitoring.UpdateTouchesFirstOnly | wwwroot/js/monitoring.js:76-85 | Only the first monitor with the id changes, and only in status, response time and last check; with no such monitor nothing changes |
| ClientMonitoring.StatusUpdated | wwwroot/js/monitoring.js:76-85 | The monitors after a status update; UpdateTouchesFirstOnly states its meaning |
| ClientMonitoring.UpdateUrlMonitorStatus | wwwroot/js/monitoring.js:76-85 | The page's monitors afterwards are the updated list; the devices stay |
| ClientMonitoring.FilterKeepsMatches | wwwroot/js/monitoring.js:89-96 | Keeps exactly the monitors whose name or URL contains the term ignoring case, in order |
| ClientMonitoring.FilterUrlMonitors | wwwroot/js/monitoring.js:89-96 | The monitors the filter shows; FilterKeepsMatches, EmptyTermKeepsAll and FilterIgnoresTermCase state its meaning |
| ClientMonitoring.EmptyTermKeepsAll | wwwroot/js/monitoring.js:90-93 | An empty term keeps every monitor |
| ClientMonitoring.FilterIgnoresTermCase | wwwroot/js/monitoring.js:90-93 | Lower-casing the term changes nothing |
| ClientCertificates.ListingShape | wwwroot/js/certificates.js:40-67 | An empty list shows "No SSL certificates found." iff empty; otherwise one entry per certificate, in order |
| ClientCertificates.DisplayCertificatesList | wwwroot/js/certificates.js:40-67 | The certificate listing; ListingShape and ClassBands state its meaning |
| ClientCertificates.ClassBands | wwwroot/js/certificates.js:50-51 | expired iff ≤ 0, expiring iff 1..30, valid iff > 30, exhaustive and disjoint; "Expired" iff ≤ 0, else "N days" (see also line 62) |
| ClientCertificates.StatusClass | wwwroot/js/certificates.js:50-51 | The item class of a day count; ClassBands states its bands |
| ClientCertificates.DaysLabel | wwwroot/js/certificates.js:62 | The day text of an item; ClassBands states its bands |
| ClientCertificates.FutureNeverExpired | wwwroot/js/certificates.js:49-50 | Days ≥ 1 iff the expiry is in the future, so any future expiry is never classed expired |
| ClientCertificates.CeilingVersusTruncation | wwwroot/js/certificates.js:49 | Rounding up equals the server's truncation for past expiries and whole days, and is one more otherwise (see also Models/Certificate.cs:48) |
| ClientCertificates.JsDaysUntilExpiry | wwwroot/js/certificates.js:49 | The days left rounded up; FutureNeverExpired and CeilingVersusTruncation state how it relates to the server's count |
| ClientCertificates.LastDayDisagreement | wwwroot/js/certificates.js:49-51 | In the last day the server says 0 days and expiring soon while the list shows 1 day, expiring (see also Models/Certificate.cs:47-48) |

## Findings

| source | as written | input that shows it | evidently intended | confidence | as-written member | corrected member |
|---|---|---|---|---|---|---|
| Controllers/DevicesController.cs:332-341 | The device list is loaded with its ports and certificates, whose back-references point to the device, and serialised with no reference handler, so the object cycle makes the request a 500; the page's catch then keeps its old list | One stored Online device with one monitored port, loaded into a page that showed no devices | The list is returned with the cycles broken, and the cards count the stored devices | not executed; medium (default System.Text.Json options) | ClientDevices.StaleCards | ClientDevices.CardsMatchStore |

## Left out

- Network I/O is not executed. HTTP GET, the TLS handshake, ping, DNS and TCP connects
  are parameters of the model: per address, per position or per port.
- The concurrent fan-out of discovery and port probing is modelled sequentially. That
  covers the semaphores, `Task.WhenAll` and `lock`. Ports are probed in table order and
  the discovered list is sorted at the end, as in the source. The source's open-port
  order is nondeterministic, so the model's one order is one of its possible results.
- The fire-and-forget `Task.Run` calls in DevicesController (port scan and status refresh
  after an add) are separate operations, not tied to the add.
- The background loop is modelled as rounds with cancellation flags. Its timer, scope
  creation and logging are left out. The exception `Task.Delay` throws for a delay over
  4294967294 ms is modelled as the loop's end by a fault.
- EF Core persistence is not modelled, beyond the save faults of the discovery upsert
  and the unique-key violation in AddDevice. The `UrlMonitors` set is absent from
  Data/ApplicationDbContext.cs, so the monitor table is a sequence of objects. Port ids,
  the `[Range]`/`[StringLength]` attributes and case-insensitive collation are not
  modelled.
- Database errors in the status endpoint, in the scan endpoints (the 500 responses) and
  in the outer catch of AddDevices (a result carrying the exception message) are not
  modelled. A failing save inside the upsert is modelled.
- Wall-clock reads are the integer `now` in milliseconds. C# ticks are finer and are not
  modelled.
- .NET `int` overflow is not modelled, and neither is the wrap of the loop counter in
  ParseNetworkRange. Range bounds are checked with `int.Parse`'s limits.
- Floating point: `UptimePercentage`, `ReliabilityScore` and the response times are exact
  `real`s. `TotalDays` is the integer difference in milliseconds truncated by whole days.
- Culture-sensitive lower-casing and `OrdinalIgnoreCase` are modelled for ASCII letters
  only.
- `IPAddress.Parse`/`TryParse`, `new URL(...)` and the browser's `parseInt` are oracle
  parameters.
- `formatBytes`, `isValidUrl`, `exportData` (not parsable as written), the DOM, HTML
  templates, charts, modals, realtime updates and the React view are left out.
- The stray "/" at the head of utils.js is left out; `formatUptime` is modelled as
  evidently intended.
- `displayFilteredUrlMonitors` and the other display functions are not modelled.
- ClientDashboard.RenderCertificateInfo takes the monitor as the page sees it. The
  source reads PascalCase fields that camelCase JSON would not carry.
- ClientDevices.DeviceTypeIcon: lookups of JavaScript prototype keys such as
  "constructor" in the icon object are not modelled.
- ClientDashboard.AddDevice and ClientMonitoring.PayloadRules take every form field as a
  present string.
- ClientUtils.FormatUptimeForms covers integer seconds only.
- Models/DiscoveredDevice.cs is not part of this model: the service uses its own DTO.
- Certificates.NewCertificate: the `IsUrlCertificate` navigation (a monitor list on the
  certificate) is not modelled.
- MonitoringApi.ExpiringCertificates: the certificate table is a sequence given to the
  query.
- `GetMonitoringStatsAsync` and `RunMonitoringCycleAsync` are not modelled. The
  interface the controller calls does not declare them.
- DiscoveryApi.AddDevices: a failed save inside Discovery.UpsertEffect (the model of
  Discovery.AddDiscoveredDevice) is modelled as discarded. EF Core keeps the failed
  changes pending in the request-scoped context, so a later successful save in the same
  request commits them as well; that carry-over is not modelled.
- DevicesApi.GetAllDevices: device certificates are not in the model's tables, so only
  stored ports are modelled as causing the serialisation cycle; a certificate with a
  device id does the same. Ties in LastSeen are ordered as the stable sort leaves them,
  which is one order SQLite may return.
- DevicesApi.SetStatusEffect: the request body binds any integer to `DeviceStatus`, and
  a value outside 0..4 is stored and shown as "unknown". The model's status type holds
  only the five named states, so such a value is not modelled.
- DevicesApi.AddDevice: `ModelState` validation is modelled only as the blank-address
  check, and DNS is an oracle answer.
