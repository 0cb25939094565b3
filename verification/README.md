# Verified models of the location HAL and the key-provisioning relay

The location HAL is a set of adapters, each driven by one message queue; the relay passes CBOR requests to a
worker process over a socket pair. This project models the parts of both that carry the most state, one module
for each component, and proves what they promise over every run or every input. Where the code keeps its state
in an object, the model has a class with the same fields, whose methods are proved to do exactly what a step
function on values says; the run-level results are proved about the step function.

| files | component |
|---|---|
| `Agps.dfy`, `AgpsRuns.dfy`, `AgpsStateMachine.dfy`, `AgpsSystem.dfy` | AGPS data-call state machine, its runs, its object, and its composition with the handler that answers it |
| `Cbor.dfy`, `RelayRequest.dfy`, `RelayTransport.dfy` | CBOR items (section 3 of RFC 8949), request validation and re-encoding, framing over short reads and writes |
| `SvBlacklist.dfy` | satellite blacklist: lists of ids to 64-bit masks and back |
| `TripBatching.dfy`, `TripTargets.dfy` | trips that share one modem odometer: what is on their accounts, and what the modem is asked for |
| `TrackingMultiplex.dfy` | tracking sessions that share one modem session |
| `OsObserver.dfy` | two-way subscription index and what the framework is told |
| `NetworkTable.dfy` | table of network handles with swap-with-last deletion, and its history |
| `ClockEstimator.dfy`, `AdapterArray.dfy` | boot-time estimator; registered adapters |
| `Geofence.dfy` | double index of geofences, removals in flight, breach reports |
| `GpsLock.dfy`, `Odcpi.dfy` | GPS lock policy; limiter of position requests |
| `Wrappers.dfy`, `SetWalk.dfy` | `Option`; a lemma for loops over sets |

Modem, framework, timers and kernel are an environment: what they answer is a parameter of the step, and every
theorem holds for every choice of it that its `requires` admits. An answer that the code handles in a callback is
taken before the next message; where late answers matter (AGPS replies, geofence removals, trip reports and odometer
queries) they are separate events, or part of the event that uses them, and may be of any age.

Results that differ from what comments or names in the code suggest:

- `LocUnorderedSetMap::update` returns the values that stay, where its comment says those that go. The two
  subscription maps therefore drift apart on every second `updateSubscription` of a client, and exactly then
  (`OsObserver.StepKeepsTransposedIff`); the kept items are no longer delivered (`OsObserver.KeptItemGoesSilent`).
- `requestData` for an item that nobody subscribed to makes an index entry but no framework subscription
  (`OsObserver.StepKeepsNetIff`); without such requests the two agree in every run, however far the index has drifted
  (`OsObserver.FrameworkFollowsIndex`).
- New geofence ids that are absent from `mGeofences` are not enough for a consistent index: a removal sent before
  an engine restart may be answered after it (`Geofence.LateAnswerErasesNewFence`). `stopClientSessions` without
  erasing does not end for a client with a fence (`Geofence.StopEndsIff`). An engine restart adds every object again,
  so the fences of a client that has just left come back (`Geofence.StoppedClientComesBack`); it keeps the keys as they
  are exactly if no such object is left (`Geofence.RestartKeepsKeysIff`).
- In every run, whatever age the modem's answers have and whatever it refuses, a report puts on a trip's account the
  distance since the trip joined, less what the reading lacks to the odometer and less what was forgotten, modulo 2^32
  (`TripBatching.OdometerConserves`); so it is honest exactly if what it lacks is neither negative nor more than was
  travelled (`TripBatching.ReportHonestIff`). It is not honest when
  - a report posted before another trip joined wraps below zero and completes that trip
    (`TripBatching.StaleReportCompletesTrip`), or one posted before a restart counts twice
    (`TripBatching.LateReportCountsTwice`);
  - a start was told of the odometer before a restart, so that even a fresh report falls below its offset
    (`TripBatching.LateAnswerCompletesTrip`), or a stop was, which puts the old batch on the account of a trip that has
    not moved (`TripBatching.LateStopCountsOldBatch`);
  - the modem refused the restart that a start asks for, after the accounts were rebased for it
    (`TripBatching.RefusedStartCountsBatch`);
  - the engine restarted: `restartSessions` resets the offsets in copies of the entries, so a trip that joined a
    running batch is completed by the first report of the new one (`TripBatching.EngineRestartHonestIff`,
    `TripBatching.EngineRestartCompletesTrip`).

  Runs in which answers are in time, starts are not refused their restart, and the engine restarts only when no trip
  joined the running batch are called smooth below.
- The modem can be given a distance beyond a trip's end in three ways, and `TripBatching.StopKeepsCoveredIff` and
  `TripBatching.StartKeepsCoveredIff` say for every stop and start exactly when: a new target is the least remaining
  distance of accounts that are as old as the last report (`TripBatching.StopAfterDropOvershoots`,
  `TripBatching.NewTargetFits`); a restart for a new interval alone gives the whole old target again
  (`TripBatching.StopCanOvershoot`, `TripBatching.OldTargetFitsIff`); and a start whose query was answered before the
  last report takes more to be left than there is (`TripBatching.StartCanOvershoot`). After a report only the second
  can happen (`TripBatching.ReportKeepsCoveredIff`).
- A trip that joins others is not entered into `mBatchingSessions`, so it cannot be stopped
  (`TripTargets.FurtherTripCannotBeStopped`). A stop may leave a target at which no trip ends; the report there
  completes nobody, and only a report that completes a trip restarts the modem (`TripTargets.StopLeavesBehind`,
  `TripTargets.ReportInRunLeavesAheadIff`).
- A restart that a start asks for and the modem refuses leaves the adapter with a target and an interval that the modem
  does not have (`TripBatching.StepKeepsBeliefIff`). That its interval serves every trip is then lost exactly if a
  shorter one was asked for (`TripBatching.StepKeepsSampledIff`).
- A session goes unserved exactly when the modem refuses to run again after a restart, or when the adapter believes that
  the modem runs at the NHz rate while it runs less often than the session wants
  (`TrackingMultiplex.StepKeepsServedIff`). The modem's refusal of the request for that rate leads to the latter: the
  next session is told that it was started but the modem is never asked (`TrackingMultiplex.RefusalLeavesNextUnasked`,
  `TrackingMultiplex.RefusedStartSilencesTheNext`).
- The ODCPI timer bounds non-emergency starts but not emergencies that alternate with them
  (`Odcpi.AlternationIsNotLimited`).
- The SBAS ids 208 to 246, beyond the documented range, are shifted past bit 63, which C++ does not define
  (`SvBlacklist.UndefinedShiftIff`).
- The handle of the first network report of the platform is filed under its normalised type, later ones under the
  platform's code. In no run of further reports of the platform is the first one removed, whatever their codes
  (`NetworkTable.FirstHandleIsStuck`), while later handles of known codes can be removed
  (`NetworkTable.LaterHandleRemovableIff`).
- When one of two handles of a type is disconnected, the type mask becomes that type alone: other types that are still
  connected, mobile data for one, drop out of it (`NetworkTable.OtherTypeStaysIff`).
- The multiplexed quality is not the greatest of all sessions, but of those from the first with the least interval on
  (`TrackingMultiplex.MultiplexedQuality`).
- After a modem restart in PENDING the list is empty but the state stays PENDING; unsubscribing then does not lead
  to RELEASED. In every reachable state this is the only exception (`AgpsRuns.UnsubscribeAllThenReleased`), and it is
  reached (`AgpsRuns.RestartStrands`).

## Model

| member | source | states |
|---|---|---|
| AgpsRuns.StepKeepsListInv | gps/gnss/Agps.cpp:73-283 | every event, modem restart included, keeps handles unique, lets only subscribers that wait for the close be inactive, and leaves no subscriber in RELEASED |
| AgpsRuns.StepKeepsAgreement | gps/gnss/Agps.cpp:109-241 | without modem restart: RELEASED iff the list is empty, PENDING and ACQUIRED have an active subscriber, RELEASING an inactive one |
| AgpsRuns.ReachableListInv | gps/gnss/Agps.cpp:41-71 | the list invariant in every reachable state, restarts included |
| AgpsRuns.ReachableAgreement | gps/gnss/Agps.cpp:393-443 | state and list agree in every state reachable without restart |
| AgpsRuns.DeadUnsubscribeExits | gps/gnss/Agps.cpp:109-171 | in no state reachable without modem restart does an unsubscription in RELEASING find the list empty, nor one in RELEASED find its handle |
| AgpsRuns.UnsubscribeAllSilences | gps/gnss/Agps.cpp:601-627 | unsubscribing every active handle leaves nobody active |
| AgpsRuns.ReachableSettled | gps/gnss/Agps.cpp:73-283 | in every reachable state, restarts included, PENDING and ACQUIRED have an active subscriber or an empty list |
| AgpsRuns.UnsubscribeAllThenReleased | gps/gnss/Agps.cpp:196-241 | after every run, restarts included: unsubscribing all handles and one RELEASED event reach RELEASED with an empty list iff the run did not end in PENDING with an empty list |
| AgpsRuns.RestartStrands | gps/gnss/Agps.cpp:496-507 | a request overtaken by a modem restart ends in PENDING with an empty list |
| AgpsRuns.RestartKeepsState | gps/gnss/Agps.cpp:496-507 | a modem restart empties the list, keeps the state and sends nothing |
| AgpsRuns.RestartKeepsRelease | gps/gnss/Agps.cpp:73-241 | after one in RELEASING a new subscriber waits for the close, which requests for it |
| AgpsRuns.LedgerBalances | gps/gnss/Agps.cpp:289-309 | on every run, restarts included: requests = releases + denials in PENDING + forced releases in ACQUIRED + 1 while PENDING or ACQUIRED |
| AgpsRuns.ReleaseNeedsOpenRequest | gps/gnss/Agps.cpp:133-144 | no release is sent without a request that has not ended |
| AgpsRuns.EveryHandleHearsItsProtocol | gps/gnss/Agps.cpp:311-381 | every handle of a run with fresh handles has heard exactly what its state allows: at most one successful open, one terminal callback when it left, silence if never requested |
| AgpsRuns.TerminalCallbackIsTheLeaving | gps/gnss/Agps.cpp:346-381 | a listed handle gets its close or failed open in the very event that takes it off the list, and no such callback otherwise; only a modem restart drops it silently |
| AgpsRuns.SubscribeView | gps/gnss/Agps.cpp:73-107 | a subscription lists its handle, grants it at once in ACQUIRED, and touches no other |
| AgpsRuns.UnsubscribeView | gps/gnss/Agps.cpp:109-171 | after an unsubscription a waiting handle is listed inactive, another one closed and gone, all others unchanged |
| AgpsRuns.FrameworkView | gps/gnss/Agps.cpp:173-283 | what GRANTED, RELEASED and DENIED do to each single handle outside RELEASING |
| AgpsRuns.FinishReleaseView | gps/gnss/Agps.cpp:205-236 | in RELEASING the inactive are closed and gone, the active stay and a new request is sent |
| AgpsObject.AgpsStateMachine.NotifyAllSubscribers | gps/gnss/Agps.cpp:311-344 | the loop that notifies and erases in place sends the callbacks of the selected subscribers in order and keeps exactly the others |
| AgpsObject.AgpsStateMachine.AddSubscriber | gps/gnss/Agps.cpp:393-412 | appends unless an equal handle is listed |
| AgpsObject.AgpsStateMachine.DeleteSubscriber | gps/gnss/Agps.cpp:414-431 | erases every entry of the handle |
| AgpsObject.AgpsStateMachine.AnyActiveSubscribers | gps/gnss/Agps.cpp:433-443 | whether some listed subscriber is active |
| AgpsObject.AgpsStateMachine.GetSubscriber | gps/gnss/Agps.cpp:466-479 | the first entry of the handle, if any |
| AgpsObject.AgpsStateMachine.ProcessSubscribe | gps/gnss/Agps.cpp:73-107 | new state, list and messages of SUBSCRIBE |
| AgpsObject.AgpsStateMachine.ProcessUnsubscribe | gps/gnss/Agps.cpp:109-171 | new state, list and messages of UNSUBSCRIBE with the lookup of releaseATL |
| AgpsObject.AgpsStateMachine.ProcessGranted | gps/gnss/Agps.cpp:173-194 | new state, list and messages of GRANTED |
| AgpsObject.AgpsStateMachine.ProcessReleased | gps/gnss/Agps.cpp:196-241 | new state, list and messages of RELEASED |
| AgpsObject.AgpsStateMachine.ProcessDenied | gps/gnss/Agps.cpp:243-283 | new state, list and messages of DENIED |
| AgpsObject.AgpsStateMachine.DropAllSubscribers | gps/gnss/Agps.cpp:496-507 | empties the list and sends nothing |
| AgpsSystem.StepAnswers | gps/gnss/NativeAgpsHandler.cpp:140-158 | an event has something answered only when it enters PENDING, or leaves PENDING or ACQUIRED by an unsubscription |
| AgpsSystem.MovePosts | gps/gnss/NativeAgpsHandler.cpp:140-158 | exactly what joins the replies on their way for every move: entering PENDING a failure without data, a success with data and an accepted APN; a release a close; nothing otherwise, nor for another type than WWAN_ANY |
| AgpsSystem.FirstRequestEnds | gps/gnss/NativeAgpsHandler.cpp:144-151 | from the initial machine to the client: a request with data and an accepted APN ends in ACQUIRED with a successful open, one without data in RELEASED with a failed one, one with a refused APN is not answered |
| AgpsSystem.RepliesMatchRequests | gps/gnss/NativeAgpsHandler.cpp:140-158 | over every schedule the successes delivered or on their way are as many as the requests made with data and an accepted APN, the failures as many as those made without |
| AgpsSystem.LateCloseIs | gps/gnss/Agps.cpp:196-241 | a close that nobody waits for is ignored in PENDING and RELEASED, and ends the connection in ACQUIRED |
| AgpsSystem.ReplyAlwaysOutstanding | gps/gnss/GnssAdapter.cpp:5683-5798 | over every schedule in which each request and release is served: PENDING has an open or failure outstanding, RELEASING a close |
| AgpsSystem.FirstRequestWaitedIff | gps/gnss/NativeAgpsHandler.cpp:140-158 | the request made from the initial system is answered iff its type is WWAN_ANY and, when connected, its APN is accepted |
| AgpsSystem.RequestWaitedIff | gps/gnss/NativeAgpsHandler.cpp:140-158 | whatever move enters PENDING, from RELEASED or RELEASING: it is waited for iff the request is answered or an older open reply is on its way |
| AgpsSystem.ReleaseWaitedIff | gps/gnss/NativeAgpsHandler.cpp:140-158 | whatever move enters RELEASING: it is waited for iff the type is WWAN_ANY or an older close is on its way |
| AgpsSystem.MoveKeepsWaitedIff | gps/gnss/NativeAgpsHandler.cpp:140-158 | client calls, modem restarts and deliveries keep a reply on its way for PENDING and RELEASING iff the request or release they make, if any, is served |
| AgpsSystem.AnsweredIsServed | gps/gnss/NativeAgpsHandler.cpp:140-158 | every schedule whose surroundings always answer is served |
| AgpsSystem.DeliveryBurnsFuel | gps/gnss/Agps.cpp:173-283 | every delivery lowers the measure (RELEASING first, then replies left) |
| AgpsSystem.DrainTerminates | gps/gnss/Agps.cpp:173-283 | with no new call any order of deliveries ends within the measure, and the drained machine is RELEASED or ACQUIRED |
| AgpsSystem.SomeDrainEmpties | gps/gnss/Agps.cpp:173-283 | such a draining order exists from every reachable system |
| Cbor.ParseOfHead | duck-rkp/duck_rkp.cpp:61-66 | the shortest head of every major type and 64-bit argument parses back |
| Cbor.ParseOfEncode | duck-rkp/duck_rkp.cpp:61-66 | every well-formed item parses back from its encoding, with any bytes behind it |
| Cbor.ReencodeNoLonger | duck-rkp/duck_rkp.cpp:112-122 | encoding what was parsed is never longer than what was read, and what was parsed is well-formed |
| Cbor.ExamplesOfTheStandard | duck-rkp/duck_rkp.cpp:118-121 | encodings of appendix A of RFC 8949 |
| Cbor.NotTaken | duck-rkp/duck_rkp.cpp:61-66 | negative integers below −2^63 and simple values other than false, true and null in one byte are malformed |
| RelayRequest.BodyDecodes | duck-rkp/duck_rkp.cpp:112-122 | the re-encoded V1 body decodes to the same values under the vendor labels, and is not longer |
| RelayRequest.VendorReadsFieldsInOrder | duck-rkp/duck_rkp.cpp:112-127 | behind the command of every valid V1 request: a map of the plain labels 55, 4, 56, 57, 58 in this order, each followed by the value that the payload has under it |
| RelayRequest.V1ValidIff | duck-rkp/duck_rkp.cpp:203-205 | a V1 request with the fields of the self test is valid iff backend 1, mode 0, challenge of 1 to 64 bytes, MAC and keys of 32, a valid chain of at most 8192 |
| RelayRequest.V2ValidIff | duck-rkp/duck_rkp.cpp:187-193 | the same for V2: backend 2, challenge of 1 to 64 bytes, valid keys of 1 to 256 |
| RelayRequest.ChainValidIff | duck-rkp/duck_rkp.cpp:100-108 | a chain is valid iff it has one to eight certificates of a byte string, a map and two byte strings |
| RelayRequest.KeysValidIff | duck-rkp/duck_rkp.cpp:91-94 | keys are valid iff they are one P-256 key for ES256 with coordinates of 32 bytes |
| RelayRequest.ValidHas | duck-rkp/duck_rkp.cpp:61-86 | a valid request has 1 to 0x9000 bytes and different integer labels |
| RelayRequest.TrailingBytesAndTags | duck-rkp/duck_rkp.cpp:61-66 | nothing may follow the item of a request, and tags are looked through |
| RelayRequest.BodyStaysValid | duck-rkp/duck_rkp.cpp:79-110 | the re-encoded V1 body passes the same validation |
| RelayRequest.ReencodingIsStable | duck-rkp/duck_rkp.cpp:112-122 | re-encoding a re-encoded body changes nothing |
| RelayRequest.VendorRequestKeepsItsPromise | duck-rkp/duck_rkp.cpp:112-127 | command word, valid body, length bound, opening bytes of V1, unchanged payload of V2, for every valid request |
| RelayRequest.SharesFit | duck-rkp/duck_rkp.cpp:118-121 | picking distinct labels from a map costs no more bytes than the map |
| RelayRequest.CollectLabels | duck-rkp/duck_rkp.cpp:83-86 | the loop accepts exactly maps whose keys are distinct integers and returns their set |
| RelayRequest.CheckChain | duck-rkp/duck_rkp.cpp:100-108 | accepts exactly chains of one to eight well-shaped certificates |
| RelayRequest.ValidRequest | duck-rkp/duck_rkp.cpp:79-110 | the tests in their order accept exactly the valid requests of both backends |
| RelayTransport.SocketEnd.Send | duck-rkp/duck_rkp.cpp:44-48 | one send moves a prefix of what is left, or reports interruption or failure and moves nothing |
| RelayTransport.SocketEnd.Recv | duck-rkp/duck_rkp.cpp:44-48 | one recv moves a prefix of the stream into the buffer and nothing else |
| RelayTransport.SocketEnd.TransferOut | duck-rkp/duck_rkp.cpp:41-51 | sends a prefix of the buffer in order, all of it iff it returns true, which any schedule of short counts and interruptions allows |
| RelayTransport.SocketEnd.TransferIn | duck-rkp/duck_rkp.cpp:41-51 | fills the buffer in order from the stream, all of it iff it returns true |
| RelayTransport.WordsOfFrame | duck-rkp/duck_rkp.cpp:53-59 | the three words and the payload read back from a frame, with any bytes behind it |
| RelayTransport.WorkerSeesTheRequest | duck-rkp/duck_rkp.cpp:165-181 | the worker accepts the frame of a request iff it is valid and at most kMaxRequest − 4 bytes, and sees the same backend and payload |
| RelayTransport.Reply | duck-rkp/duck_rkp.cpp:53-59 | sends exactly the frame of status, detail and payload |
| RelayTransport.ReadRequest | duck-rkp/duck_rkp.cpp:170-180 | a request is accepted only if all of it was read and it is valid, and then always |
| RelayTransport.Serve | duck-rkp/duck_rkp.cpp:165-181 | under any schedule it writes nothing but the beginning of a refusal or, to an acceptable request, of the answer; with enough calls all of it, a refusal also to a payload cut short |
| RelayTransport.SendRequest | duck-rkp/duck_rkp.cpp:257-259 | sends exactly the frame of the request |
| RelayTransport.ReceiveResponse | duck-rkp/duck_rkp.cpp:260-270 | whatever is waiting: it returns the whole frame at the front unchanged, or fails, and fails if there is none that fits |
| RelayTransport.AwaitReply | duck-rkp/duck_rkp.cpp:260-282 | whatever part of its reply the worker wrote and however it ended, the caller gets the whole frame or an error reply; the error of the ending if that was not exit code 0 |
| RelayTransport.RunWorker | duck-rkp/duck_rkp.cpp:232-283 | under any schedule of short counts, interruptions and failures on both ends and any ending of the worker the caller gets the vendor's frame for a valid request, status 1 for a refusal, or the error of the ending: status 5 with signal 14, status 3 with any other signal or error; with enough calls and exit code 0 the frame unchanged iff the request is valid and fits |
| SvBlacklist.BitOfApplyAll | gps/gnss/GnssAdapter.cpp:1905-2007 | a mask bit is set after the list iff it was before or the list covers it |
| SvBlacklist.FromConfigCovers | gps/gnss/GnssAdapter.cpp:2009-2055 | the list made from a config covers exactly its set bits, all-ones masks and the SBAS split included |
| SvBlacklist.SbasListCovers | gps/gnss/GnssAdapter.cpp:2034-2049 | the two SBAS lists together cover exactly the bits of the one mask |
| SvBlacklist.SatellitesOfBits | gps/gnss/GnssAdapter.cpp:1905-2007 | which satellite ids a bit of each mask stands for, 0 for all of them |
| SvBlacklist.EmptyListClears | gps/gnss/GnssAdapter.cpp:1905-1915 | an empty list clears every mask |
| SvBlacklist.RoundTrip | gps/gnss/GnssAdapter.cpp:6436-6441 | every config of six 64-bit masks survives the way to a list and back into a zeroed config |
| SvBlacklist.NormalisedListMeansTheSame | gps/gnss/GnssAdapter.cpp:1905-2095 | list to config to list covers the same satellites |
| SvBlacklist.UndefinedShiftIff | gps/gnss/GnssAdapter.cpp:1948-1984 | a shift past bit 63, undefined in C++, happens exactly for the SBAS ids 208 to 246 |
| SvBlacklist.ConvertGnssSvIdMaskToList | gps/gnss/GnssAdapter.cpp:2057-2095 | the shifting loop appends exactly the list of the mask |
| SvBlacklist.ConvertFromGnssSvIdConfig | gps/gnss/GnssAdapter.cpp:2009-2055 | appends the lists of the masks in order |
| SvBlacklist.ConvertToGnssSvIdConfig | gps/gnss/GnssAdapter.cpp:1905-2007 | a non-empty list sets exactly its bits and is valid iff some mask is non-zero then; an empty list clears the config |
| TripBatching.OdometerIsHonest | gps/batching/BatchingAdapter.cpp:668-706 | after every smooth run: no trip's account exceeds the distance since it joined, a fresh report does not wrap, and it completes a trip only when covered |
| TripBatching.OdometerConserves | gps/batching/BatchingAdapter.cpp:668-1039 | in every run, with answers of any age, refusals and engine restarts: the account after a report = distance since joining − (odometer − reading) − forgotten, modulo 2^32 |
| TripBatching.StepKeepsInv | gps/batching/BatchingAdapter.cpp:197-1039 | smooth travel, starts, stops, reports, engine restarts and the restarts they cause keep every offset behind the odometer and every account within the distance travelled |
| TripBatching.StepKeepsLedger | gps/batching/BatchingAdapter.cpp:197-1039 | each step, smooth or not, keeps ids distinct and every trip's balance of account, forgotten and travelled distance modulo 2^32; a smooth one keeps it exactly |
| TripBatching.ReportHonestIff | gps/batching/BatchingAdapter.cpp:678-681 | in every such run, for distances below 2^31 m: a report with any reading is honest iff what the account lacks, odometer − reading + forgotten, is neither negative nor more than was travelled |
| TripBatching.SmoothRunConserves | gps/batching/BatchingAdapter.cpp:668-1039 | after every smooth run the account at the odometer and what restarts forgot add up exactly to the distance since joining, and nothing less than zero was forgotten |
| TripBatching.LastReportHonestIff | gps/batching/BatchingAdapter.cpp:678-681 | after a smooth run the next report, of any age, is honest iff offset <= reading <= odometer + forgotten |
| TripBatching.EngineRestartHonestIff | gps/batching/BatchingAdapter.cpp:215-238 | after a smooth run and an engine restart a report of the new batch is honest about a trip iff it has passed the offset that the trip kept, and completes it otherwise |
| TripBatching.EngineRestartCompletesTrip | gps/batching/BatchingAdapter.cpp:221-237 | such a trip in a run from the start |
| TripBatching.StaleReportCompletesTrip | gps/batching/BatchingAdapter.cpp:677-686 | a report older than a trip's joining completes the trip, which has not moved |
| TripBatching.LateReportCountsTwice | gps/batching/BatchingAdapter.cpp:677-686 | a report older than a restart completes a trip that has gone half of its way |
| TripBatching.LateAnswerCompletesTrip | gps/batching/BatchingAdapter.cpp:794-864 | a start with an answer older than a restart is completed by the next fresh report |
| TripBatching.LateStopCountsOldBatch | gps/batching/BatchingAdapter.cpp:975-1031 | a stop with an answer older than a restart puts the old batch on the account of a trip that has not moved |
| TripBatching.RefusedStartCountsBatch | gps/batching/BatchingAdapter.cpp:838-857 | a start whose restart the modem refuses is completed by the next report without having moved |
| TripBatching.MinRemainingIsLeast | gps/batching/BatchingAdapter.cpp:957-973 | the running minimum with sentinel 0 is the least remaining distance when no trip is finished |
| TripBatching.MinTbfIsLeast | gps/batching/BatchingAdapter.cpp:957-973 | the running minimum of the intervals is the least one, if none is 0 |
| TripBatching.EveryTripIsSampled | gps/batching/BatchingAdapter.cpp:197-1039 | in every run in which the modem accepts the shorter intervals of starts and to start again, late answers and other refusals included, it samples, at an interval of at most every trip's, if all are positive |
| TripBatching.StepKeepsSampledIff | gps/batching/BatchingAdapter.cpp:787-859 | each step keeps the interval within every trip's and known to the adapter iff it is not a refusal of these |
| TripBatching.StepKeepsBeliefIff | gps/batching/BatchingAdapter.cpp:838-857 | each step keeps target and interval known to the adapter iff it is not a refused restart of a start that would change them, nor a refused start after an engine restart |
| TripBatching.DriveKeepsBelief | gps/batching/BatchingAdapter.cpp:197-1039 | so in every smooth run the adapter knows the modem's target and interval |
| TripBatching.StartKeepsCoveredIff | gps/batching/BatchingAdapter.cpp:787-859 | for every world, answer to the query, none included, and answer to the restart: the target is within every trip's end iff it fits every trip by its last account in a restart, or does not reach beyond the new trip without one |
| TripBatching.StartKeepsCovered | gps/batching/BatchingAdapter.cpp:787-859 | so an accepted start whose query is answered at once does, until the modem has passed its target |
| TripBatching.StartCanOvershoot | gps/batching/BatchingAdapter.cpp:787-859 | a start whose query was answered before the last report, after which the modem would stop too late |
| TripBatching.RestartKeepsCoveredIff | gps/batching/BatchingAdapter.cpp:975-1039 | restartTripBatching does iff the modem refuses or its new target, or in a restart for the interval alone the old one, fits every trip settled at the reading |
| TripBatching.StopKeepsCoveredIff | gps/batching/BatchingAdapter.cpp:894-919 | the same for every stop and every answer to its query and restart |
| TripBatching.NewTargetFits | gps/batching/BatchingAdapter.cpp:957-1012 | a new target fits if all accounts are up to date, and only if those of the trips with least to go are |
| TripBatching.OldTargetFitsIff | gps/batching/BatchingAdapter.cpp:1008-1018 | while the trip it was made for is under way, the old target fits iff the batch has just begun |
| TripBatching.ReportKeepsCoveredIff | gps/batching/BatchingAdapter.cpp:668-706 | after a report the target fits, unless exactly the modem is restarted for the interval alone while a trip has less to go than the old target |
| TripBatching.EngineRestartCoversIff | gps/batching/BatchingAdapter.cpp:215-247 | after an engine restart the least remaining distance fits every unfinished trip by its account iff the modem starts again |
| TripBatching.StopAfterDropOvershoots | gps/batching/BatchingAdapter.cpp:894-1039 | stopping the trip that set the target gives the other one its whole distance again |
| TripBatching.StopCanOvershoot | gps/batching/BatchingAdapter.cpp:894-1039 | a stop in a run from the start after which the modem would stop too late |
| TripTargets.ReportSetsLeastTarget | gps/batching/BatchingAdapter.cpp:700-703 | an accepted report that completes the trip the target was made for, with others left: a new batch, whose target is at most what each of them has left and equal to what one has left |
| TripTargets.ReportTakesOut | gps/batching/BatchingAdapter.cpp:674-699 | a report takes exactly the trips out that it completes and notes whether the present distance or interval went with one |
| TripTargets.ReportRetargets | gps/batching/BatchingAdapter.cpp:700-706 | the new batch after an accepted report that completes some trip, over the trips that are left |
| TripTargets.EngineRestartTargets | gps/batching/BatchingAdapter.cpp:215-247 | after an engine restart the modem gets the least remaining distance and the least interval, or nothing if it refuses |
| TripTargets.RestartRetargets | gps/batching/BatchingAdapter.cpp:934-1039 | an accepted restartTripBatching starts a new batch iff some trip has less to go than is left, the trip of the target is gone or the target reached, or an interval is needed; with the least remaining distance and the least interval, where needed |
| TripTargets.ReportInRunLeavesAheadIff | gps/batching/BatchingAdapter.cpp:668-706 | in every smooth run a report at the odometer leaves the modem short of its target iff it was so before, or the report completes a trip and the modem accepts |
| TripTargets.StopLeavesBehind | gps/batching/BatchingAdapter.cpp:894-1018 | a run in which a stop leaves a target that no trip ends at: the report there completes nobody, and the modem stays at its target with a trip unfinished |
| TripTargets.StopTakesOut | gps/batching/BatchingAdapter.cpp:894-912 | a stop takes exactly its trip out and notes whether its distance or interval was the present one |
| TripTargets.StopRetargets | gps/batching/BatchingAdapter.cpp:894-1039 | the new batch after an accepted stop, over the trips that are left |
| TripTargets.StartRetargets | gps/batching/BatchingAdapter.cpp:787-859 | an accepted start starts a new batch iff it is shorter than what is left or asks for a shorter interval, with the shorter of both distances and intervals |
| TripTargets.UnansweredStartRetargets | gps/batching/BatchingAdapter.cpp:814-859 | a start whose query failed is compared with the whole target |
| TripTargets.FirstStartTargets | gps/batching/BatchingAdapter.cpp:759-777 | the first start gives the modem its own distance and interval, and is known to mBatchingSessions |
| TripTargets.RefusedFirstStart | gps/batching/BatchingAdapter.cpp:780-790 | nothing is left of a first start that the modem refuses |
| TripTargets.LastTripStopped | gps/batching/BatchingAdapter.cpp:914-916 | when the only trip is stopped there is no target, no interval and no restart |
| TripTargets.LastTripsComplete | gps/batching/BatchingAdapter.cpp:943-956 | the same when a report completes all trips |
| TripTargets.ListFollowsPlans | gps/batching/BatchingAdapter.cpp:668-919 | in every run, whatever the answers: exactly the trips are listed that were started and neither stopped nor reported complete, with their distances and intervals |
| TripTargets.FurtherTripCannotBeStopped | gps/batching/BatchingAdapter.cpp:792-862 | a trip that joins others is not known to mBatchingSessions, so a stop of it changes nothing |
| TripBatching.BatchingAdapter.StartTripBatchingMultiplex | gps/batching/BatchingAdapter.cpp:755-864 | new trips, target and interval after a start, query answered or not, accepted or refused, and whether the modem was started |
| TripBatching.BatchingAdapter.RestartTripBatching | gps/batching/BatchingAdapter.cpp:934-1039 | when and with what target the modem is restarted, and the trips, rebased if it accepts |
| TripBatching.BatchingAdapter.RebaseAll | gps/batching/BatchingAdapter.cpp:1021-1031 | the rebasing loop, trip by trip |
| TripBatching.BatchingAdapter.StopTrip | gps/batching/BatchingAdapter.cpp:894-919 | new state after a stop; an unknown trip changes nothing |
| TripBatching.BatchingAdapter.DropCompleted | gps/batching/BatchingAdapter.cpp:674-699 | the erasing loop keeps the unfinished trips, returns the completed ones in order, and notes whether target or interval went with them |
| TripBatching.BatchingAdapter.ReportCompletedTrips | gps/batching/BatchingAdapter.cpp:653-714 | new state after a report, with the restart it causes |
| TripBatching.BatchingAdapter.RestartSessions | gps/batching/BatchingAdapter.cpp:197-248 | new target and interval after an engine restart; the loop changes copies of the trips only |
| SetMaps.LocUnorderedSetMap.Add | gps/utils/LocUnorderedSetMap.h:157-186 | the union at every key, and the keys that are new |
| SetMaps.LocUnorderedSetMap.TrimOrRemove | gps/utils/LocUnorderedSetMap.h:127-153 | the difference at every key, empty entries removed, with the keys and values that went |
| SetMaps.LocUnorderedSetMap.Update | gps/utils/LocUnorderedSetMap.h:188-203 | the entry replaced; returns the intersection of old and new values and leaves the rest |
| SetMaps.TrimmedVals | gps/utils/LocUnorderedSetMap.h:134-153 | trimming changes only the named keys, keeps entries non-empty, and removes exactly the keys reported gone |
| OsObserver.StepKeepsTransposedIff | gps/core/SystemStatusOsObserver.cpp:96-265 | the two maps stay exact transposes without empty entries iff the message is not an updateSubscription of a client that had items |
| OsObserver.UpdateLeavesSymmetricDifference | gps/core/SystemStatusOsObserver.cpp:142-166 | after updateSubscription the item map lists the client for the symmetric difference of old and new items |
| OsObserver.KeptItemGoesSilent | gps/core/SystemStatusOsObserver.cpp:142-166 | the client is no longer notified of an item it kept |
| OsObserver.StepKeepsNetIff | gps/core/SystemStatusOsObserver.cpp:102-118 | the set subscribed at the framework stays the key set of the index iff no requestData brings new items |
| OsObserver.FrameworkServesEveryClient | gps/core/SystemStatusOsObserver.cpp:58-94 | in every run of harmless messages the framework is subscribed, once set, to exactly the union of the clients' items |
| OsObserver.FrameworkFollowsIndex | gps/core/SystemStatusOsObserver.cpp:58-259 | in every run whose requestData bring no new item, repeated updateSubscriptions included, the framework is subscribed, once set, to exactly the keys of the item map |
| OsObserver.SubscriberHearsCache | gps/core/SystemStatusOsObserver.cpp:96-166 | a subscription, and for the items new to the client an updateSubscription, sends its client, and nobody else, exactly the cached values of its items, whoever else is subscribed |
| OsObserver.OnlyTheseRequestAndSend | gps/core/SystemStatusOsObserver.cpp:58-166 | data is requested only by requestData, for the items that nobody had subscribed to, and for all when the framework is set; only subscriptions and notifications send |
| OsObserver.EveryWishIsSubscribed | gps/core/SystemStatusOsObserver.cpp:58-259 | in every run each client is listed with what it asked for and did not give up, and in harmless runs the framework is subscribed to exactly that |
| OsObserver.NotifyReachesSubscribers | gps/core/SystemStatusOsObserver.cpp:292-325 | each client gets exactly the changed items it subscribed to, with the recorded values, and no other client is called |
| OsObserver.RecordedKeys | gps/core/SystemStatusOsObserver.cpp:525-553 | the cache holds the last accepted value of each item and keeps the others |
| OsObserver.SystemStatusOsObserver.Subscribe | gps/core/SystemStatusOsObserver.cpp:89-132 | both maps, framework calls and first response of subscribe and requestData |
| OsObserver.SystemStatusOsObserver.UpdateSubscription | gps/core/SystemStatusOsObserver.cpp:134-198 | both maps, framework calls and first response of updateSubscription |
| OsObserver.SystemStatusOsObserver.Unsubscribe | gps/core/SystemStatusOsObserver.cpp:200-236 | both maps and framework calls of unsubscribe |
| OsObserver.SystemStatusOsObserver.UnsubscribeAll | gps/core/SystemStatusOsObserver.cpp:238-275 | both maps and framework calls of unsubscribeAll |
| OsObserver.SystemStatusOsObserver.SetSubscriptionObj | gps/core/SystemStatusOsObserver.cpp:59-82 | subscribes and requests all items wanted so far |
| OsObserver.SystemStatusOsObserver.Notify | gps/core/SystemStatusOsObserver.cpp:297-325 | the nested loops fill the cache and send each client its part |
| NetworkTable.InsertRefines | gps/core/SystemStatus.h:547-563 | inserting keeps the table gap-free with distinct handles and adds one map entry iff the handle is known, absent and there is room |
| NetworkTable.RemoveRefines | gps/core/SystemStatus.h:564-596 | swap-with-last deletion removes exactly the one entry iff handle and type match |
| NetworkTable.MoveLastIntoHole | gps/core/SystemStatus.h:588-596 | moving the last entry into the hole takes only the deleted handle out of the map |
| NetworkTable.HistoryRefinesMap | gps/core/SystemStatus.cpp:1539-1557 | over every run the newest report of the bounded history means the map that the items produce, with dropped duplicates |
| NetworkTable.RunFromEmpty | gps/core/SystemStatus.cpp:1549-1556 | the same from an empty history, whose first item is recorded even when disconnected |
| NetworkTable.TakenIff | gps/core/SystemStatus.cpp:1539-1557 | an item is taken iff the history is empty or the item, collated, differs from the newest entry in connection, mask, table or APN; at most five entries are kept, otherwise only the time changes |
| NetworkTable.MaskAfter | gps/core/SystemStatus.h:547-605 | the type mask after a connection, and after a disconnection with and without another handle of the type |
| NetworkTable.OtherTypeStaysIff | gps/core/SystemStatus.h:597-602 | another type stays in the mask after a disconnection iff no further handle of the disconnected type is connected |
| NetworkTable.ApnAfter | gps/core/SystemStatus.h:543-546 | items of other types than mobile take over the known APN, mobile ones keep their own |
| NetworkTable.FirstHandleIsStuck | gps/core/data-items/DataItemConcreteTypes.h:318-375 | in every run from an empty history: the handle of the platform's first report stays in the newest table under its normalised type, whatever the platform reports afterwards |
| NetworkTable.KnownCodes | gps/core/data-items/DataItemConcreteTypes.h:318-375 | the known codes of the platform and their types, of which no two share one |
| NetworkTable.FirstHandleRemovableIff | gps/core/SystemStatus.cpp:1975-1985 | a status report removes it iff it names the normalised type and this is a known one |
| NetworkTable.LaterHandleRemovableIff | gps/core/SystemStatus.h:550-596 | a later handle is removed by a report of the same code iff the code is a known one |
| NetworkTable.NetworkInfo.Collate | gps/core/SystemStatus.h:533-606 | the item after collate: table, APN and type mask |
| NetworkTable.NetworkInfo.InsertHandle | gps/core/SystemStatus.h:550-563 | the search-and-fill loop on the array |
| NetworkTable.NetworkInfo.RemoveHandle | gps/core/SystemStatus.h:566-596 | the counting and deleting loop on the array |
| NetworkTable.SystemStatus.SetItemInReport | gps/core/SystemStatus.cpp:1539-1557 | the history after an item: an equal item only refreshes the time of the newest entry, at most five are kept |
| ClockEstimator.AnswersAsExpected | gps/core/LocApiBase.cpp:942-1002 | every call of every run answers −1, boot − initial travel time, or anchor boot − travel + data − anchor data, as the history says |
| ClockEstimator.RunTelescopes | gps/core/LocApiBase.cpp:971-987 | the clock difference telescopes from the sixth fix of the streak on, over wall clock jumps, untrusted calls and data time jumps |
| ClockEstimator.WallClockDoesNotMatter | gps/core/LocApiBase.cpp:962-987 | runs that differ only in the wall clock get the same answers |
| ClockEstimator.ElapsedRealtimeEstimator.GetElapsedRealtimeEstimateNanos | gps/core/LocApiBase.cpp:942-992 | estimate and new state of one call |
| ClockEstimator.ElapsedRealtimeEstimator.Reset | gps/core/LocApiBase.cpp:994-1002 | back to five fixes to wait for |
| AdapterArray.RunKeepsRegistered | gps/core/LocApiBase.cpp:236-281 | in every run the array has no hole and no duplicate, holds the registered set as far as there is room, and the modem is open iff somebody is registered |
| AdapterArray.EveryJoinIsOpened | gps/core/LocApiBase.cpp:236-281 | in every run each adapter is the subject of exactly one open message for every time it joined, and exactly one other message follows every removal |
| AdapterArray.TenFit | gps/core/LocApiBase.cpp:236-244 | an adapter is added iff fewer than ten are registered |
| AdapterArray.RemoveRefines | gps/core/LocApiBase.cpp:247-281 | moving the last adapter into the hole removes exactly the one |
| AdapterArray.LocApiBase.AddAdapter | gps/core/LocApiBase.cpp:236-244 | appends with an open message unless present or full |
| AdapterArray.LocApiBase.RemoveAdapter | gps/core/LocApiBase.cpp:247-281 | removes, and closes exactly when the last one leaves |
| AdapterArray.LocApiBase.CloseGap | gps/core/LocApiBase.cpp:251-271 | the inner search and swap |
| AdapterArray.LocApiBase.GetEvtMask | gps/core/LocApiBase.cpp:172-179 | every registered adapter is asked once, and the mask is the union without the excluded bits |
| Geofence.StepKeepsIndexIff | gps/geofence/GeofenceAdapter.cpp:686-729 | each message keeps key-to-id-to-key consistent and safe from late answers iff a new id is not in use under another key nor being erased |
| Geofence.ReachableIndexIsConsistent | gps/geofence/GeofenceAdapter.cpp:182-218 | in every reachable state each key leads to its own fence, removals in flight and restarts included |
| Geofence.LateAnswerErasesNewFence | gps/geofence/GeofenceAdapter.cpp:86-116 | a run where an id that is not in mGeofences is still not safe |
| Geofence.RemovedIsGone | gps/geofence/GeofenceAdapter.cpp:707-729 | after a removal neither the id nor its key is left, no breach report finds it, and all else is as it was |
| Geofence.StopSendsRemovals | gps/geofence/GeofenceAdapter.cpp:86-116 | the keys of a client that stops go, and a removal is in flight for each of their ids |
| Geofence.AnswerEndsRemoval | gps/geofence/GeofenceAdapter.cpp:100-109 | the answer ends the removal, and the fence goes iff the modem removed it |
| Geofence.RestartAsksForAll | gps/geofence/GeofenceAdapter.cpp:182-218 | an engine restart empties both maps and asks again for every fence |
| Geofence.RestartKeepsKeysIff | gps/geofence/GeofenceAdapter.cpp:182-218 | when all fences are added again, the keys are those of all objects; they are as before iff no object is left of a client that is gone |
| Geofence.StoppedClientComesBack | gps/geofence/GeofenceAdapter.cpp:86-218 | every fence of a client that left before a restart, its removal in flight, is added again under its key and survives the late answer |
| Geofence.StopEndsIff | gps/geofence/GeofenceAdapter.cpp:92-115 | the loop ends iff it erases or the client has no fence |
| Geofence.StopSendsAsMany | gps/geofence/GeofenceAdapter.cpp:92-115 | it sends one removal for each fence of the client when it erases, and otherwise one in every turn for ever |
| Geofence.BreachReportIsExact | gps/geofence/GeofenceAdapter.cpp:838-848 | a client's ids are those of exactly its own fences in the report, in the order of the report |
| Geofence.BreachGoesToOneClient | gps/geofence/GeofenceAdapter.cpp:834-848 | no place of a report goes to two clients |
| Geofence.NotifiedAre | gps/geofence/GeofenceAdapter.cpp:830-862 | exactly the clients with a callback and a fence in the report are told, each its ids, none twice |
| Geofence.NotifiedInOrder | gps/geofence/GeofenceAdapter.cpp:830-862 | in the order of the client table |
| Geofence.GeofenceAdapter.SaveGeofenceItem | gps/geofence/GeofenceAdapter.cpp:686-705 | both maps after a successful addition |
| Geofence.GeofenceAdapter.RemoveGeofenceItem | gps/geofence/GeofenceAdapter.cpp:707-729 | both maps after a successful removal |
| Geofence.GeofenceAdapter.StopClientSessions | gps/geofence/GeofenceAdapter.cpp:86-116 | the client's keys go, and removals of exactly its ids are sent |
| Geofence.GeofenceAdapter.EraseAnswered | gps/geofence/GeofenceAdapter.cpp:100-109 | the object goes when the removal succeeded |
| Geofence.GeofenceAdapter.RestartGeofences | gps/geofence/GeofenceAdapter.cpp:182-218 | both maps are cleared, and the additions that follow are those of exactly the fences returned |
| Geofence.GeofenceAdapter.GeofenceBreach | gps/geofence/GeofenceAdapter.cpp:830-862 | the nested loops notify each client with a callback and a fence in the report, in table order |
| TrackingMultiplex.EverySessionIsServed | gps/gnss/GnssAdapter.cpp:2824-2915 | over all starts, stops, updates, NHz changes, suspensions, restarts and refusals in which the modem is asked when it has to be and runs again when restarted, it runs, while not suspended, at an interval that serves every session |
| TrackingMultiplex.EveryWishIsServed | gps/gnss/GnssAdapter.cpp:3170-3604 | after every run the sessions are exactly those that were started, updated and not stopped, refusals aside, with the options asked for and an interval of at least the minimum; and if the modem was asked when it had to be, it runs at least as often as each of them asked |
| TrackingMultiplex.StepLists | gps/gnss/GnssAdapter.cpp:3170-3604 | the same for one event: a start or update that is not told to have failed lists its options, whether the modem was asked or not; a stop takes exactly its session away |
| TrackingMultiplex.StepKeepsServedIff | gps/gnss/GnssAdapter.cpp:282-304 | in every reachable state with all sessions served, one event leaves all served iff it does not start or update a session that the modem is not asked for though it runs less often, nor restart a modem that refuses and runs less often |
| TrackingMultiplex.ReachableSound | gps/gnss/GnssAdapter.cpp:3187-3604 | in every reachable state, whatever was refused: ordered sessions, the NHz flag only with NHz, no modem session without a session |
| TrackingMultiplex.SuspensionStopsModem | gps/gnss/GnssAdapter.cpp:2785-2881 | a suspension, and an engine restart during one, stop the modem and leave the sessions |
| TrackingMultiplex.RestartRuns | gps/gnss/GnssAdapter.cpp:2785-2915 | a resumption, engine restart or changed NHz requirement runs the modem at the least interval, or the highest rate for NHz, if it accepts |
| TrackingMultiplex.AskedUnlessRefused | gps/gnss/GnssAdapter.cpp:282-304 | the modem is asked whenever it has to be, if it never refuses the request for the NHz rate, nor to run again |
| TrackingMultiplex.RefusalLeavesNextUnasked | gps/gnss/GnssAdapter.cpp:3258-3286 | after such a refusal any start that wants more than the modem does goes unasked |
| TrackingMultiplex.StepKeepsInvIff | gps/gnss/GnssAdapter.cpp:282-304 | one event keeps every session served and the NHz flag true of the modem iff the modem refuses neither the request that takes it to the NHz rate nor to run again |
| TrackingMultiplex.RefusedStartSilencesTheNext | gps/gnss/GnssAdapter.cpp:3258-3286 | after such a refusal a started session is not served |
| TrackingMultiplex.ModemRunsAtMinimum | gps/gnss/GnssAdapter.cpp:3187-3286 | without NHz, in runs that keep pace, the modem runs at exactly the minimum |
| TrackingMultiplex.StepKeepsPaceIff | gps/gnss/GnssAdapter.cpp:3440-3604 | one event keeps the modem at the minimum iff a slowing stop is accepted, the session that sets the pace is not updated to a longer interval without asking, and a restart is accepted unless the modem runs at the minimum already |
| TrackingMultiplex.MultiplexedIsLeast | gps/gnss/GnssAdapter.cpp:3201-3222 | the loop finds an interval that some session asks for and none undercuts |
| TrackingMultiplex.MultiplexedPowerIsLeast | gps/gnss/GnssAdapter.cpp:3208-3213 | and the lowest power mode, if all are valid |
| TrackingMultiplex.MultiplexedQuality | gps/gnss/GnssAdapter.cpp:3201-3219 | and the greatest quality only from the first session with the least interval on |
| TrackingMultiplex.StartAsksIff | gps/gnss/GnssAdapter.cpp:3187-3241 | a start asks the modem iff it is the first or wants a shorter interval, a lower power mode or a higher quality than the loop found; it asks for the shortest interval |
| TrackingMultiplex.UpdateAsksIff | gps/gnss/GnssAdapter.cpp:3440-3502 | an update asks iff interval or mode changes, and it is the only session or wants a shorter interval or lower mode than all others |
| TrackingMultiplex.StopAsksIff | gps/gnss/GnssAdapter.cpp:3556-3604 | a stop asks iff others are left and it alone set the shortest interval or the lowest mode |
| TrackingMultiplex.GnssAdapter.Multiplex | gps/gnss/GnssAdapter.cpp:3461-3478 | the loop over the sessions, with one left out |
| TrackingMultiplex.GnssAdapter.AskModem | gps/gnss/GnssAdapter.cpp:3243-3286 | what the modem is asked, and the NHz flag after it |
| TrackingMultiplex.GnssAdapter.StartTracking | gps/gnss/GnssAdapter.cpp:3187-3241 | sessions, flag and modem after a start |
| TrackingMultiplex.GnssAdapter.UpdateTracking | gps/gnss/GnssAdapter.cpp:3440-3502 | sessions, flag and modem after an update |
| TrackingMultiplex.GnssAdapter.StopTracking | gps/gnss/GnssAdapter.cpp:3556-3604 | sessions, flag and modem after a stop |
| TrackingMultiplex.GnssAdapter.CheckAndRestartSPESession | gps/gnss/GnssAdapter.cpp:2847-2915 | the modem is asked again for the minimum, and the NHz flag after it, accepted or refused |
| TrackingMultiplex.GnssAdapter.UpdateNHzRequirement | gps/gnss/GnssAdapter.cpp:7095-7111 | a changed requirement restarts the session |
| TrackingMultiplex.GnssAdapter.SuspendSessions | gps/gnss/GnssAdapter.cpp:2864-2881 | stops the modem if there are sessions |
| TrackingMultiplex.GnssAdapter.ResumeSessions | gps/gnss/GnssAdapter.cpp:2824-2845 | starts the modem again at the minimum |
| TrackingMultiplex.GnssAdapter.HandleEngineUp | gps/gnss/GnssAdapter.cpp:2785-2822 | starts again, or suspends again if suspended |
| GpsLock.ModemLockFollowsPolicy | gps/gnss/GnssAdapter.cpp:1062-1079 | in every run the lock last sent is the one that the history calls for: state bits in Q, none or the configured lock in P |
| GpsLock.MoBit | gps/gnss/GnssAdapter.cpp:3809-3828 | the MO bit of GPS_LOCK is clear exactly in Q with location on, from the default of gps/core/ContextBase.cpp:166 |
| GpsLock.LockBits | gps/gnss/GnssAdapter.cpp:3809-3828 | bit 0 is MO, bits 1 to 11 are NFW |
| GpsLock.GnssAdapter.EnableCommand | gps/gnss/GnssAdapter.cpp:3756-3780 | control id, GPS_LOCK and lock sent by enable |
| GpsLock.GnssAdapter.DisableCommand | gps/gnss/GnssAdapter.cpp:3809-3830 | control id, GPS_LOCK and lock sent by disable |
| GpsLock.GnssAdapter.NfwControlCommand | gps/gnss/GnssAdapter.cpp:6267-6291 | GPS_LOCK and lock sent by NFW control, nothing before the engine is up or in P |
| GpsLock.GnssAdapter.GnssUpdateConfigCommand | gps/gnss/GnssAdapter.cpp:1482-1512 | the switch to P with its two cases |
| GpsLock.GnssAdapter.HandleEngineUp | gps/gnss/GnssAdapter.cpp:1062-1079 | the lock sent when the engine comes up |
| Odcpi.RequestsAreLimited | gps/gnss/GnssAdapter.cpp:5059-5125 | in every run an active request is timed, an active address request is active, non-emergency starts passed on are at most 1 + expiries, all starts at most 2 + expiries + non-emergency requests |
| Odcpi.StepIsPaidFor | gps/gnss/GnssAdapter.cpp:5071-5100 | the potential behind both bounds, step by step |
| Odcpi.StartsAreDue | gps/gnss/GnssAdapter.cpp:5059-5125 | in every run exactly as many starts are passed on as are due by the history: for a request that finds none active and no timer, an emergency after a non-emergency, and every expiry while a request is active |
| Odcpi.StopsAreDue | gps/gnss/GnssAdapter.cpp:5100-5110 | every stop is passed on |
| Odcpi.FiredCarriesRequest | gps/gnss/GnssAdapter.cpp:5059-5125 | each carries the kind of the request it stands for |
| Odcpi.AlternationIsNotLimited | gps/gnss/GnssAdapter.cpp:5079-5089 | n alternating requests without an expiry pass on at least n starts, for every n |
| Odcpi.GnssAdapter.RequestOdcpi | gps/gnss/GnssAdapter.cpp:5059-5125 | state and requests passed on by a start or stop |
| Odcpi.GnssAdapter.OdcpiTimerExpire | gps/gnss/GnssAdapter.cpp:5363-5376 | an expiry repeats an active request or stops the timer |
| Odcpi.GnssAdapter.RestartSessions | gps/gnss/GnssAdapter.cpp:2824-2832 | an engine restart forgets the requests but not the timer |

## Left out

- AGPS: the routing of one AgpsManager to its machines by type, the rewriting of emergency types, APN buffers and the IPv4 status callback; a malformed APN is an unanswered request, its immediate close report is not followed.
- AgpsRuns.DeadUnsubscribeExits: says nothing of runs with a modem restart, after which the empty-list exit can be taken.
- AgpsObject.AgpsStateMachine.ProcessUnsubscribe: the lookup of `releaseATL` is part of it.
- CBOR: cppbor is not part of this model; its items are modelled after section 3 of RFC 8949, and tags are looked through by its accessors and by the lookup of a map key, which this repository does not show; indefinite lengths, floating point and UTF-8 checks are not modelled.
- Relay: process spawning, the time limits and the vendor library; its answer, and what `waitpid` says of the worker, are parameters that the exchange does not restrict. A socket's schedule of outcomes is finite, and running out of it counts as a failed call. The one transfer function with a direction flag is two methods.
- RelayRequest: `AsInt` keeps labels from 2^63 up as they are, where the code reads them as `int64_t`.
- RelayRequest.VendorRequestKeepsItsPromise: the ninth byte of the self test (value 0 directly behind label 55) holds only for an untagged value, so it is not part of the statement.
- SvBlacklist.ConvertToGnssSvIdConfig: demands ids whose shift C++ defines, see `UndefinedShiftIff`; the messages around the conversion are not modelled.
- TripBatching.OdometerIsHonest: smooth runs; `ReportHonestIff` says for each report of every run when it is honest. The odometer itself stays below 2^32.
- TripBatching.BatchingAdapter.DropCompleted: reads a completed trip before it is erased, where the code reads it afterwards through a reference that is no longer valid (`gps/batching/BatchingAdapter.cpp:677-694`).
- TripBatching.BatchingAdapter.StopTrip: without the update of a running trip (a stop and a start) and without `eraseSession` false, as in a suspension; batch-full events and the timeout are not modelled.
- Tracking: distance-based sessions, the power mode and quality sent to the modem (they only decide whether it is asked), TBM fallback, DGNSS and the engine hub.
- TrackingMultiplex.GnssAdapter.Multiplex: also follows quality where updates and stops do not; it decides nothing there.
- Subscriptions: logging, turnOn/turnOff counts, backhaul requests, `createNewDataItem` returning null, and the undefined iterator use in `removeAndReturnInterset` after an erase, which is taken as the intersection its comment describes.
- NetworkTable.SystemStatus.SetItemInReport: without the early return for an ignored item; network items are never ignored.
- Network table: `resetNetworkInfo`.
- Clock estimator: overflow of 64-bit nanoseconds, and the estimate from GPS time and QTimer ticks.
- Adapters: the order in which the message thread handles the open and close messages.
- Geofence.GeofenceAdapter.StopClientSessions: only with `eraseSession` true; `StopEndsIff` says what happens otherwise.
- Geofences: the modem may answer an addition asked for by a restart any number of times, because one key may be asked for twice.
- Geofences: everything in an object but its key (so pause, resume and modify), failed additions, the pause that follows a re-addition, and the collection of responses.
- GPS lock: the other fields of a configuration, the XTRA observer's copy of the lock, and the queue of messages put off until the engine is up; such a message is a later event.
- ODCPI: which handler of which priority a non-emergency request goes to, injection, and the in-emergency-call event.
- Not modelled at all: NI sessions, NMEA, antenna files, location conversion, logging, sysfs writes and the blob script.
