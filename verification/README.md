# Sensor firmware model

A Dafny model of the sampling and publishing core of a Bluetooth environmental sensor: the CCS811
air-quality driver and its 20-minute conditioning, the sensor manager and its snapshot, the
Environmental Sensing Service (ESS) with its cache, wire encoding and notifications, the battery
charging path, the two connection counters, the periodic work items, and the text and byte codecs
of the debug shell, its parser, the device name and the pin list. `dafny verify dfyconfig.toml`
checks all of it.

## How it is built

Whatever the firmware updates in place is a class whose methods follow the code statement by
statement (`Ccs811Driver`, `SensorManager`, `EssServer`, `ChargingPath`, `Advertiser`, `Console`,
`Naming`). Each method is proved to move the object's abstract value by a transition function, and
everything the design promises is proved about those functions: over every run of a state machine
that may interleave the steps in any order, or over every input.

Foreign results are inputs: sensor answers, mode changes, lock timeouts, GPIO levels, ADC readings,
BAS writes, notification switches, hardware IDs and the clock. Nothing is assumed about them beyond
their C types, except that an ADC error is negative, that a reply handed to the shell has the
length it reports, and that a hardware ID has one to eight bytes.

| files | what they model |
|---|---|
| `Ccs811.dfy`, `Sensors.dfy` | the driver and the manager: transitions and classes |
| `Sampling.dfy` | both as one interleaved machine: boot, delayed work, connects, disconnects, the unlocked readiness check, reads that release the mutex for 1500 ms midway |
| `Floats.dfy`, `EssEncode.dfy` | encoders over real multiplication followed by any rounding allowed by section 4.3 of IEEE 754-2019; formats and "value not known" codes of section 3 of the GATT Specification Supplement |
| `EssService.dfy`, `EssServer.dfy` | the ESS cache: specification, and the service in place, composed with the manager it reads from and is called back by |
| `Publishing.dfy` | sampling and ESS together: copies taken at one instant, readiness asked later, publication later still |
| `Battery.dfy`, `Charger.dfy` | the mutual recursion of the two battery services, and debounce, polling and connections over time |
| `Links.dfy`, `PeriodicWork.dfy` | connection counters and work items |
| `Text.dfy`, `ShellParse.dfy`, `Shell.dfy` | printing, the parser's patterns, and the round trips |
| `CStrings.dfy`, `DeviceNaming.dfy`, `PinList.dfy` | bounded C strings and what is built with them |

## Promises that hold only under a condition

Each has a lemma with a run or an input that breaks it, and a lemma with the exact condition under
which it holds.

- Mode follows clients: unless a readiness check beats the work handler (`EarlyCheckLeavesTenSecondMode`, `ModeFollowsClients`).
- Ready is "20 minutes since the start": unless no start was recorded (`RefusedBootIsNeverReady`, `ReadinessIsTheClock`).
- 1500 ms before the first sample: unless a reconnect falls into the wait (`ReconnectShortensWait`, `FirstSampleWaits`).
- The cache stays in range: unless readiness flips inside one update (`FlipStoresUncheckedTvoc`, `UpdateKeepsOkIff`); together with the real sampling machine it cannot (`PublishedCacheIsInRange`).
- Reads agree with pushes, and subscribers hold what is cached: unless an earlier characteristic is out of range (`SkippedReadLosesSubscriber`, `ReadAgreesWithPush`, `SubscriberFollowsIff`).
- A getter says -ENODATA for an unknown value only: unless the temperature is -0.61 degrees (`ColdReadingLooksMissing`, `GetterTellsKnown`).
- A charge change is published: only if the level moved too (`PluggingInIsLost`, `ChargeChangePublishedIffLevelMoved`).
- Both device names agree: only for palindromic bytes (`FallbackAgreesIffPalindrome`).

Where code and documentation disagree the model follows the code: `docs/low_power.md:30` counts
conditioning from the first GATT connect, the code from initialization
(`app/src/sensor_ccs811_driver.c:75-90`); `app/include/ess_service.h:42` and `:75` give pressure in
0.1 hPa and in Pa, the code uses 0.1 Pa (`app/src/ess_encode.c:16`);
`app/include/sensor_ccs811_driver.h:122` promises a 60-second mode the code never sets.

## Model

| member | source | states |
|---|---|---|
| `Sampling.FlagsMatchSensor` | app/src/sensor_ccs811_driver.c:63-128 | In every run, whatever fails and however the steps interleave, the idle flag is up exactly when the last mode change the sensor accepted was IDLE, and the wait flag is only up for a connected client of a conditioned sensor whose last accepted mode is 1 s |
| `Sampling.CompletionIsFinal` | app/src/sensor_ccs811_driver.c:283-303 | Once conditioning is recorded complete, no later step of any run takes it back |
| `Sampling.ReadinessIsTheClock` | app/src/sensor_ccs811_driver.c:75-108 | After initialization, readiness is `uptime - start >= 1,200,000 ms` exactly unless neither a start nor the completion is recorded and the time is over; no time remains exactly when ready, unless neither is recorded |
| `Sampling.RefusedBootIsNeverReady` | app/src/sensor_ccs811_driver.c:214-220 | The exception happens: 500 ms after power-on the second lock of initialization is refused, which is only logged; then no run, however long, is ever ready, and the remaining time shows 0 all along |
| `Sampling.UnstartedIsNeverReady` | app/src/sensor_ccs811_driver.c:283-315 | The same from every state with no start, no completion, no scheduled work and no sleeping read |
| `Sampling.ValidAirMeansConditioned` | app/src/sensor_manager.c:138-191 | In every run the manager's air-quality flag means conditioning is complete and both values are in the sensor's range |
| `Sampling.FallbackIsRecent` | app/src/sensor_ccs811_driver.c:621-667 | In every run, after a first sample the cached values are in range, and whatever the fallback writes is the cached value and was measured at most five minutes ago |
| `Sampling.FirstSampleWaits` | app/src/sensor_ccs811_driver.c:475-489 | In the first 1500 ms of 1 s mode some step can depend on the sensor's answer exactly when the wait flag is down or a sleeping reader of an earlier mode entry is due; and the flag is down exactly when a disconnect or such a reader took it down since the entry |
| `Sampling.EarlySampleWasCutShort` | app/src/sensor_ccs811_driver.c:475-489 | A step inside those 1500 ms that depends on the sensor's answer always finds the wait cut short |
| `Sampling.AsksSensorIff` | app/src/sensor_ccs811_driver.c:419-489 | A step depends on the sensor's answer exactly at a fetch, and is then that fetch; any other step is the same for every answer |
| `Sampling.WaitingReadSleeps` | app/src/sensor_ccs811_driver.c:475-489 | A read that meets the wait flag sleeps 1500 ms whatever the sensor would have answered |
| `Sampling.GoodAnswerIsStored` | app/src/sensor_ccs811_driver.c:549-603 | A good in-range answer is cached, timestamped and put into the snapshot at once, whoever asked |
| `Sampling.FailureIsDelivered` | app/src/sensor_manager.c:153-191 | A failed update clears the air-quality flag and keeps the values; a failed GATT read keeps the snapshot and goes on to the fallback exactly for EAGAIN and ETIME |
| `Sampling.ReconnectShortensWait` | app/src/sensor_ccs811_driver.c:475-489 | The exception happens: a run in which a disconnect and reconnect during a read's sleep lead to a sample 100 ms after the mode was entered |
| `Sampling.ModeFollowsClients` | app/src/sensor_ccs811_driver.c:92-128 | When locks and mode changes succeed, between callbacks of a conditioned sensor: 1 s mode means a client, IDLE means none, and the mode is the one the clients call for exactly unless a readiness check recorded the completion and no mode change followed |
| `Sampling.HandlerFirstModeFollowsClients` | app/src/sensor_ccs811_driver.c:225-281 | If the work handler is moreover always first to record completion, the mode is 1 s iff there is a client and IDLE iff there is none |
| `Sampling.EarlyCheckLeavesTenSecondMode` | app/src/sensor_ccs811_driver.c:295-298 | The condition is needed: a run without failures in which an early readiness check leaves an unconnected, conditioned sensor in 10 s mode with no work left to change it |
| `Sampling.RefusedIdleKeepsOneSecondMode` | app/src/sensor_ccs811_driver.c:270-281 | Success is needed: a refused IDLE change leaves 1 s mode on with no client |
| `Sampling.BeginIsTheDrivers` | app/src/sensor_ccs811_driver.c:419-489 | The machine's first read step leaves the driver as the driver's read does, sleeps when it does, and otherwise delivers its result |
| `Sampling.ResumeIsTheDrivers` | app/src/sensor_ccs811_driver.c:475-619 | Likewise the second read step |
| `Sampling.StepKeepsInv` | app/src/sensor_ccs811_driver.c:92-303 | Every enabled step keeps the whole invariant: flags, boot order, clocks, caches, wake-up wait |
| `Sampling.StepKeepsFollow` | app/src/sensor_manager.c:449-498 | Every successful step keeps what ties mode, BLE flag and connection counter together, inside the callbacks too |
| `Ccs811.RemainingZeroIffReady` | app/src/sensor_ccs811_driver.c:283-315 | The remaining time is never negative, and it is 0 exactly when the sensor is ready, if and only if conditioning has a start time or is recorded complete |
| `Ccs811.SampleCachesWhatItWrites` | app/src/sensor_ccs811_driver.c:497-619 | A fetch succeeds exactly on a good status and in-range values of what was asked for, caches exactly what it writes even when it then fails on TVOC, and takes a timestamp only when it succeeds |
| `Ccs811.BeginAsksIff` | app/src/sensor_ccs811_driver.c:419-489 | An admitted read depends on the sensor exactly when the wait flag is down and sleeps exactly when it is up; a read that is not admitted does neither |
| `Ccs811.BeginRefusals` | app/src/sensor_ccs811_driver.c:419-472 | The answer of a read that is not admitted, first reason first, and that it changes at most the completion flag |
| `Ccs811.ResumeMeans` | app/src/sensor_ccs811_driver.c:475-489 | After the sleep the flag comes down either way, and the sensor is asked exactly with the lock |
| `Ccs811.SampleErrors` | app/src/sensor_ccs811_driver.c:515-597 | Each failing check and its error code, in order |
| `Ccs811.ServeBleMeans` | app/src/sensor_ccs811_driver.c:621-667 | Exactly when the fallback succeeds and exactly what it writes; otherwise it changes nothing |
| `Ccs811.ResetMeans` | app/src/sensor_ccs811_driver.c:153-198 | What the first initialization forgets, and that a repeated one changes nothing |
| `Ccs811.StartBootMeans` | app/src/sensor_ccs811_driver.c:75-90 | Start, 20 minutes, 10 s mode if accepted, nothing without the lock |
| `Ccs811.FinishConditioningMeans` | app/src/sensor_ccs811_driver.c:92-128 | Completion whatever the sensor answers, the mode the BLE flag calls for if accepted |
| `Ccs811.ConnectedMeans` | app/src/sensor_ccs811_driver.c:225-249 | The BLE flag goes up even when 1 s mode is refused; the mode flags follow an accepted change only |
| `Ccs811.DisconnectedMeans` | app/src/sensor_ccs811_driver.c:251-281 | Both the BLE and the wait flag come down even when IDLE is refused |
| `Ccs811.SingleValueReadStalesFallback` | app/src/sensor_ccs811_driver.c:560-603 | Why the age bound is stated for two-value reads: a CO2-only read refreshes the timestamp under which a ten-minute-old TVOC is handed out |
| `Ccs811.Ccs811Driver.Enter1SecMode` | app/src/sensor_ccs811_driver.c:63-73 | The flags change only when the sensor accepted the mode; the mutex stays held |
| `Ccs811.Ccs811Driver.InitReset` | app/src/sensor_ccs811_driver.c:153-198 | Checks, the repeated-initialization early return and the reset of every field; the mutex is free again on every path |
| `Ccs811.Ccs811Driver.InitBoot` | app/src/sensor_ccs811_driver.c:75-90 | Start time, 10 s mode and the scheduled work, or nothing when the lock is not had |
| `Ccs811.Ccs811Driver.ConditioningWork` | app/src/sensor_ccs811_driver.c:92-128 | The work consumes its schedule, records completion once, and picks the mode the BLE flag calls for; the mutex is free again on every path |
| `Ccs811.Ccs811Driver.OnConnected` | app/src/sensor_ccs811_driver.c:225-249 | Sets the BLE flag and enters 1 s mode only if conditioned; nothing without a device or the lock; mutex free again |
| `Ccs811.Ccs811Driver.OnDisconnected` | app/src/sensor_ccs811_driver.c:251-281 | Clears BLE and wait flags and goes IDLE only if conditioned; mutex free again |
| `Ccs811.Ccs811Driver.IsReady` | app/src/sensor_ccs811_driver.c:283-303 | The answer and the unlocked write of the completion flag, with or without the mutex, which it leaves alone |
| `Ccs811.Ccs811Driver.ConditioningTimeRemaining` | app/src/sensor_ccs811_driver.c:305-315 | The remaining time, never negative |
| `Ccs811.Ccs811Driver.FetchSample` | app/src/sensor_ccs811_driver.c:491-619 | Every error exit, what is cached and what is written through each pointer on the way to it |
| `Ccs811.Ccs811Driver.ReadUntilSleep` | app/src/sensor_ccs811_driver.c:419-489 | The read up to its sleep: every refusal in order, the readiness write, or the sleep with the mutex released |
| `Ccs811.Ccs811Driver.ReadAfterSleep` | app/src/sensor_ccs811_driver.c:475-489 | The wait flag is cleared even when the lock is not had again; mutex free at the end |
| `Ccs811.Ccs811Driver.FinishReadForBle` | app/src/sensor_ccs811_driver.c:621-667 | The fallback: only after EAGAIN or ETIME, only up to five minutes old, and never writing a zero |
| `Sensors.UpdatesKeepAirOk` | app/src/sensor_manager.c:153-188 | No update, whatever the drivers answer and whatever a stack slot held, sets the air-quality flag over an out-of-range value |
| `Sensors.SelectiveFlags` | app/src/sensor_manager.c:90-207 | The flags of selected readings say exactly which foreign reads were good, the other flags stay |
| `Sensors.SelectiveValues` | app/src/sensor_manager.c:360-416 | A reading is replaced only by an update that selects it and only when its foreign read is good; of a successful air read each good value is stored even when the other is bad |
| `Sensors.FallbackTvocProvenance` | app/src/sensor_manager.c:532-572 | The TVOC published from the fallback is the cached one exactly when it is not 0 or the unwritten stack slot held 0 |
| `Sensors.BleAirStoresOrKeeps` | app/src/sensor_manager.c:551-571 | A BLE air read stores two good values and the flag, or leaves the whole snapshot alone, a valid one included |
| `Sensors.UpdatePushes` | app/src/sensor_manager.c:393-413 | A registered callback is handed the new snapshot by every update that gets the lock, whatever it selects; a failing update pushes and changes nothing |
| `Sensors.ConnectPushes` | app/src/sensor_manager.c:449-478 | A connect pushes twice: the environment and battery, then the air quality on top of it |
| `Sensors.SensorManager.ReadAirQuality` | app/src/sensor_manager.c:138-191 | Each good value is stored, the flag only when both are |
| `Sensors.SensorManager.UpdateSelective` | app/src/sensor_manager.c:360-416 | The whole snapshot after the reads in order, and the copy the callback is handed after the mutex is released |
| `Sensors.SensorManager.UpdateAirQualityForBle` | app/src/sensor_manager.c:532-572 | Nothing changes unless both values are good |
| `Sensors.SensorManager.GetData` | app/src/sensor_manager.c:294-313 | A copy of the snapshot, or the error; mutex free again |
| `Sensors.SensorManager.Arm` | app/src/sensor_manager.c:431-447 | Arms only an initialized manager with a registered callback |
| `Sensors.SensorManager.OnConnected` | app/src/sensor_manager.c:449-478 | Refuses when not armed; otherwise counts, tells the driver, samples environment before air quality, and schedules both items |
| `Sensors.SensorManager.OnDisconnected` | app/src/sensor_manager.c:480-498 | Only the last client leaving cancels the items and tells the driver; a spurious disconnect changes nothing |
| `Publishing.PublishedCacheIsInRange` | app/src/ess_service.c:723-843 | In every interleaving of sampling, readiness answers, publications and reads, a known value is in its characteristic's range; no steadiness of readiness is assumed, and an update asks only the questions its copy and its answers call for |
| `Publishing.ValidAirIsPublishedAsMeasured` | app/src/ess_service.c:779-810 | Publishing a valid air-quality copy never takes the conditioning branch: it succeeds iff the climate readings are in range and eCO2 is at most 5000, and then stores both gases as measured |
| `Publishing.GasPairAgreesIff` | app/src/ess_service.c:779-810 | After a successful publication CO2 and TVOC are both real, both 0xFFFF or both unknown, exactly when the air quality was valid or the CO2 block's and the TVOC block's questions had the same answer |
| `Publishing.UnaskedIsIrrelevant` | app/src/ess_service.c:779-810 | An update depends only on the readiness questions it really asks |
| `Publishing.AnswersAre` | app/src/ess_service.c:779-810 | Which answer settles which gas block, as the order of the questions has it |
| `Publishing.AskRecordsReadiness` | app/src/ess_service.c:779-810 | A question gets the answer of its instant, for its own update |
| `Publishing.PublishApplies` | app/src/ess_service.c:696-701 | A publication is one update of the copy with those answers |
| `Publishing.PublicationNotifiesChanges` | app/src/ess_service.c:635-693 | In every run each publication notifies subscribers of exactly the characteristics whose wire bytes changed |
| `EssService.CacheStaysOk` | app/src/ess_service.c:268-493 | Over every mix of updates, reads and subscriptions whose stored TVOC was checked: known temperature is in [-27315, 32767], humidity in [0, 10000], pressure in [260000, 1260000], CO2 in [400, 5000] or 0xFFFF, TVOC in [0, 32767] or 0xFFFF |
| `EssService.UpdateKeepsOkIff` | app/src/ess_service.c:779-810 | An update keeps every in-range cache in range exactly when its TVOC check was made, or is not needed, or is not reached |
| `EssService.FlipStoresUncheckedTvoc` | app/src/ess_service.c:779-810 | The input that breaks it: readiness flipping between the CO2 and the TVOC block stores a TVOC of 40000 |
| `EssService.UpdateFailure` | app/src/ess_service.c:723-843 | An update returns -ERANGE exactly when it meets a valid out-of-range reading; those before it are new, it is unknown, those after it are untouched; bad air makes both gases unknown |
| `EssService.GasesAgree` | app/src/ess_service.c:779-810 | With readiness unchanged during a successful update, both gases are real, both 0xFFFF or both unknown, and which it is says whether the sensor is ready and its data valid |
| `EssService.ReadReturnsFetched` | app/src/ess_service.c:296-493 | A read that succeeds returns the encoding of the snapshot it fetched, or 0xFFFF for a gas during conditioning; a read that fails leaves its characteristic unknown |
| `EssService.UpdateStoresMeasured` | app/src/ess_service.c:723-810 | A successful update caches each valid reading as measured: within one unit, plus rounding, of 100 times the temperature and the humidity and 10000 times the pressure in kPa, and the gases themselves; invalid readings become unknown with their value untouched |
| `EssService.UpdateSucceedsIff` | app/src/ess_service.c:723-843 | It succeeds exactly when every valid reading passes its own gate, the gases' only with a ready sensor |
| `EssService.UpdateStoresGases` | app/src/ess_service.c:779-810 | For any four readiness answers: when a gas is measured, 0xFFFF or unknown |
| `EssService.ReadReturnsMeasured` | app/src/ess_service.c:296-493 | A successful read leaves the measured value in the cache and hands out its bytes, low byte first, two or four of them |
| `EssService.ReadStoresBoth` | app/src/ess_service.c:301-366 | A successful temperature or humidity read stores the other of the two as measured as well |
| `EssService.FailedAirReadAnswersSnapshot` | app/src/ess_service.c:380-448 | A gas read whose fresh sensor read failed answers the valid snapshot it finds |
| `EssService.ReadErrorCode` | app/src/ess_service.c:259-266 | Which of the two ATT errors a failing read answers |
| `EssService.InitialCache` | app/src/ess_service.c:139-252 | Nothing known or subscribed at first, and the "value not known" codes on the wire |
| `EssService.SubscriptionMeans` | app/src/ess_service.c:542-578 | A subscription changes its own switch and nothing else |
| `EssService.ReadAgreesWithPush` | app/src/ess_service.c:301-366 | For every cache the service can hold the direct store of a climate or pressure read repeats what its callback just did, if and only if no earlier characteristic's valid reading is out of range |
| `EssService.DirectStoreAfterUpdate` | app/src/ess_service.c:455-482 | When no earlier reading stopped the callback, the direct store changes nothing |
| `EssService.ChangeIsByteChange` | app/src/ess_service.c:635-693 | For values that fit, the 16- or 32-bit comparison sees a change exactly when the wire bytes change, exactly when the value changes |
| `EssService.NotifiedIffChanged` | app/src/ess_service.c:635-693 | In one update a subscribed characteristic is notified exactly once with the new bytes if they changed and not at all otherwise; an unsubscribed one never |
| `EssService.SubscriberFollowsIff` | app/src/ess_service.c:696-843 | Over every run of updates, reads and subscription changes in which it stays subscribed, a subscriber that starts from the cached bytes holds them before, between and after the events, exactly when no event stores a new value silently |
| `EssService.MirrorSurvivesIff` | app/src/ess_service.c:301-493 | The same for one event: which reads store silently, gas reads included, said by the guards of their stores |
| `EssService.SubscriberMirrorsCache` | app/src/ess_service.c:696-843 | Updates, subscriptions, failed climate and pressure reads, and reads that ran their own callback and are not past an earlier out-of-range reading never do, so over every run of them the subscriber holds the cached bytes |
| `EssService.SkippedReadMirrorsIffSame` | app/src/ess_service.c:301-366 | A read past an earlier out-of-range reading keeps the subscriber's copy exactly when its own reading is bad, missing, or encodes to the cached value |
| `EssService.SkippedReadLosesSubscriber` | app/src/ess_service.c:301-366 | It does lose it: from a reachable cache with humidity 40 %, a humidity read that finds 50 % and a temperature of 400 degrees stores without telling, and its store differs from what the callback left |
| `EssService.GasReadMirrorsIffSame` | app/src/ess_service.c:405-407 | After a CO2 or TVOC read the subscriber still holds the cached bytes exactly when the value stored silently is the value that was cached |
| `EssServer.EssSensor.Update` | app/src/ess_service.c:635-693 | Store, and one notification exactly for a subscribed change |
| `EssServer.EssServer.UpdateReading` | app/src/ess_service.c:737-777 | One climate block of the update, in range, out of range or invalid |
| `EssServer.EssServer.UpdateCo2` | app/src/ess_service.c:779-796 | The CO2 block, which judges both gases |
| `EssServer.EssServer.UpdateTvoc` | app/src/ess_service.c:798-810 | The TVOC block |
| `EssServer.EssServer.Update` | app/src/ess_service.c:723-843 | The update in place on the five records is the specification's, notifications included; nothing before initialization |
| `EssServer.EssServer.ReadTempHumidity` | app/src/ess_service.c:296-378 | A temperature or humidity read composed with the manager and its callback: cache, notifications, result and bytes |
| `EssServer.EssServer.ReadPressure` | app/src/ess_service.c:450-493 | A pressure read composed with the manager and its callback |
| `EssServer.EssServer.ReadGas` | app/src/ess_service.c:380-448 | A CO2 or TVOC read composed with the manager's BLE air-quality update; only the characteristic read changes |
| `EssServer.EssServer.Init` | app/src/ess_service.c:703-721 | Registers the callback unless the manager's lock is not had, and returns 0 either way |
| `EssService.GetterTellsKnown` | app/src/ess_service.c:845-868 | With the cache in range, any getter answer but -ENODATA is a known value in its range; -ENODATA means unknown exactly unless it is a known temperature of -0.61 degrees, whose encoding is -ENODATA |
| `EssService.ColdReadingLooksMissing` | app/src/ess_service.c:845-848 | It happens: a good reading of -0.615 degrees is answered like a missing one |
| `EssEncode.EncodeTemperature` | app/src/ess_encode.c:18-31 | Total: in [-27315, 32767], or the unknown code exactly for NaN and infinities |
| `EssEncode.EncodeHumidity` | app/src/ess_encode.c:33-46 | Total: in [0, 10000], or the unknown code exactly for NaN and infinities |
| `EssEncode.EncodePressure` | app/src/ess_encode.c:48-61 | Total: in [260000, 1260000] for every input, NaN and infinities included |
| `EssEncode.TemperatureMonotone` | app/src/ess_encode.c:18-31 | Monotone on finite inputs under every monotone rounding |
| `EssEncode.HumidityMonotone` | app/src/ess_encode.c:33-46 | Monotone on finite inputs under every monotone rounding |
| `EssEncode.PressureMonotone` | app/src/ess_encode.c:48-61 | Monotone on finite inputs under every monotone rounding |
| `EssEncode.TemperatureAccurate` | app/src/ess_service.c:268-272 | A reading the gate accepts is encoded within one unit of its exact scaled value, plus the rounding of the product and of the gate's own bounds |
| `EssEncode.HumidityAccurate` | app/src/ess_service.c:274-278 | Within one unit plus the rounding of the product |
| `EssEncode.PressureAccurate` | app/src/ess_service.c:280-284 | Within one unit plus the rounding of the product |
| `EssEncode.GatesMean` | app/src/ess_service.c:268-284 | Humidity in [0, 100] and pressure in [26, 126] pass, ends included, and nothing else; temperature in [-273.15, 327.67] up to the rounding of those bounds |
| `EssEncode.GatesRefuseNonFinite` | app/src/ess_service.c:268-284 | NaN and infinities pass no gate |
| `EssEncode.GasGatesMean` | app/src/ess_service.c:286-294 | eCO2 in [400, 5000] and TVOC up to 32767 |
| `EssEncode.TriggerLaws` | app/src/ess_encode.c:73-121 | Value-changed fires exactly on a change; the six reference triggers make the comparison of their name; the others never fire; only value-changed looks at the old value |
| `Battery.VoltageToPercentage` | app/src/battery_service.c:134-149 | A percentage: 0 up to 3000 mV, 100 exactly from 4200 mV, and the floor of the exact proportion between |
| `Battery.PercentageMonotone` | app/src/battery_service.c:134-149 | A higher voltage never shows a lower level |
| `Battery.IsCharging` | app/src/battery_service.c:318-344 | The recursion through callback and update terminates, on the pin reads to come and whether the stable pin still differs from the last state |
| `Battery.IsChargingWithinBudget` | app/src/battery_service.c:318-344 | However deep the recursion, the callback runs at most as often as the pin is still to change |
| `Battery.BasUpdateWithinBudget` | app/src/ble_battery_service.c:170-186 | The same bound for a whole update |
| `Battery.StableIsCharging` | app/src/battery_service.c:318-344 | Polling a stable pin answers the pin and settles both services on it, callback and all |
| `Battery.UpdateFollowsPin` | app/src/ble_battery_service.c:170-186 | An update that returns 0 under a stable pin leaves the charging flag equal to the pin and the level at most 100 |
| `Battery.UpdateManualMeans` | app/src/ble_battery_service.c:188-238 | A manual update stores the level, at most 100, and the flag; on a change it derives state and grade by the thresholds 10, 25 and 75 and publishes all four values exactly when the write returns 0; without one it does nothing |
| `Battery.BasUpdateStoresMeasured` | app/src/ble_battery_service.c:170-186 | An update that returns 0 leaves the percentage of the voltage it read and the answer of its poll |
| `Battery.FailedReadingChangesNothing` | app/src/ble_battery_service.c:178-182 | A failing reading is returned and changes nothing |
| `Battery.GetLevelMeans` | app/src/battery_service.c:186-311 | The percentage of the voltage read, or the error, -ENODATA until a first good reading |
| `Battery.IsChargingAnswersPin` | app/src/battery_service.c:318-344 | Polling answers the pin as it reads it, whatever the recursion does |
| `Battery.ChangeIsTold` | app/src/battery_service.c:318-344 | A changed pin is told to the registered callback, first of all the poll starts |
| `Battery.NoteChargingMeans` | app/src/ble_battery_service.c:61-88 | What the callback makes of the internal state, at the old level |
| `Battery.ChargeChangePublishedIffLevelMoved` | app/src/ble_battery_service.c:78-88 | For every ADC answer and every BAS write, a charge change reaches the published characteristics exactly when the measured level also moved and was written, or they said it already: the state is changed before the duplicate test |
| `Battery.PluggingInGoesUnpublished` | app/src/ble_battery_service.c:202-208 | Plugging in while the level stays or cannot be measured leaves the published wire state wrong |
| `Battery.StaysUnpublished` | app/src/ble_battery_service.c:202-208 | Every later update that does not see the level move changes nothing |
| `Charger.PluggingInIsLost` | app/src/ble_battery_service.c:78-88 | It happens: initialization, a client, then the charger at 3600 mV; the device charges and the BAS says the wire is not connected |
| `Charger.LostForGood` | app/src/ble_battery_service.c:188-238 | And it stays so over every run of polls, queries, edges and reconnects at that level |
| `Charger.ChargeFlagsAgree` | app/src/ble_battery_service.c:61-75 | In every run the charge state is CHARGING iff the charging flag is up, wired power is connected iff it is up, and the level is at most 100 |
| `Charger.CallbackAlternates` | app/src/battery_service.c:152-184 | Over every interleaving of debounce work and polling, the callback's values strictly alternate and the last is the last recorded state |
| `Charger.DebounceWaits` | app/src/battery_service.c:173-184 | The debounce work runs only after 300 ms without an edge, edges during initialization included |
| `Charger.DebounceIsQuery` | app/src/battery_service.c:152-170 | On initialized hardware the debounce work does exactly what a poll does |
| `Charger.EdgeIsTold` | app/src/battery_service.c:152-184 | A run: an edge, 300 ms, and the callback is told of the charger |
| `Charger.EdgePostpones` | app/src/battery_service.c:173-184 | Every edge puts the work 300 ms off |
| `Charger.StartHardwareMeans` | app/src/battery_service.c:266-297 | Initialization takes the pin as it is without telling anyone, and a first reading |
| `Charger.PollMeasures` | app/src/ble_battery_service.c:90-106 | A poll with a client leaves the measured level and the pin's state |
| `Charger.PollWithoutClient` | app/src/ble_battery_service.c:90-106 | Without a client, or before initialization, neither a poll nor the callback does anything |
| `Charger.ConnectMeasures` | app/src/ble_battery_service.c:132-151 | A connect counts and reads the battery |
| `Battery.BasUpdateKeeps` | app/src/ble_battery_service.c:170-186 | No depth of recursion touches the connection counter or either start-up flag |
| `Charger.ChargingPath.BatteryGetLevel` | app/src/battery_service.c:186-311 | A level, or the error: ENODATA before a first reading |
| `Charger.ChargingPath.BatteryIsCharging` | app/src/battery_service.c:318-344 | The recursive method does what the specification says, and terminates |
| `Charger.ChargingPath.ChargingStatusChanged` | app/src/ble_battery_service.c:78-88 | State first, then an update, only for a client |
| `Charger.ChargingPath.Update` | app/src/ble_battery_service.c:170-186 | Level, then charging state, then the manual update; a negative level is returned |
| `Charger.ChargingPath.UpdateManually` | app/src/ble_battery_service.c:188-238 | Clamp, duplicate test, derived state, publication only when the level write succeeds |
| `Charger.ChargingPath.OnConnected` | app/src/ble_battery_service.c:132-151 | Counts and updates, or refuses before initialization |
| `Charger.ChargingPath.BatteryPollWork` | app/src/ble_battery_service.c:90-106 | No update without a client |
| `Links.CountersAreReflected` | app/src/sensor_manager.c:449-498 | Each counter is the walk of its accepted connects and disconnects reflected at zero: its sum less its lowest prefix sum |
| `Links.GapNeverWidens` | app/src/ble_battery_service.c:132-168 | Once both services accept connects the counters never drift further apart; so a zero gap stays zero |
| `Links.EqualOnceBothEmpty` | app/src/ble_battery_service.c:132-168 | From the moment both are empty they are equal for good |
| `Links.CountersAreLiveLinks` | app/src/ble_advertiser.c:90-144 | If both accept connects from the start and disconnects only end live links, both counters are the number of live links |
| `Links.Advertiser.Connected` | app/src/ble_advertiser.c:120-144 | A failed setup reaches neither counter, a good one both, whatever either service answers; advertising is marked stopped only when the stop succeeded |
| `Links.Advertiser.Disconnected` | app/src/ble_advertiser.c:90-103 | Both counters see every disconnect |
| `PeriodicWork.SamplingFollowsClients` | app/src/sensor_manager.c:56-88 | In every run, outside the connect callback, a client means both sampling items are pending or running, and a pending item means a client |
| `PeriodicWork.PollStopsWithClients` | app/src/ble_battery_service.c:90-106 | The battery poll reads hardware only for a client; after the last one leaves it fires at most once more, then is neither pending nor running |
| `PeriodicWork.LeavingDuringPollLeavesItPending` | app/src/ble_battery_service.c:153-168 | That stale firing exists: a client leaving while the poll reads leaves it rescheduled |
| `PeriodicWork.SamplingHandlerLooksLast` | app/src/sensor_manager.c:56-88 | A run: the sampling handlers come back with a client and do not when the last one left meanwhile |
| `PeriodicWork.PollReadsForClient` | app/src/ble_battery_service.c:90-106 | A poll that fires for a client reads the hardware once and comes back |
| `Shell.PollRoundTrip` | app/src/app_shell.c:275-303 | For every in-range cache: masking, little-endian bytes, hex print, parse and little-endian decoding give back names, lengths and values in poll order, decoded and battery lines ignored |
| `Shell.PollParses` | app/tests/hardware_shell/shell_parse.py:109-114 | Parsing a poll's output gives exactly the reads up to the first failing one, whatever lengths they had |
| `Shell.PollLinesParse` | app/src/app_shell.c:127-143 | The same, line by line, from any step of the poll |
| `Shell.DecodeWire` | app/src/ess_service.c:373-377 | Decoding the wire bytes of a value that fits gives it back: sint16 for temperature, unsigned otherwise |
| `Shell.DecodedValueIs` | app/src/app_shell.c:75-125 | Decoding byte by byte: low byte first, temperature signed, pressure four bytes |
| `Shell.DecodedLineShowsCached` | app/src/app_shell.c:75-125 | The decoded line shows the cached value, or that a gas is not known |
| `Shell.CarriedName` | app/src/app_shell.c:53-64 | The names found are temp, humidity, pressure, co2, tvoc, in poll order |
| `Shell.PollStepIs` | app/src/app_shell.c:275-303 | The order of a round, battery before the gases, each step going on when its read succeeds |
| `Shell.PollEndsAtError` | app/src/app_shell.c:275-303 | A failing read ends the round with its error line |
| `Shell.ReadLinesAre` | app/src/app_shell.c:127-143 | The wire and error lines, word by word |
| `Shell.Ccs811TextIs` | app/src/app_shell.c:367-387 | The CCS811 status, word by word |
| `Shell.EssLineIs` | app/src/app_shell.c:389-411 | The ESS status line, word by word |
| `Shell.SmTextIs` | app/src/app_shell.c:342-365 | The manager status, word by word |
| `Shell.BatteryLineIs` | app/src/app_shell.c:166-172 | The battery line, word by word |
| `Shell.Ccs811StatusRoundTrip` | app/tests/hardware_shell/shell_parse.py:94-106 | Every printed CCS811 status parses back to the same record, whatever text follows |
| `Shell.DebugStateFaithful` | app/src/sensor_ccs811_driver.c:699-723 | The printed status of any driver parses back to what its two clock questions answered, with no time remaining whenever ready |
| `Shell.SmStatusRoundTrip` | app/tests/hardware_shell/shell_parse.py:73-77 | Every printed manager status parses back |
| `Shell.EssStatusRoundTrip` | app/tests/hardware_shell/shell_parse.py:117-126 | Parsing the printed ESS status gives back the whole cache, keyed by name |
| `Shell.Console.PrintHex` | app/src/app_shell.c:66-73 | The loop prints two digits a byte with single spaces between |
| `Shell.Console.ReadEssChar` | app/src/app_shell.c:127-143 | A wire line and a decoded line, or one error line and the error |
| `Shell.Console.PollOnce` | app/src/app_shell.c:275-303 | The whole text of a round, cut short by its first failing read, whose error it returns |
| `ShellParse.ParseWireReads` | app/tests/hardware_shell/shell_parse.py:109-114 | The loop's list is the reads of the matching lines in order, or the ValueError of a hex text that does not convert |
| `ShellParse.ParseEssStatus` | app/tests/hardware_shell/shell_parse.py:117-126 | The loop's dictionary, later lines replacing earlier ones |
| `ShellParse.MatchWireIff` | app/tests/hardware_shell/shell_parse.py:11-14 | The wire pattern matches a line exactly when it is a name, " wire [", digits, "]: " and a nonempty text of hex digits and spaces, and captures what stands there |
| `ShellParse.MatchEssIff` | app/tests/hardware_shell/shell_parse.py:23-26 | The ESS pattern matches exactly a name and the three fields, to the end of the line |
| `ShellParse.SearchSmIsLeftmost` | app/tests/hardware_shell/shell_parse.py:73-77 | A search finds the leftmost match, and nothing only when there is none |
| `Text.HexRoundTrip` | app/src/app_shell.c:66-73 | Printed bytes convert back, for every byte string |
| `Text.HexAt` | app/src/app_shell.c:66-73 | Every byte prints as two lower-case digits, high half first, with a space before all but the first |
| `Text.DecAt` | app/src/app_shell.c:342-365 | Every printed decimal digit |
| `Text.DecRoundTrip` | app/src/app_shell.c:342-365 | A printed number reads back as itself |
| `Common.LeRoundTrip` | app/src/ess_service.c:488-492 | Little-endian bytes of every value that fits read back as the value |
| `Common.LowByteFirst` | app/src/ess_service.c:373-377 | Two and four bytes, low byte first |
| `DeviceNaming.NamesEqualIffLastBytesEqual` | app/src/device_naming.c:65-71 | Two IDs have the same name exactly when they agree in their last four bytes, zeros standing for missing ones; for one length, exactly when they agree in the last min(4, length) bytes |
| `DeviceNaming.FallbackIsReversed` | app/src/ble_advertiser.c:164-172 | The advertiser's fallback names the device after the byte-reversal of the bytes used |
| `DeviceNaming.FallbackAgreesIffPalindrome` | app/src/ble_advertiser.c:164-172 | So both names agree exactly when those bytes read the same in both directions |
| `DeviceNaming.PackId` | app/src/device_naming.c:65-68 | The shift-or loop's word has, for IDs of every length, the last min(4, length) bytes in memory order after zeros |
| `DeviceNaming.WordPrints` | app/src/device_naming.c:70-71 | The 8-digit print of a word is its bytes in that order |
| `DeviceNaming.HexBytesAre` | app/src/device_naming.c:70-71 | Each byte prints as two digits, high half first, byte after byte |
| `DeviceNaming.HexCharsAre` | app/src/device_naming.c:70-71 | The sixteen upper-case digits |
| `DeviceNaming.NamesAre` | app/src/device_naming.c:65-71 | For example T52-DEADBEEF, zero-padded T52-0000005A, and the fallback T52-EFBEADDE |
| `DeviceNaming.PackIdFallback` | app/src/ble_advertiser.c:167-170 | The fallback loop's word has the same bytes in the opposite order after zeros |
| `DeviceNaming.Naming.GetName` | app/src/device_naming.c:40-80 | The first call that gets an ID fixes the name; every later call with room for 16 returns it untruncated whatever the hardware answers; a short buffer is refused untouched |
| `DeviceNaming.Naming.GenerateUniqueDeviceName` | app/src/ble_advertiser.c:153-181 | The cached name if there is one to be had, else the fallback packing or zeros, cut to the buffer |
| `PinList.BuildPinListString` | app/src/board.c:140-161 | For every mask and buffer of at least 1: NUL-terminated, and exactly the first size-1 characters of the descending comma-separated list, or of "none" |
| `PinList.ListRoundTrip` | app/src/board.c:145-155 | Parsing the untruncated list gives exactly the set pins |
| `PinList.ListTextIs` | app/src/board.c:140-161 | "none" without a pin, else the highest pin and a comma before each other |
| `PinList.SetMeans` | app/src/board.c:145-146 | Pin 0 is the least significant of sixteen mask bits |
| `PinList.PinsFromExact` | app/src/board.c:145-155 | The list holds exactly the set pins, each once, in descending order |

## Left out

- HTS221 and LPS22HB drivers: their reads are arbitrary results.
- Bluetooth host, GATT tables, ESS measurement and valid-range descriptors, settings and baseline storage, ADC calibration, GPIO setup, the manual CCS811 reset: foreign calls or constant tables.
- The uptime service, `main.c`, the advertiser's start and stop, the GPIO dump, the connect, disconnect and CCC shell commands: they would only add easy members.
- The temperature and humidity written to the CCS811 for compensation; only the order of the updates is kept (`OnConnected` samples the environment first).
- Torn copies: `sensor_manager_update_air_quality_for_ble` writes the snapshot without the manager's mutex; manager updates and ESS updates on the cache are atomic here, so races between single field writes are not modelled.
- Counter wrap-around: connection counters are natural numbers, that is, fewer than 2^32 links.
- One clock reading per critical section; the 1500 ms sleep ends no earlier than asked.
- Sampling.StepKeepsInv: connect and disconnect callbacks run one at a time, and the driver is initialized before the manager accepts connections, as `main.c` orders it; a repeated initialization, which only takes its early return, is in `Ccs811Driver.InitReset` alone.
- Sampling.FallbackIsRecent: for reads that ask for both values, as the manager's do; see `SingleValueReadStalesFallback`.
- EssService.SubscriberFollowsIff: notifications that succeed; a notification the stack refuses is not told apart from one that is sent.
- EssServer.EssServer.ReadTempHumidity: reads at offset 0 into a buffer with room for the value, and run without other work between the callback and the fetch of the snapshot.
- EssServer.EssServer.ReadGas: likewise at offset 0; the generic 16-bit read it ends in only copies the value for these two characteristics.
- Charger.StepKeepsInv: an edge that arrives before the debounce work item is initialized schedules an item that initialization then resets; here the schedule is forgotten.
- Charger.CallbackAlternates: the check and the store of the last state are one step, so the race between the debounce work and a poll on that byte is not modelled.
- Charger.ChargingPath.BatteryGetLevel: the value of a battery reading and its error; the pin read `battery_sample` makes for its log line is left out.
- Charger.ChargingPath.UpdateManually: the optional BAS features are on, and only the level write can fail the update.
- PeriodicWork.SamplingFollowsClients: a handler's final test of the counter and its reschedule are one step, as on cooperative threads.
- Shell.PollRoundTrip: the floating-point part of a decoded line is any text without a newline; `%.2f` itself is not modelled.
- ShellParse.ParseWireReads: ASCII digits and blanks only; Python's patterns also accept other Unicode digits, which the shell never prints.
- DeviceNaming.Naming.GetName: `strncpy`'s zero padding after the string is not stated.
- Logging, scripts, the Bleak client, emulators and test doubles.
