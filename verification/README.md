# Scale session model

A Dafny model of the session core of a React Native app that talks to a Bluetooth LE
weight scale. The app scans for the scale assigned to a weight slot (1, 2 or 3),
connects, writes a `USER:<id>;MAT:<material>` payload, sends `START`, and then turns
the stream of weight notifications into a "stable" flag. It does this with a
ten-reading FIFO window and a zero-tolerance test on the last five readings.

The model is functional. The hook's state is an immutable `Session` record. Every request and
every library callback is a pure transition function, and each asynchronous library call
is replaced by its outcome, given as a parameter. The modules follow the source files:

- `options.dfy` (`Options`): nullable values, `??`, and JavaScript truthiness of strings and numbers.
- `ble_config.dfy` (`BleConfig`): the service and characteristic UUIDs and the slot-to-target registry.
- `stability.dfy` (`Stability`): `slice(-k)`, `Math.min`/`Math.max`, the stability verdict and the window update.
- `protocol.dfy` (`Protocol`): the advertisement match test, the user-info payload and a decoder that reads
  it back, and the two command strings.
- `scale_session.dfy` (`ScaleSession`): the hook's flags and transitions, an event-level `Next`
  function, and the invariant it keeps.
- `app.dfy` (`App`): the screen's form guards, `trim`, the START guard, the button predicates and the
  status-text priority.

Behaviours of the code that the model keeps:

- **No latch.** The stable flag is recomputed on every reading, so it can fall back to false
  (`StableFlagCanFall`).
- **Dead scan timeout.** The eight-second timer tests the `scanning` value captured when the
  scan began, and that value is always false. The timer therefore never stops a scan
  (`ScanTimeoutNeverFires`). A scan that finds nothing keeps running until `stopScan`, a scan
  error, or the unmount cleanup stops it.
- **No at-most-once delivery.** The `found` variable is written but never read by the scan
  callback, so every matching advertisement that is delivered begins a connection
  (`MatchesAreNotDeduplicated`).
- **A repeated scan request still records its slot.** A request made while a scan is running
  starts nothing and leaves `scanning` as it is, but `selectedWeight` is updated first.
- **Materials.** The materials are `ALU`, `STAAL` and `PLAST`, as the screen defines them.
- **Unknown slots.** An unknown slot is not an error value. `WEIGHT_TARGETS[n]` is `undefined`,
  and the `!target` branch ends the request after the slot has been recorded.

## Model

| member | source | states |
|---|---|---|
| BleConfig.TargetFor | React-code/MyBleApp/bleConfig.ts:13-18 | a slot has a target exactly when it is 1, 2 or 3, and slot n's target is `ESP32_Weigh_` followed by the digit n |
| BleConfig.EveryWeightNumberHasTarget | React-code/MyBleApp/bleConfig.ts:11-18 | every `WeightNumber` has a non-empty target, so the `!target` rejection is unreachable for a well-typed slot |
| BleConfig.TargetsAreDistinct | React-code/MyBleApp/bleConfig.ts:15-17 | distinct slots have distinct target names |
| BleConfig.UuidsDistinct | React-code/MyBleApp/bleConfig.ts:4-8 | the service UUID and the three characteristic UUIDs are pairwise distinct |
| Stability.LastN | React-code/MyBleApp/useScaleBle.ts:47 | `slice(-k)` keeps the last k elements in order, or all of them when there are fewer |
| Stability.Min | React-code/MyBleApp/useScaleBle.ts:48 | the minimum is an element of the readings and no reading is below it |
| Stability.Max | React-code/MyBleApp/useScaleBle.ts:49 | the maximum is an element of the readings and no reading is above it |
| Stability.SpreadTest | React-code/MyBleApp/useScaleBle.ts:47-51 | `max - min <= threshold` holds exactly when every pair differs by at most the threshold, and with threshold 0 exactly when all are equal |
| Stability.Recent | React-code/MyBleApp/useScaleBle.ts:47 | with at least five readings, the recent readings are exactly the last five |
| Stability.CheckWeightStability | React-code/MyBleApp/useScaleBle.ts:42-52 | fewer than five readings are never stable; otherwise the verdict holds exactly when the last five readings are all equal |
| Stability.PushReading | React-code/MyBleApp/useScaleBle.ts:222-226 | the new window has min(10, n+1) readings, the newest last, preceded by the latest older readings in their original order |
| Stability.PushReadingIsLastN | React-code/MyBleApp/useScaleBle.ts:222-226 | one notification's push-and-trim equals cutting the old window plus the reading back to its last ten |
| Stability.LastNAbsorbs | React-code/MyBleApp/useScaleBle.ts:225 | cutting to the last k, appending more and cutting again equals cutting once at the end |
| Stability.PushAllIsSuffix | React-code/MyBleApp/useScaleBle.ts:222-226 | after any run of readings, the window is the last ten of the old window followed by the new readings |
| Stability.FullWindowEvictsOldest | React-code/MyBleApp/useScaleBle.ts:222-226 | a reading pushed onto a full window evicts exactly the oldest reading |
| Stability.VerdictIgnoresOlderReadings | React-code/MyBleApp/useScaleBle.ts:47 | prepending any readings to a window of at least five leaves the verdict unchanged |
| Stability.SameRecentSameVerdict | React-code/MyBleApp/useScaleBle.ts:47-51 | two windows that end in the same five readings get the same verdict |
| Stability.TrimKeepsVerdict | React-code/MyBleApp/useScaleBle.ts:222-229 | cutting the window back to ten never changes the verdict the untrimmed array would give |
| Stability.ZeroToleranceExamples | React-code/MyBleApp/useScaleBle.ts:29-51 | [10,10,10,10,10] is stable and [10,10,10,10,11] is not |
| Protocol.MatchesTarget | React-code/MyBleApp/useScaleBle.ts:108-112 | a device matches exactly when its id equals the target, or its name does, or it has no name and its local name does, or it has neither name and the target is empty |
| Protocol.NameShadowsLocalName | React-code/MyBleApp/useScaleBle.ts:108 | a present name that differs from the target hides a local name equal to it |
| Protocol.NamelessDeviceMatchesOnlyById | React-code/MyBleApp/useScaleBle.ts:108-112 | for a non-empty target, a device with no name at all matches exactly when its id is the target |
| Protocol.UserInfoPayload | React-code/MyBleApp/useScaleBle.ts:133-134 | for every user id, the payload is `USER:`, the id as given, `;MAT:` and the material, in that order; it decodes back to both fields when the id holds no `;` |
| Protocol.DecodeReadsBack | React-code/MyBleApp/useScaleBle.ts:134 | reading up to the first `;` inverts the payload format for user ids without `;` |
| Protocol.PayloadAmbiguousWithSeparator | React-code/MyBleApp/useScaleBle.ts:134 | without that condition two different id/material pairs give the same payload |
| Protocol.CommandRoundTrip | React-code/MyBleApp/useScaleBle.ts:194-198 | the command text is injective: `START` and `CONFIRM_RESULT` differ, and a reference reader reads each back as its own command |
| ScaleSession.Initial | React-code/MyBleApp/useScaleBle.ts:33-40 | the initial state keeps the given manager flag, is not scanning, not connected and not stable, has no chosen slot, no current weight and an empty window, and satisfies the session invariant |
| ScaleSession.StartScanForWeight | React-code/MyBleApp/useScaleBle.ts:67-91 | with no manager nothing changes; otherwise the slot is recorded; a scan begins exactly when the slot's target is truthy and no scan is running, raising `scanning`; a request while scanning leaves `scanning` unchanged |
| ScaleSession.OnScanEvent | React-code/MyBleApp/useScaleBle.ts:95-118 | a scan error lowers `scanning`; an advertisement begins a connection to its id exactly when it matches the target, lowering `scanning`; only `scanning` ever changes |
| ScaleSession.OnScanTimeout | React-code/MyBleApp/useScaleBle.ts:155-165 | the timer lowers `scanning` exactly when the manager exists, nothing was found and the captured `scanning` was true; otherwise it changes nothing |
| ScaleSession.OnLinkResult | React-code/MyBleApp/useScaleBle.ts:120-150 | a connection records the device id; the user-info payload is written exactly when discovery also succeeds; it is the payload built from the scan's user id and material, and it decodes back to them when the user id holds no `;` |
| ScaleSession.StopScan | React-code/MyBleApp/useScaleBle.ts:168-177 | with a manager `scanning` becomes false; nothing else changes |
| ScaleSession.SendStartCommand | React-code/MyBleApp/useScaleBle.ts:179-240 | START is written exactly when the connected id is truthy, the manager exists and the link succeeds; only then are the window and stable flag cleared and the subscription opened; otherwise nothing changes |
| ScaleSession.SendConfirmResult | React-code/MyBleApp/useScaleBle.ts:242-269 | CONFIRM_RESULT is written under the same conditions as START and no state changes |
| ScaleSession.ResetAndMeasureAgain | React-code/MyBleApp/useScaleBle.ts:271-281 | the current weight, the stable flag and the window are always cleared; START is written, and the weight subscription opened, exactly under the START conditions, and otherwise no subscription opens |
| ScaleSession.OnWeightNotification | React-code/MyBleApp/useScaleBle.ts:210-231 | a reading becomes the current weight, is pushed onto the window, and the stable flag becomes the verdict on the new window; errors and empty values change nothing |
| ScaleSession.NotificationPreservesInv | React-code/MyBleApp/useScaleBle.ts:215-230 | a weight notification keeps the window bounded, the flag equal to the verdict and the current weight equal to the newest reading |
| ScaleSession.CommandsPreserveInv | React-code/MyBleApp/useScaleBle.ts:179-281 | START, CONFIRM_RESULT and measure-again each keep that invariant, whether or not the link succeeds |
| ScaleSession.NextPreservesInv | React-code/MyBleApp/useScaleBle.ts:203-275 | every event keeps the window at most ten long, the stable flag equal to the verdict on the window, and the current weight equal to the newest reading |
| ScaleSession.RunPreservesInv | React-code/MyBleApp/useScaleBle.ts:32-281 | any run of events keeps that invariant |
| ScaleSession.RunFromInitialKeepsInv | React-code/MyBleApp/useScaleBle.ts:32-281 | every state reached from the initial state by any run of events keeps that invariant |
| ScaleSession.NotifyAllPushes | React-code/MyBleApp/useScaleBle.ts:219-226 | a run of notifications moves the window exactly as the same run of pushes |
| ScaleSession.NotifyAllWindow | React-code/MyBleApp/useScaleBle.ts:222-226 | after a run of readings the window is the last ten of the old window followed by the new readings |
| ScaleSession.NotifyAllFlags | React-code/MyBleApp/useScaleBle.ts:219-230 | after a run of readings the stable flag is the verdict on the final window and the current weight is the last reading |
| ScaleSession.FreshWindowNeedsFiveReadings | React-code/MyBleApp/useScaleBle.ts:42-45 | from an empty window, up to four readings never make the flag stable |
| ScaleSession.FreshWindowFiveEqualReadingsAreStable | React-code/MyBleApp/useScaleBle.ts:222-230 | from an empty window, five equal readings make the flag stable |
| ScaleSession.ResetNeedsFiveReadings | React-code/MyBleApp/useScaleBle.ts:271-275 | after a successful START, or after any measure-again, the next four readings all leave the flag unstable |
| ScaleSession.StableFlagCanFall | React-code/MyBleApp/useScaleBle.ts:229-230 | a reading that differs from the newest one always leaves the flag false, even right after it was stable |
| ScaleSession.ScanTimeoutNeverFires | React-code/MyBleApp/useScaleBle.ts:155-165 | for every scan that began, the timer leaves any later state unchanged, so it never stops the scan |
| ScaleSession.MatchesAreNotDeduplicated | React-code/MyBleApp/useScaleBle.ts:93-118 | two matching advertisements in a row both begin a connection |
| App.LeadingWhitespace | React-code/MyBleApp/App.tsx:31 | the leading run of white space ends before the first character that is not white space |
| App.TrailingWhitespace | React-code/MyBleApp/App.tsx:31 | the trailing run of white space begins after the last character that is not white space |
| App.Trim | React-code/MyBleApp/App.tsx:31 | `trim()` is empty exactly when the input is all white space; otherwise it is the part between the leading and trailing white space and starts and ends with non-white-space characters |
| App.HandleScan | React-code/MyBleApp/App.tsx:26-40 | a scan is requested exactly when a truthy slot is chosen, the user id has a non-white-space character and a material is chosen, and the request carries the trimmed id |
| App.IsFormComplete | React-code/MyBleApp/App.tsx:52 | the form is complete exactly when a slot and a material are chosen and the user id holds a character that is not white space |
| App.ScanButtonDisabled | React-code/MyBleApp/App.tsx:199 | on every reachable form the scan button is enabled exactly when no scan runs and `handleScan` would request a scan |
| App.FormCompleteAgreesWithScanGuard | React-code/MyBleApp/App.tsx:52 | for every form the screen can reach, `isFormComplete` holds exactly when `handleScan` requests a scan |
| App.GuardsDisagreeOnSlotZero | React-code/MyBleApp/App.tsx:27-52 | the two tests part ways on slot 0, which no button can store |
| App.EnabledScanButtonBeginsScan | React-code/MyBleApp/App.tsx:193-199 | pressing an enabled scan button begins a scan for the slot's target whose payload carries the trimmed id and the chosen material |
| App.IsStartEnabled | React-code/MyBleApp/App.tsx:72 | START is enabled only for a present, non-empty connected id, and outside a scan exactly when the status text names the connected scale |
| App.HandleStartWeight | React-code/MyBleApp/App.tsx:54-72 | START is requested exactly when START is enabled, and then a command is written exactly when the manager exists and the link succeeds, and that command is always START; a written START clears the window and the stable flag and opens the subscription, and an unwritten one changes nothing |
| App.ConfirmDisabled | React-code/MyBleApp/App.tsx:268 | in any state that keeps the session invariant, the confirm button is enabled exactly when the window holds at least five readings and the last five are equal, so it is disabled while fewer than five readings are in the window |
| App.ConfirmEnabledMeansSettled | React-code/MyBleApp/App.tsx:262-267 | when the confirm button is enabled, the last five readings are equal and the shown weight is the newest of them |
| App.RenderStatusText | React-code/MyBleApp/App.tsx:65-70 | scanning beats connected, connected beats a chosen slot, and a chosen slot beats the default prompt |
| App.HeaderBadge | React-code/MyBleApp/App.tsx:82-94 | the badge shows scanning exactly while scanning, and connected exactly when not scanning and START is enabled |
| App.BadgeAgreesWithStatusText | React-code/MyBleApp/App.tsx:79-95 | the header badge and the status text always agree on scanning, connected and idle |

## Left out

- Creating and destroying the `BleManager` on mount and unmount: the manager reference is the `managerReady` flag of the state.
- `connectToDevice`, service discovery, characteristic writes and monitoring are calls into the Bluetooth library. Each chain is replaced by its outcome (`LinkResult`, `linkOk`), and a notification is delivered through `OnWeightNotification`.
- ScaleSession.ResetNeedsFiveReadings: relies on each notification being delivered once. Every START after the first opens another weight monitor in the source. If the library delivers a notification to every handler, the source pushes that reading once per handler, and fewer than five notifications could fill the last five places of the window.
- Base64 encoding and decoding is an external library. Payloads and commands are modelled as the strings before encoding.
- `parseFloat`, NaN propagation through `Math.min`/`Math.max`, and `toFixed` are floating-point behaviour. Readings are exact reals.
- The timer's real-time delay: the timer is an event (`ScanTimerFired`) that may occur at any point.
- `Alert` and `console` calls only report; they change no state.
- React state batching. Every transition sees the latest state, and only the timer's captured `scanning` is modelled as a stale closure read. The `scanning` test in `startScanForWeight` (useScaleBle.ts line 85) is also a closure read: two presses handled in one render both pass it and both start a scan, while `StartScanForWeight` sees the first request's raised `scanning` and rejects the second.
- Screen navigation (`setScreen`), the text input widgets and the styles. `handleConfirmResult` forwards to the hook and then navigates; `handleMeasureAgain` only forwards to the hook.
- `__tests__/bluetooth/BluetoothManager.ts` is a pass-through wrapper over the Bluetooth library with no logic of its own, and it is not part of this model.
