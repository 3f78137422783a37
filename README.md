# SimpleBleScanner: device registry and scan session

A verified model of the only sequential logic in the SimpleBleScanner Android
app (package `com.tilatina.botoncito`, class `MainActivity`):

- **The discovered-device registry** (`LeDeviceListAdapter`): an
  insertion-ordered list of Bluetooth LE devices with no repetitions. A device
  is identified by its hardware address. `addDevice` appends a device only if
  it is absent, `clear` empties the list, and `getCount`, `getDevice`,
  `getItem` and `getItemId` read it by position
  (`device_registry.dfy`, module `DeviceRegistry`).
- **The scan session**: the `mScanning` flag, the delayed stop runnable that
  every `scanLeDevice(true)` posts, the swipe-to-refresh gesture (clear, then
  scan) and the scan callback that adds each reported device
  (`scan_session.dfy`, module `ScanSession`). The state is a value, `Session`,
  with a step function `Step` and a trace runner `Run`. The lemmas about those
  functions are the properties. The class `ScanController` holds the same state
  in fields that its methods update in place. Each method ensures
  `State() == Step(old(State()), event)`.
- **Two decision rules**: the reaction to the user's answers to the
  permission request, together with `checkPermission` (`permissions.dfy`).
  Also the name a list row shows for a device (`device_row.dfy`).

`wrappers.dfy` holds `Option` and `Result`.

Calls into the platform are not executed. They are recorded in a `Session` as
`Effect` values: `startLeScan`, `stopLeScan`, `setRefreshing(false)` and
`notifyDataSetChanged`. The moment a posted runnable runs is the event
`TimeoutRuns`. The field `armed` counts the runnables posted and not yet run.

Where the code and the intended design differ, the model follows the code:

- `scanLeDevice(true)` creates a new `Handler` and posts a new stop runnable
  every time. It never cancels an earlier one, and `scanLeDevice(false)`
  cancels nothing either. A stale runnable can therefore clear `mScanning`
  and stop the radio after a newer scan has started
  (`StaleTimeoutEndsNewScan`). Two scans started back to back also signal
  "scan ended" twice (`TwoScansEndTwice`). The intended design cancels the
  earlier timeout so that each session ends exactly once.
- The scan callback adds devices whether or not `mScanning` is set. Nothing
  in the code checks the flag.
- A failure to start the radio scan is not detected or reported by the code,
  so the model has no start-failure path.
- `scanLeDevice(false)` is never called in the source. It is modelled
  because it is part of `scanLeDevice`. Calling it twice leaves the flag as it
  was, but it calls `stopLeScan` again.
- `SCAN_PERIOD` is 120000 ms (two minutes), not the ten seconds its comment
  states.

## Model

| member | source | states |
|---|---|---|
| `DeviceRegistry.Added` | app/src/main/java/com/tilatina/botoncito/MainActivity.java:219-223 | addDevice grows the list by one exactly when the device is new, keeps every earlier entry in place, lists exactly the old devices plus the new one, and keeps the list free of repetitions |
| `DeviceRegistry.DiscoverSnoc` | app/src/main/java/com/tilatina/botoncito/MainActivity.java:219-223 | delivering one more report after a stream is one more addDevice on the resulting list |
| `DeviceRegistry.DiscoverKeepsDistinct` | app/src/main/java/com/tilatina/botoncito/MainActivity.java:216-223 | for every stream of reports, a list without repetitions never gains a repeated device |
| `DeviceRegistry.DiscoverMembers` | app/src/main/java/com/tilatina/botoncito/MainActivity.java:219-223 | after a stream of reports a device is listed exactly when it was listed before or was reported |
| `DeviceRegistry.DiscoverOnlyAppends` | app/src/main/java/com/tilatina/botoncito/MainActivity.java:220-221 | reports only append: every entry already listed keeps its position |
| `DeviceRegistry.DiscoverKnown` | app/src/main/java/com/tilatina/botoncito/MainActivity.java:220 | reports of devices already listed leave the list unchanged (first seen wins) |
| `DeviceRegistry.DiscoverIdempotent` | app/src/main/java/com/tilatina/botoncito/MainActivity.java:219-223 | delivering the same reports a second time changes nothing |
| `DeviceRegistry.FirstSeenMembers` | app/src/main/java/com/tilatina/botoncito/MainActivity.java:219-223 | the first-seen order lists exactly the reported devices |
| `DeviceRegistry.DiscoverIsFirstSeen` | app/src/main/java/com/tilatina/botoncito/MainActivity.java:219-223 | starting from an empty list, the list is each reported device at its first report, in report order |
| `DeviceRegistry.DistinctCardinality` | app/src/main/java/com/tilatina/botoncito/MainActivity.java:230-233 | a list without repetitions is as long as the set of devices it holds |
| `DeviceRegistry.CountIsDistinctReports` | app/src/main/java/com/tilatina/botoncito/MainActivity.java:219-233 | after a stream of reports from an empty list, the count equals the number of distinct devices reported |
| `DeviceRegistry.DuplicateReportScenario` | app/src/main/java/com/tilatina/botoncito/MainActivity.java:219-223 | reports A, B, A, C of three distinct devices give the list [A, B, C] |
| `DeviceRegistry.LeDeviceListAdapter.constructor` | app/src/main/java/com/tilatina/botoncito/MainActivity.java:214-218 | a new adapter starts with an empty list, which has no repetitions |
| `DeviceRegistry.LeDeviceListAdapter.AddDevice` | app/src/main/java/com/tilatina/botoncito/MainActivity.java:219-223 | an absent device is appended at the end; a listed device leaves the list unchanged; no repetitions before or after |
| `DeviceRegistry.LeDeviceListAdapter.Clear` | app/src/main/java/com/tilatina/botoncito/MainActivity.java:227-229 | the list is empty afterwards and getCount is 0 |
| `DeviceRegistry.LeDeviceListAdapter.GetCount` | app/src/main/java/com/tilatina/botoncito/MainActivity.java:230-233 | the count is the number of distinct devices listed |
| `DeviceRegistry.LeDeviceListAdapter.GetDevice` | app/src/main/java/com/tilatina/botoncito/MainActivity.java:224-226 | succeeds exactly for positions 0 to count-1 and returns the device at that position in first-seen order; any other position raises IndexOutOfBounds carrying the position and the size |
| `DeviceRegistry.LeDeviceListAdapter.GetItem` | app/src/main/java/com/tilatina/botoncito/MainActivity.java:234-237 | succeeds exactly for positions in the list and returns the listed device at that position |
| `DeviceRegistry.LeDeviceListAdapter.GetItemId` | app/src/main/java/com/tilatina/botoncito/MainActivity.java:238-241 | a row's id is its position |
| `ScanSession.Step` | app/src/main/java/com/tilatina/botoncito/MainActivity.java:67-137 | only refresh and discovery touch the list; no step creates a repetition; a scan start or refresh posts one stop runnable and a run consumes one; the effect log only grows |
| `ScanSession.RunSnoc` | app/src/main/java/com/tilatina/botoncito/MainActivity.java:112-137 | a trace extended by one event can happen exactly when the trace can happen and, for a runnable, one is pending; its result is one more step |
| `ScanSession.RunKeepsDistinct` | app/src/main/java/com/tilatina/botoncito/MainActivity.java:99-110 | no sequence of scan, stop, timeout, refresh and discovery events puts a device in the list twice |
| `ScanSession.RunArmed` | app/src/main/java/com/tilatina/botoncito/MainActivity.java:112-127 | stop runnables are never cancelled: the pending count equals the initial count plus those posted minus those run |
| `ScanSession.FiresAtMostArms` | app/src/main/java/com/tilatina/botoncito/MainActivity.java:114-125 | from a fresh activity, no more stop runnables run than scans were started |
| `ScanSession.RunScanningIsLastFlag` | app/src/main/java/com/tilatina/botoncito/MainActivity.java:112-137 | mScanning is true exactly when the last event that writes it was a scan start or refresh, not a stop or a runnable |
| `ScanSession.DiscoveriesOnlyAdd` | app/src/main/java/com/tilatina/botoncito/MainActivity.java:97-110 | discovery events only feed addDevice: the flag and the pending runnables are untouched |
| `ScanSession.RefreshThenDiscover` | app/src/main/java/com/tilatina/botoncito/MainActivity.java:65-71 | after a refresh and any reports, the list is the reports in first-seen order, mScanning is true and one more stop runnable is pending |
| `ScanSession.StaleTimeoutEndsNewScan` | app/src/main/java/com/tilatina/botoncito/MainActivity.java:112-127 | a runnable posted before a refresh still runs and clears mScanning while the new scan's runnable is pending |
| `ScanSession.TwoScansEndTwice` | app/src/main/java/com/tilatina/botoncito/MainActivity.java:112-125 | two scan starts followed by both runnables stop the radio and end the refresh indicator twice |
| `ScanSession.ScanController.constructor` | app/src/main/java/com/tilatina/botoncito/MainActivity.java:59-81 | the adapter starts empty; a scan starts at once only when Bluetooth is enabled |
| `ScanSession.ScanController.ScanLeDevice` | app/src/main/java/com/tilatina/botoncito/MainActivity.java:112-137 | mScanning becomes the argument and the list is untouched; enabling posts a new runnable and starts the radio; disabling stops the radio and the refresh indicator |
| `ScanSession.ScanController.ScanTimeout` | app/src/main/java/com/tilatina/botoncito/MainActivity.java:116-124 | a pending runnable runs: mScanning becomes false, one runnable fewer is pending, the list is untouched |
| `ScanSession.ScanController.OnRefresh` | app/src/main/java/com/tilatina/botoncito/MainActivity.java:67-70 | afterwards the list is empty, mScanning is true and one more runnable is pending |
| `ScanSession.ScanController.OnLeScan` | app/src/main/java/com/tilatina/botoncito/MainActivity.java:99-109 | the reported device goes through addDevice, the list is notified, and the flag and runnables are untouched |
| `Permissions.OnRequestPermissionsResult` | app/src/main/java/com/tilatina/botoncito/MainActivity.java:170-197 | for this request code with exactly three answers: the snack bar exactly when all three are denied, recreate exactly when at least one is granted; otherwise no reaction |
| `Permissions.CheckPermission` | app/src/main/java/com/tilatina/botoncito/MainActivity.java:143-155 | when all three permissions are granted, the same answers to the request recreate the activity |
| `Permissions.SnackBarOnlyWithoutPermission` | app/src/main/java/com/tilatina/botoncito/MainActivity.java:179-192 | the snack bar implies exactly three answers for which checkPermission is false |
| `Permissions.PartialGrantRecreatesWithoutPermission` | app/src/main/java/com/tilatina/botoncito/MainActivity.java:179-192 | a partial grant recreates the activity although checkPermission is still false |
| `DeviceRow.DisplayName` | app/src/main/java/com/tilatina/botoncito/MainActivity.java:255-260 | a non-null, non-empty name is shown as is; otherwise the placeholder is shown; the shown text is never empty when the placeholder is not |

## Left out

- View inflation, `ViewHolder`, list binding, the address text of a row, Toasts, `showSnackBar`'s message and `openSettings`: presentation calls into Android. Only the name rule of `getView` is kept.
- `startLeScan`, `stopLeScan`, `getAdapter`, `isEnabled` and `setRefreshing`: platform calls. They appear only as recorded effects, and the adapter's enabled state is a constructor parameter.
- `Handler.postDelayed` and `SCAN_PERIOD`: time is not modelled. A posted runnable runs when the `TimeoutRuns` event (or `ScanTimeout`) happens, and only the count of pending runnables is kept.
- `runOnUiThread`: each report is treated as one sequential `OnLeScan` call.
- `onActivityResult`: it compares a result code with a platform constant (`BluetoothAdapter.STATE_ON`) and then starts a scan like `ScanLeDevice(true)`.
- The BLE feature check and `finish()` in `onCreate`, and `requestPermission`: platform calls.
- Logging, and the signal strength and advertisement bytes passed to `onLeScan`: the code only logs the first and ignores the second.
- `DeviceRegistry.Device`: `BluetoothDevice` is reduced to its hardware address, which is what its equality compares. The name is a separate input to `DisplayName`, because `getName()` asks the platform each time.
- `Permissions.PERMISSION_GRANTED`: taken as Android's value 0. Every other status counts as a denial, as in the code's comparisons.
