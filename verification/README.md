# AdbScreenAwake: connection and wake-lock state machine

AdbScreenAwake keeps an Android device's screen on while an ADB (debugging
bridge) session is active. Its single component, `AdbNotificationListenerService`,
watches for the platform's "debugging connected" notification (package
`android`, channel `DEVELOPER_IMPORTANT`), keeps a boolean `adbConnected`
whose setter reacts only to a change of value. It acquires a full wake lock
and registers a screen on/off broadcast receiver when the flag becomes set,
and gives them up when the flag is cleared, when the screen turns off (the
lock only; it is re-acquired when the screen turns on) or when the listener
disconnects.

This project models that service as a pure transition system:

- `wrappers.dfy`, module `Wrappers`: `Option` (Kotlin's nullable values) and `Result`.
- `notifications.dfy`, module `Notifications`: a notification is a
  `(packageName, channelId)` pair; the debugging-session predicate, and the
  `any` over the active notifications.
- `wake_controller.dfy`, module `WakeController`: the wake-lock handle and the
  receiver registration (`Wake`), the platform calls as an ordered log of
  `Effect`s, acquire/release/register/unregister, keep-awake/leave-alone, and
  two replay checkers that say when a log of calls is consistent
  (`LockReplay`: no second acquire, no release without a lock;
  `ReceiverReplay`: no second registration).
- `listener_service.dfy`, module `ListenerService`: the service state, the
  `adbConnected` setter, one function per callback, the receiver's action
  dispatch, `Step` for one callback and `Run`, a fold over a callback sequence
  that concatenates the effect logs and stops at the first failure.
- `traces.dfy`, module `Traces`: properties of callback sequences.

Two corners of the code are made explicit. The listener-disconnected callback
releases the lock and unregisters the receiver but does not reset
`adbConnected` (lines 53-55). A later posting of the debugging notice, or a
reconnection that finds it active, then takes the setter's "value unchanged"
early return (line 22) and acquires nothing (`Traces.ReconnectDoesNotReacquire`).
A removal of the notice after a disconnection runs the setter's true-to-false
branch, which unregisters the receiver a second time (lines 65 and 110;
`Traces.SecondUnregisterAfterDisconnect`). Since the unregistration at line
115 has no guard, other sequences unregister a receiver that is not
registered as well: a disconnection of a fresh service
(`Traces.DisconnectFromInitialUnregisters`), and a disconnection followed by a
reconnection that does not find the notice
(`Traces.SecondUnregisterOnReconnectWithoutNotice`). The model records these
calls and does not say what the platform does with them.

The only failure is a missing power service when a lock has to be created
(line 94). `Platform(powerManagerAvailable)` is a parameter and the failure is
`Failure(PowerManagerUnavailable)`; it ends a run.

## Model

| member | source | states |
|---|---|---|
| Notifications.IsAdbConnectedNotification | app/src/main/java/de/cketti/adbscreenawake/AdbNotificationListenerService.kt:77-81 | a notification matches iff it is exactly the pair (package "android", channel "DEVELOPER_IMPORTANT"); a channel-less one never matches |
| Notifications.AnyAdbConnected | app/src/main/java/de/cketti/adbscreenawake/AdbNotificationListenerService.kt:50 | true iff the debugging notice occurs among the active notifications (some index holds a matching one) |
| WakeController.AcquireWakelock | app/src/main/java/de/cketti/adbscreenawake/AdbNotificationListenerService.kt:89-103 | with a lock held: no call, state unchanged; otherwise exactly one acquire call and the lock is held; fails exactly when a lock is needed and the power service is missing; the receiver is untouched |
| WakeController.ReleaseWakelock | app/src/main/java/de/cketti/adbscreenawake/AdbNotificationListenerService.kt:118-122 | the handle is cleared in every case; the log is exactly one release call if a lock was held and empty otherwise; the receiver is untouched |
| WakeController.RegisterScreenBroadcastReceiver | app/src/main/java/de/cketti/adbscreenawake/AdbNotificationListenerService.kt:105-107 | one register call; afterwards the receiver is registered and the lock unchanged; from an unregistered receiver the log replays cleanly |
| WakeController.UnregisterScreenBroadcastReceiver | app/src/main/java/de/cketti/adbscreenawake/AdbNotificationListenerService.kt:114-116 | one unregister call in every state; afterwards the receiver is not registered and the lock unchanged |
| WakeController.KeepScreenAwake | app/src/main/java/de/cketti/adbscreenawake/AdbNotificationListenerService.kt:83-86 | acquire (only if no lock is held) strictly before register; afterwards lock held and receiver registered |
| WakeController.LeaveScreenAlone | app/src/main/java/de/cketti/adbscreenawake/AdbNotificationListenerService.kt:109-116 | unregister strictly before release (only if a lock is held); afterwards no lock and no receiver |
| WakeController.AcquireIdempotent | app/src/main/java/de/cketti/adbscreenawake/AdbNotificationListenerService.kt:90 | a second acquire right after a successful one makes no call and changes nothing |
| WakeController.ReleaseIdempotent | app/src/main/java/de/cketti/adbscreenawake/AdbNotificationListenerService.kt:118-122 | a second release makes no call and changes nothing |
| WakeController.LockReplayBalance | app/src/main/java/de/cketti/adbscreenawake/AdbNotificationListenerService.kt:89-122 | for a log without double acquire or stray release, acquires minus releases equals the change in "a lock is held" |
| ListenerService.SetAdbConnected | app/src/main/java/de/cketti/adbscreenawake/AdbNotificationListenerService.kt:20-33 | assigning the current value changes nothing; false to true acquires then registers and ends connected, locked, registered; true to false unregisters then releases and ends disconnected, unlocked, unregistered; fails only on a rising edge that needs a lock without a power service |
| ListenerService.ClearAdbConnected | app/src/main/java/de/cketti/adbscreenawake/AdbNotificationListenerService.kt:21-32 | the setter assigning false: no change and no call when the flag is clear; otherwise unregister then release (if held), ending disconnected, unlocked, unregistered |
| ListenerService.OnListenerConnected | app/src/main/java/de/cketti/adbscreenawake/AdbNotificationListenerService.kt:49-51 | afterwards the flag is "the debugging notice is among the active notifications"; no change when that equals the current flag; on a change, acquire (if no lock) then register ending locked and registered, or unregister then release (if held) ending with nothing held; fails iff it must set the flag, no lock is held and the power service is missing |
| ListenerService.OnListenerDisconnected | app/src/main/java/de/cketti/adbscreenawake/AdbNotificationListenerService.kt:53-55 | unregisters, then releases if a lock is held; no lock and no receiver afterwards; the flag is left unchanged |
| ListenerService.OnNotificationPosted | app/src/main/java/de/cketti/adbscreenawake/AdbNotificationListenerService.kt:57-61 | a non-matching notification changes nothing; a matching one sets the flag: from a clear flag it acquires (if no lock) then registers, ending locked and registered, and from a set flag it changes nothing; fails iff it must set the flag, no lock is held and the power service is missing |
| ListenerService.OnNotificationRemoved | app/src/main/java/de/cketti/adbscreenawake/AdbNotificationListenerService.kt:63-67 | a non-matching notification changes nothing; a matching one leaves the flag clear: no call if it already was, otherwise unregister then release (if held), ending with no lock and no receiver |
| ListenerService.OnScreenTurnedOn | app/src/main/java/de/cketti/adbscreenawake/AdbNotificationListenerService.kt:69-71 | the lock is held afterwards, with an acquire call iff none was held; flag and receiver unchanged; fails only if a lock is needed without a power service |
| ListenerService.OnScreenTurnedOff | app/src/main/java/de/cketti/adbscreenawake/AdbNotificationListenerService.kt:73-75 | no lock afterwards, the log being one release call iff one was held and empty otherwise; flag and receiver unchanged |
| ListenerService.OnReceive | app/src/main/java/de/cketti/adbscreenawake/AdbNotificationListenerService.kt:40-47 | no broadcast changes the flag or the receiver; screen on ends with the lock held (acquire call iff none was held); screen off never fails and ends with no lock (release call iff one was held); it fails iff screen on needs a lock without a power service; any other action changes nothing |
| Traces.StepAccounting | app/src/main/java/de/cketti/adbscreenawake/AdbNotificationListenerService.kt:20-122 | one callback never acquires while a lock is held, never releases without one, never registers while registered, and keeps "registered only while connected" |
| Traces.RunAccounting | app/src/main/java/de/cketti/adbscreenawake/AdbNotificationListenerService.kt:20-122 | the per-callback accounting holds over any successful callback sequence |
| Traces.LockBalanceFromInitial | app/src/main/java/de/cketti/adbscreenawake/AdbNotificationListenerService.kt:89-122 | from a fresh service, outstanding acquires minus releases is 1 when a lock is held and 0 otherwise, and no double acquire, stray release or double registration ever reaches the platform |
| Traces.RunSucceedsWithPowerManager | app/src/main/java/de/cketti/adbscreenawake/AdbNotificationListenerService.kt:94 | with the power service present no callback sequence fails |
| Traces.FlagFollowsLastMatch | app/src/main/java/de/cketti/adbscreenawake/AdbNotificationListenerService.kt:20-67 | over posted/removed callbacks only, the flag is set iff the last callback about the debugging notice was a posting, and keeps its start value if there was none |
| Traces.FlagFromInitial | app/src/main/java/de/cketti/adbscreenawake/AdbNotificationListenerService.kt:57-67 | from a fresh service, the flag is "the last matching callback was a posting", false if there was none |
| Traces.ConnectFromInitial | app/src/main/java/de/cketti/adbscreenawake/AdbNotificationListenerService.kt:49-51 | a first listener connection ends connected, locked and registered with the calls acquire then register iff the notice is active, and otherwise changes nothing |
| Traces.ScreenOffOnCycle | app/src/main/java/de/cketti/adbscreenawake/AdbNotificationListenerService.kt:69-75 | while connected with a lock, screen off then on releases and re-acquires the lock and returns to the same state |
| Traces.ReconnectDoesNotReacquire | app/src/main/java/de/cketti/adbscreenawake/AdbNotificationListenerService.kt:53-61 | after a listener disconnection the flag stays set with no lock, so a matching posting or a reconnection finding the notice makes no call |
| Traces.SecondUnregisterAfterDisconnect | app/src/main/java/de/cketti/adbscreenawake/AdbNotificationListenerService.kt:53-67 | a disconnection followed by removal of the notice unregisters the receiver twice |
| Traces.DisconnectFromInitialUnregisters | app/src/main/java/de/cketti/adbscreenawake/AdbNotificationListenerService.kt:53-55 | a listener disconnection of a fresh service makes one unregister call and no other, leaving the state as it was |
| Traces.SecondUnregisterOnReconnectWithoutNotice | app/src/main/java/de/cketti/adbscreenawake/AdbNotificationListenerService.kt:49-55 | from a connected state, a disconnection then a reconnection without the notice ends cleared and unregisters twice |

## Left out

- MainActivity.kt: it only opens the notification-access settings screen; there is no state to model.
- Console logging (lines 25, 28, 92, 119): it changes no state.
- The power-service lookup, the wake-lock flags and tag (lines 94-99): acquiring is one opaque `AcquireLock` call; a missing power service is the abstract failure `PowerManagerUnavailable`.
- The broadcast-receiver and intent-filter machinery and the real active-notification query: they are the `ScreenBroadcast(action)` and `ListenerConnected(active)` events. The two action strings are the platform's screen-on and screen-off intent actions.
- Platform semantics of wake locks and receivers (whether a second unregister throws, whether the system drops a lock on screen off, whether broadcasts reach an unregistered receiver): none of this is in the service's code. A screen broadcast is handled in every state, as the handler has no guard.
- Threading and callback scheduling: the host delivers callbacks one at a time, so the model is a sequential step function.
- Crash recovery: a failure ends a run; process restart and the resulting fresh state are not modelled beyond `Initial`.
