/**
 The notification listener service as a transition system: the connection
 flag with its change-triggered setter, the four listener callbacks, the
 screen broadcast receiver, and a fold of these over a sequence of callbacks
 delivered one at a time by the host.
 */
module ListenerService {
  import opened Wrappers
  import opened Notifications
  import opened WakeController

  /** Broadcast action delivered when the screen turns on. */
  const ActionScreenOn: string := "android.intent.action.SCREEN_ON"

  /** Broadcast action delivered when the screen turns off. */
  const ActionScreenOff: string := "android.intent.action.SCREEN_OFF"

  /** The service's mutable fields: the connection flag and the wake controller. */
  datatype State = State(adbConnected: bool, wake: Wake)

  /** A freshly created service: not connected, no lock, no receiver. */
  const Initial: State := State(false, Wake(false, false))

  /** The state after a callback and the platform calls it made, in order. */
  datatype Outcome = Outcome(after: State, effects: seq<Effect>)

  /** A callback the host delivers to the service. `active` is what the
      platform reports as the currently posted notifications. */
  datatype Event =
    | ListenerConnected(active: seq<Notif>)
    | ListenerDisconnected
    | Posted(posted: Notif)
    | Removed(removed: Notif)
    | ScreenBroadcast(action: string)

  /** The setter of `adbConnected`: does nothing when the value is unchanged;
      otherwise keeps the screen awake (for true) or leaves it alone (for
      false) and only then stores the new value. */
  function SetAdbConnected(s: State, value: bool, p: Platform): (r: Result<Outcome, Fault>)
    // assigning the current value changes nothing
    ensures s.adbConnected == value ==> r == Success(Outcome(s, []))
    // only a rising edge can fail, and only when a lock must be created
    ensures r.Failure? <==> !s.adbConnected && value && !s.wake.lockHeld && !p.powerManagerAvailable
    // false -> true: acquire (unless held), then register
    ensures !s.adbConnected && value && r.Success? ==>
      && r.value.after == State(true, Wake(true, true))
      && r.value.effects == (if s.wake.lockHeld then [] else [AcquireLock]) + [RegisterReceiver]
    // true -> false: unregister, then release (if held)
    ensures s.adbConnected && !value ==>
      r == Success(Outcome(State(false, Wake(false, false)),
                           [UnregisterReceiver] + (if s.wake.lockHeld then [ReleaseLock] else [])))
  {
    if s.adbConnected == value then Success(Outcome(s, []))
    else if value then
      match KeepScreenAwake(s.wake, p)
      case Failure(f) => Failure(f)
      case Success(t) => Success(Outcome(State(true, t.after), t.effects))
    else Success(ClearAdbConnected(s))
  }

  /** The setter assigning false, which makes no call that can fail: nothing
      happens when the flag is already clear; otherwise the receiver is
      unregistered and then the lock released (if held). */
  function ClearAdbConnected(s: State): (o: Outcome)
    ensures !s.adbConnected ==> o == Outcome(s, [])
    ensures s.adbConnected ==>
      && o.after == State(false, Wake(false, false))
      && o.effects == [UnregisterReceiver] + (if s.wake.lockHeld then [ReleaseLock] else [])
  {
    if !s.adbConnected then Outcome(s, [])
    else
      var t := LeaveScreenAlone(s.wake);
      Outcome(State(false, t.after), t.effects)
  }

  /** Initial synchronisation: the flag becomes "some active notification is
      the debugging notice". */
  function OnListenerConnected(s: State, active: seq<Notif>, p: Platform): (r: Result<Outcome, Fault>)
    ensures r.Success? ==> r.value.after.adbConnected == (AdbNotification in active)
    ensures r.Failure? <==>
      !s.adbConnected && AdbNotification in active && !s.wake.lockHeld && !p.powerManagerAvailable
    ensures r.Success? && s.adbConnected != (AdbNotification in active) ==>
      && r.value.after.wake == (if AdbNotification in active then Wake(true, true) else Wake(false, false))
      && r.value.effects
         == if AdbNotification in active
            then (if s.wake.lockHeld then [] else [AcquireLock]) + [RegisterReceiver]
            else [UnregisterReceiver] + (if s.wake.lockHeld then [ReleaseLock] else [])
    ensures s.adbConnected == (AdbNotification in active) ==> r == Success(Outcome(s, []))
  {
    SetAdbConnected(s, AnyAdbConnected(active), p)
  }

  /** Cleanup on disconnection of the listener: unregister and release, but
      the connection flag is left as it was. */
  function OnListenerDisconnected(s: State): (o: Outcome)
    ensures o.after == State(s.adbConnected, Wake(false, false))
    ensures o.effects == [UnregisterReceiver] + (if s.wake.lockHeld then [ReleaseLock] else [])
  {
    var t := LeaveScreenAlone(s.wake);
    Outcome(State(s.adbConnected, t.after), t.effects)
  }

  /** A posted debugging notice sets the flag; any other notification is ignored. */
  function OnNotificationPosted(s: State, n: Notif, p: Platform): (r: Result<Outcome, Fault>)
    ensures n != AdbNotification ==> r == Success(Outcome(s, []))
    ensures n == AdbNotification && r.Success? ==> r.value.after.adbConnected
    ensures n == AdbNotification && !s.adbConnected && r.Success? ==> r.value.after.wake == Wake(true, true)
    ensures n == AdbNotification && s.adbConnected ==> r == Success(Outcome(s, []))
    ensures r.Failure? <==>
      n == AdbNotification && !s.adbConnected && !s.wake.lockHeld && !p.powerManagerAvailable
    ensures n == AdbNotification && !s.adbConnected && r.Success? ==>
      r.value.effects == (if s.wake.lockHeld then [] else [AcquireLock]) + [RegisterReceiver]
  {
    if IsAdbConnectedNotification(n) then SetAdbConnected(s, true, p) else Success(Outcome(s, []))
  }

  /** A removed debugging notice clears the flag; any other notification is ignored. */
  function OnNotificationRemoved(s: State, n: Notif): (o: Outcome)
    ensures n != AdbNotification ==> o == Outcome(s, [])
    ensures n == AdbNotification ==> !o.after.adbConnected
    ensures n == AdbNotification && !s.adbConnected ==> o == Outcome(s, [])
    ensures n == AdbNotification && s.adbConnected ==>
      && o.after.wake == Wake(false, false)
      && o.effects == [UnregisterReceiver] + (if s.wake.lockHeld then [ReleaseLock] else [])
  {
    if IsAdbConnectedNotification(n) then ClearAdbConnected(s) else Outcome(s, [])
  }

  /** Screen on: (re)acquire the wake lock; the flag and the receiver stay as they are. */
  function OnScreenTurnedOn(s: State, p: Platform): (r: Result<Outcome, Fault>)
    ensures r.Success? ==> r.value.after == State(s.adbConnected, Wake(true, s.wake.receiverRegistered))
    ensures r.Success? ==> r.value.effects == (if s.wake.lockHeld then [] else [AcquireLock])
    ensures r.Failure? <==> !s.wake.lockHeld && !p.powerManagerAvailable
  {
    match AcquireWakelock(s.wake, p)
    case Failure(f) => Failure(f)
    case Success(t) => Success(Outcome(State(s.adbConnected, t.after), t.effects))
  }

  /** Screen off: release the wake lock; the flag and the receiver stay as they are. */
  function OnScreenTurnedOff(s: State): (o: Outcome)
    ensures o.after == State(s.adbConnected, Wake(false, s.wake.receiverRegistered))
    ensures o.effects == (if s.wake.lockHeld then [ReleaseLock] else [])
  {
    var t := ReleaseWakelock(s.wake);
    Outcome(State(s.adbConnected, t.after), t.effects)
  }

  /** The receiver's dispatch on the broadcast action; any other action is ignored. */
  function OnReceive(s: State, action: string, p: Platform): (r: Result<Outcome, Fault>)
    // no broadcast touches the flag or the receiver
    ensures r.Success? ==>
      && r.value.after.adbConnected == s.adbConnected
      && r.value.after.wake.receiverRegistered == s.wake.receiverRegistered
    ensures action == ActionScreenOn && r.Success? ==>
      && r.value.after.wake.lockHeld
      && r.value.effects == (if s.wake.lockHeld then [] else [AcquireLock])
    ensures action == ActionScreenOff ==>
      && r.Success?
      && !r.value.after.wake.lockHeld
      && r.value.effects == (if s.wake.lockHeld then [ReleaseLock] else [])
    ensures r.Failure? <==> action == ActionScreenOn && !s.wake.lockHeld && !p.powerManagerAvailable
    ensures action != ActionScreenOn && action != ActionScreenOff ==> r == Success(Outcome(s, []))
  {
    if action == ActionScreenOn then OnScreenTurnedOn(s, p)
    else if action == ActionScreenOff then Success(OnScreenTurnedOff(s))
    else Success(Outcome(s, []))
  }

  /** One callback. */
  function Step(s: State, e: Event, p: Platform): Result<Outcome, Fault>
  {
    match e
    case ListenerConnected(active) => OnListenerConnected(s, active, p)
    case ListenerDisconnected => Success(OnListenerDisconnected(s))
    case Posted(n) => OnNotificationPosted(s, n, p)
    case Removed(n) => Success(OnNotificationRemoved(s, n))
    case ScreenBroadcast(action) => OnReceive(s, action, p)
  }

  /** A sequence of callbacks delivered one after another; the effect logs are
      concatenated and the first failure ends the run. */
  function Run(s: State, events: seq<Event>, p: Platform): Result<Outcome, Fault>
    decreases |events|
  {
    if |events| == 0 then Success(Outcome(s, []))
    else match Step(s, events[0], p)
      case Failure(f) => Failure(f)
      case Success(first) =>
        match Run(first.after, events[1..], p)
        case Failure(f) => Failure(f)
        case Success(rest) => Success(Outcome(rest.after, first.effects + rest.effects))
  }
}
