/**
 The wake controller of the listener service: one exclusive wake-lock handle
 and the registration of the screen on/off broadcast receiver.

 Platform calls are not performed here; every operation returns the calls it
 would make, in order, as a log of `Effect`s next to the new state.
 */
module WakeController {
  import opened Wrappers

  /** A call the service makes into the platform. */
  datatype Effect =
    | AcquireLock          // a new full wake lock is created and acquired
    | ReleaseLock          // the held wake lock is released
    | RegisterReceiver     // the screen broadcast receiver is registered
    | UnregisterReceiver   // the screen broadcast receiver is unregistered

  /** The one failure the service knows: the power service cannot be looked up. */
  datatype Fault = PowerManagerUnavailable

  /** What the platform offers the service; only the power service can be missing. */
  datatype Platform = Platform(powerManagerAvailable: bool)

  /** `lockHeld` stands for a non-null wake-lock handle; `receiverRegistered`
      records whether the last receiver call was a registration. */
  datatype Wake = Wake(lockHeld: bool, receiverRegistered: bool)

  /** A new controller state together with the platform calls that led to it. */
  datatype Transition = Transition(after: Wake, effects: seq<Effect>)

  /** Number of occurrences of `x` in an effect log. */
  function Count(effects: seq<Effect>, x: Effect): nat
  {
    if |effects| == 0 then 0
    else (if effects[0] == x then 1 else 0) + Count(effects[1..], x)
  }

  function Indicator(b: bool): int
  {
    if b then 1 else 0
  }

  /** Replays the lock calls of a log from a handle that is `held` or not:
      `None` if the log acquires while a lock is held or releases while none
      is, otherwise whether a lock is held at the end. */
  function LockReplay(effects: seq<Effect>, held: bool): Option<bool>
  {
    if |effects| == 0 then Some(held)
    else match effects[0]
      case AcquireLock => if held then None else LockReplay(effects[1..], true)
      case ReleaseLock => if held then LockReplay(effects[1..], false) else None
      case _ => LockReplay(effects[1..], held)
  }

  /** Replays the receiver calls of a log: `None` if the log registers while
      the receiver is registered, otherwise whether it is registered at the
      end. An unregistration is accepted in either state: what the platform
      does with a second one is not part of this model. */
  function ReceiverReplay(effects: seq<Effect>, registered: bool): Option<bool>
  {
    if |effects| == 0 then Some(registered)
    else match effects[0]
      case RegisterReceiver => if registered then None else ReceiverReplay(effects[1..], true)
      case UnregisterReceiver => ReceiverReplay(effects[1..], false)
      case _ => ReceiverReplay(effects[1..], registered)
  }

  /** Acquires a wake lock unless one is held. Fails, without any platform
      call, when a lock is needed and the power service is missing. */
  function AcquireWakelock(w: Wake, p: Platform): (r: Result<Transition, Fault>)
    ensures r.Failure? <==> !w.lockHeld && !p.powerManagerAvailable
    ensures w.lockHeld ==> r == Success(Transition(w, []))
    ensures r.Success? ==>
      && r.value.after == Wake(true, w.receiverRegistered)
      && r.value.effects == (if w.lockHeld then [] else [AcquireLock])
      && LockReplay(r.value.effects, w.lockHeld) == Some(true)
      && (AcquireLock in r.value.effects <==> !w.lockHeld)
      && ReceiverReplay(r.value.effects, w.receiverRegistered) == Some(w.receiverRegistered)
  {
    if w.lockHeld then Success(Transition(w, []))
    else if !p.powerManagerAvailable then Failure(PowerManagerUnavailable)
    else Success(Transition(w.(lockHeld := true), [AcquireLock]))
  }

  /** Releases the wake lock if one is held; the handle is cleared either way. */
  function ReleaseWakelock(w: Wake): (t: Transition)
    ensures t.after == Wake(false, w.receiverRegistered)
    ensures LockReplay(t.effects, w.lockHeld) == Some(false)
    ensures t.effects == (if w.lockHeld then [ReleaseLock] else [])
    ensures ReleaseLock in t.effects <==> w.lockHeld
    ensures ReceiverReplay(t.effects, w.receiverRegistered) == Some(w.receiverRegistered)
  {
    Transition(w.(lockHeld := false), if w.lockHeld then [ReleaseLock] else [])
  }

  /** Registers the screen receiver for the screen-on and screen-off actions. */
  function RegisterScreenBroadcastReceiver(w: Wake): (t: Transition)
    ensures t.after == Wake(w.lockHeld, true)
    ensures t.effects == [RegisterReceiver]
    ensures !w.receiverRegistered ==> ReceiverReplay(t.effects, w.receiverRegistered) == Some(true)
    ensures LockReplay(t.effects, w.lockHeld) == Some(w.lockHeld)
  {
    Transition(w.(receiverRegistered := true), [RegisterReceiver])
  }

  /** Unregisters the screen receiver; the call is made whether or not it is registered. */
  function UnregisterScreenBroadcastReceiver(w: Wake): (t: Transition)
    ensures t.after == Wake(w.lockHeld, false)
    ensures t.effects == [UnregisterReceiver]
    ensures ReceiverReplay(t.effects, w.receiverRegistered) == Some(false)
    ensures LockReplay(t.effects, w.lockHeld) == Some(w.lockHeld)
  {
    Transition(w.(receiverRegistered := false), [UnregisterReceiver])
  }

  /** Acquire (if needed), then register the screen receiver. */
  function KeepScreenAwake(w: Wake, p: Platform): (r: Result<Transition, Fault>)
    ensures r.Failure? <==> !w.lockHeld && !p.powerManagerAvailable
    ensures r.Success? ==>
      && r.value.after == Wake(true, true)
      && r.value.effects == (if w.lockHeld then [] else [AcquireLock]) + [RegisterReceiver]
  {
    match AcquireWakelock(w, p)
    case Failure(f) => Failure(f)
    case Success(acquired) =>
      var registered := RegisterScreenBroadcastReceiver(acquired.after);
      Success(Transition(registered.after, acquired.effects + registered.effects))
  }

  /** Unregister the screen receiver, then release the lock (if held). */
  function LeaveScreenAlone(w: Wake): (t: Transition)
    ensures t.after == Wake(false, false)
    ensures t.effects == [UnregisterReceiver] + (if w.lockHeld then [ReleaseLock] else [])
  {
    var unregistered := UnregisterScreenBroadcastReceiver(w);
    var released := ReleaseWakelock(unregistered.after);
    Transition(released.after, unregistered.effects + released.effects)
  }

  /** A second acquire right after a successful one makes no platform call
      and changes nothing. */
  lemma AcquireIdempotent(w: Wake, p: Platform)
    requires AcquireWakelock(w, p).Success?
    ensures AcquireWakelock(AcquireWakelock(w, p).value.after, p)
         == Success(Transition(AcquireWakelock(w, p).value.after, []))
  {
  }

  /** Releasing twice is releasing once: the second release makes no call. */
  lemma ReleaseIdempotent(w: Wake)
    ensures ReleaseWakelock(ReleaseWakelock(w).after) == Transition(ReleaseWakelock(w).after, [])
  {
  }

  /** Replaying a concatenated log is replaying its parts in turn. */
  lemma {:induction false} LockReplayAppend(a: seq<Effect>, b: seq<Effect>, held: bool)
    ensures LockReplay(a + b, held)
         == match LockReplay(a, held) case None => None case Some(h) => LockReplay(b, h)
  {
    if |a| == 0 {
      assert a + b == b;
    } else {
      assert (a + b)[1..] == a[1..] + b;
      match a[0]
      case AcquireLock =>
        if !held { LockReplayAppend(a[1..], b, true); }
      case ReleaseLock =>
        if held { LockReplayAppend(a[1..], b, false); }
      case RegisterReceiver => LockReplayAppend(a[1..], b, held);
      case UnregisterReceiver => LockReplayAppend(a[1..], b, held);
    }
  }

  lemma {:induction false} ReceiverReplayAppend(a: seq<Effect>, b: seq<Effect>, registered: bool)
    ensures ReceiverReplay(a + b, registered)
         == match ReceiverReplay(a, registered) case None => None case Some(h) => ReceiverReplay(b, h)
  {
    if |a| == 0 {
      assert a + b == b;
    } else {
      assert (a + b)[1..] == a[1..] + b;
      match a[0]
      case RegisterReceiver =>
        if !registered { ReceiverReplayAppend(a[1..], b, true); }
      case UnregisterReceiver => ReceiverReplayAppend(a[1..], b, false);
      case AcquireLock => ReceiverReplayAppend(a[1..], b, registered);
      case ReleaseLock => ReceiverReplayAppend(a[1..], b, registered);
    }
  }

  /** A log whose lock calls replay cleanly keeps the platform's outstanding
      acquisitions (acquires minus releases) in step with the handle: the
      difference is exactly the change in "a lock is held". */
  lemma {:induction false} LockReplayBalance(effects: seq<Effect>, held: bool, final: bool)
    requires LockReplay(effects, held) == Some(final)
    ensures Count(effects, AcquireLock) - Count(effects, ReleaseLock) == Indicator(final) - Indicator(held)
  {
    if |effects| > 0 {
      match effects[0]
      case AcquireLock => LockReplayBalance(effects[1..], true, final);
      case ReleaseLock => LockReplayBalance(effects[1..], false, final);
      case RegisterReceiver => LockReplayBalance(effects[1..], held, final);
      case UnregisterReceiver => LockReplayBalance(effects[1..], held, final);
    }
  }
}
