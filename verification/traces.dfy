/**
 Properties of whole callback sequences: platform-call accounting, the
 connection flag as a function of the notification history, and the corners
 left by a listener disconnection that does not reset the flag.
 */
module Traces {
  import opened Wrappers
  import opened Notifications
  import opened WakeController
  import opened ListenerService

  /** The receiver is only ever registered while the flag is set. */
  predicate RegisteredOnlyWhenConnected(s: State)
  {
    s.wake.receiverRegistered ==> s.adbConnected
  }

  /** One callback's platform calls are consistent with its start and end
      states: no second acquire, no release without a lock, and (from a
      state where the receiver is only registered while connected) no second
      registration. */
  lemma StepAccounting(s: State, e: Event, p: Platform)
    requires RegisteredOnlyWhenConnected(s)
    requires Step(s, e, p).Success?
    ensures var o := Step(s, e, p).value;
      && LockReplay(o.effects, s.wake.lockHeld) == Some(o.after.wake.lockHeld)
      && ReceiverReplay(o.effects, s.wake.receiverRegistered) == Some(o.after.wake.receiverRegistered)
      && RegisteredOnlyWhenConnected(o.after)
  {
  }

  /** Running `a` and then `b` is running `a + b`. */
  lemma {:induction false} RunAppend(s: State, a: seq<Event>, b: seq<Event>, p: Platform)
    ensures Run(s, a + b, p)
         == match Run(s, a, p)
            case Failure(f) => Failure(f)
            case Success(first) =>
              match Run(first.after, b, p)
              case Failure(f) => Failure(f)
              case Success(rest) => Success(Outcome(rest.after, first.effects + rest.effects))
    decreases |a|
  {
    if |a| == 0 {
      assert a + b == b;
      match Run(s, b, p)
      case Failure(f) =>
      case Success(rest) => assert [] + rest.effects == rest.effects;
    } else {
      assert (a + b)[0] == a[0];
      assert (a + b)[1..] == a[1..] + b;
      match Step(s, a[0], p)
      case Failure(f) =>
      case Success(o) =>
        RunAppend(o.after, a[1..], b, p);
        match Run(o.after, a[1..], p)
        case Failure(f) =>
        case Success(mid) =>
          match Run(mid.after, b, p)
          case Failure(f) =>
          case Success(rest) =>
            assert o.effects + (mid.effects + rest.effects) == (o.effects + mid.effects) + rest.effects;
    }
  }

  /** Every successful run keeps the platform calls consistent with the states
      it starts and ends in, and keeps the receiver registered only while
      the flag is set. */
  lemma {:induction false} RunAccounting(s: State, events: seq<Event>, p: Platform)
    requires RegisteredOnlyWhenConnected(s)
    requires Run(s, events, p).Success?
    ensures var o := Run(s, events, p).value;
      && LockReplay(o.effects, s.wake.lockHeld) == Some(o.after.wake.lockHeld)
      && ReceiverReplay(o.effects, s.wake.receiverRegistered) == Some(o.after.wake.receiverRegistered)
      && RegisteredOnlyWhenConnected(o.after)
    decreases |events|
  {
    if |events| > 0 {
      var first := Step(s, events[0], p).value;
      StepAccounting(s, events[0], p);
      RunAccounting(first.after, events[1..], p);
      var rest := Run(first.after, events[1..], p).value;
      LockReplayAppend(first.effects, rest.effects, s.wake.lockHeld);
      ReceiverReplayAppend(first.effects, rest.effects, s.wake.receiverRegistered);
    }
  }

  /** From a fresh service: the platform never sees a second acquire, a
      release without a lock or a second registration, and the outstanding
      acquisitions (acquires minus releases) are 1 exactly when a lock is
      held and 0 otherwise. */
  lemma LockBalanceFromInitial(events: seq<Event>, p: Platform)
    requires Run(Initial, events, p).Success?
    ensures var o := Run(Initial, events, p).value;
      && LockReplay(o.effects, false) == Some(o.after.wake.lockHeld)
      && ReceiverReplay(o.effects, false) == Some(o.after.wake.receiverRegistered)
      && Count(o.effects, AcquireLock) - Count(o.effects, ReleaseLock)
         == (if o.after.wake.lockHeld then 1 else 0)
      && (o.after.wake.receiverRegistered ==> o.after.adbConnected)
  {
    RunAccounting(Initial, events, p);
    var o := Run(Initial, events, p).value;
    LockReplayBalance(o.effects, false, o.after.wake.lockHeld);
  }

  /** With the power service present no callback sequence fails. */
  lemma {:induction false} RunSucceedsWithPowerManager(s: State, events: seq<Event>, p: Platform)
    requires p.powerManagerAvailable
    ensures Run(s, events, p).Success?
    decreases |events|
  {
    if |events| > 0 {
      var e := events[0];
      assert Step(s, e, p).Success? by {
        match e
        case ListenerConnected(active) =>
        case ListenerDisconnected =>
        case Posted(n) =>
        case Removed(n) =>
        case ScreenBroadcast(action) =>
      }
      RunSucceedsWithPowerManager(Step(s, e, p).value.after, events[1..], p);
    }
  }

  /** Only notification-posted and notification-removed callbacks. */
  predicate NotificationEventsOnly(events: seq<Event>)
  {
    forall i :: 0 <= i < |events| ==> events[i].Posted? || events[i].Removed?
  }

  predicate IsMatchingEvent(e: Event)
  {
    (e.Posted? && e.posted == AdbNotification) || (e.Removed? && e.removed == AdbNotification)
  }

  /** The last event of `events` concerning the debugging notice, if any. */
  function LastMatching(events: seq<Event>): (r: Option<Event>)
    ensures r.Some? ==> IsMatchingEvent(r.value)
    ensures r.Some? ==>
      exists i :: 0 <= i < |events| && events[i] == r.value
        && forall j :: i < j < |events| ==> !IsMatchingEvent(events[j])
    ensures r.None? <==> forall i :: 0 <= i < |events| ==> !IsMatchingEvent(events[i])
  {
    if |events| == 0 then None
    else if IsMatchingEvent(events[|events| - 1]) then Some(events[|events| - 1])
    else LastMatching(events[..|events| - 1])
  }

  /** Over posted/removed callbacks only, the flag is set exactly when the
      last callback about the debugging notice was a posting; with no such
      callback it keeps its initial value. */
  lemma {:induction false} FlagFollowsLastMatch(s: State, events: seq<Event>, p: Platform)
    requires NotificationEventsOnly(events)
    requires Run(s, events, p).Success?
    ensures Run(s, events, p).value.after.adbConnected
         == match LastMatching(events) case None => s.adbConnected case Some(e) => e.Posted?
    decreases |events|
  {
    if |events| > 0 {
      var front := events[..|events| - 1];
      var last := events[|events| - 1];
      assert front + [last] == events;
      RunAppend(s, front, [last], p);
      assert NotificationEventsOnly(front) by {
        forall i | 0 <= i < |front| ensures front[i].Posted? || front[i].Removed? {
          assert front[i] == events[i];
        }
      }
      FlagFollowsLastMatch(s, front, p);
      var mid := Run(s, front, p).value;
      assert [last][1..] == [];
      assert last.Posted? || last.Removed?;
    }
  }

  /** From a fresh service the flag is "the last matching callback was a posting". */
  lemma FlagFromInitial(events: seq<Event>, p: Platform)
    requires NotificationEventsOnly(events)
    requires Run(Initial, events, p).Success?
    ensures Run(Initial, events, p).value.after.adbConnected
         <==> LastMatching(events).Some? && LastMatching(events).value.Posted?
  {
    FlagFollowsLastMatch(Initial, events, p);
  }

  /** Listener connection from a fresh service: connected, locked and
      registered exactly when the debugging notice is among the active
      notifications, acquiring before registering. */
  lemma ConnectFromInitial(active: seq<Notif>, p: Platform)
    requires Run(Initial, [ListenerConnected(active)], p).Success?
    ensures var o := Run(Initial, [ListenerConnected(active)], p).value;
      if AdbNotification in active then
        o == Outcome(State(true, Wake(true, true)), [AcquireLock, RegisterReceiver])
      else
        o == Outcome(Initial, [])
  {
  }

  /** While connected with a lock held, the screen turning off and on again
      releases and re-acquires the lock and otherwise changes nothing. */
  lemma ScreenOffOnCycle(s: State, p: Platform)
    requires s.adbConnected && s.wake.lockHeld && p.powerManagerAvailable
    ensures Run(s, [ScreenBroadcast(ActionScreenOff), ScreenBroadcast(ActionScreenOn)], p)
         == Success(Outcome(s, [ReleaseLock, AcquireLock]))
  {
    var events := [ScreenBroadcast(ActionScreenOff), ScreenBroadcast(ActionScreenOn)];
    var off := OnScreenTurnedOff(s);
    assert off.effects == [ReleaseLock];
    assert events[1..] == [ScreenBroadcast(ActionScreenOn)];
    assert ActionScreenOff != ActionScreenOn;
    assert Step(s, events[0], p) == Success(off);
    var on := OnScreenTurnedOn(off.after, p).value;
    assert on.effects == [AcquireLock] && on.after == s;
    assert Step(off.after, events[1], p) == Success(on);
    assert Run(on.after, [], p) == Success(Outcome(on.after, []));
    assert Run(off.after, events[1..], p) == Success(Outcome(s, [AcquireLock] + []));
    assert off.effects + ([AcquireLock] + []) == [ReleaseLock, AcquireLock];
  }

  /** A listener disconnection releases everything but leaves the flag set,
      so a later posting of the debugging notice, or a reconnection that finds
      it active, hits the unchanged-value case and acquires no lock. */
  lemma ReconnectDoesNotReacquire(s: State, active: seq<Notif>, p: Platform)
    requires s.adbConnected
    requires AdbNotification in active
    ensures var d := OnListenerDisconnected(s).after;
      && d.adbConnected && !d.wake.lockHeld && !d.wake.receiverRegistered
      && Step(d, Posted(AdbNotification), p) == Success(Outcome(d, []))
      && Step(d, ListenerConnected(active), p) == Success(Outcome(d, []))
  {
  }

  /** A removal of the debugging notice after a listener disconnection
      unregisters the receiver a second time. */
  lemma SecondUnregisterAfterDisconnect(s: State, p: Platform)
    requires s.adbConnected
    ensures Run(s, [ListenerDisconnected, Removed(AdbNotification)], p).Success?
    ensures var o := Run(s, [ListenerDisconnected, Removed(AdbNotification)], p).value;
      && o.after == State(false, Wake(false, false))
      && o.effects == [UnregisterReceiver] + (if s.wake.lockHeld then [ReleaseLock] else []) + [UnregisterReceiver]
      && Count(o.effects, UnregisterReceiver) == 2
  {
    var events := [ListenerDisconnected, Removed(AdbNotification)];
    var d := OnListenerDisconnected(s);
    var r := OnNotificationRemoved(d.after, AdbNotification);
    assert r == Outcome(State(false, Wake(false, false)), [UnregisterReceiver]);
    assert events[1..] == [Removed(AdbNotification)];
    assert Run(r.after, [], p) == Success(Outcome(r.after, []));
    assert Run(d.after, events[1..], p) == Success(Outcome(r.after, [UnregisterReceiver] + []));
    var effects := [UnregisterReceiver] + (if s.wake.lockHeld then [ReleaseLock] else []) + [UnregisterReceiver];
    assert Count(effects, UnregisterReceiver) == 2 by {
      if s.wake.lockHeld {
        assert effects == [UnregisterReceiver, ReleaseLock, UnregisterReceiver];
        assert effects[1..] == [ReleaseLock, UnregisterReceiver];
        assert effects[1..][1..] == [UnregisterReceiver];
        assert Count([UnregisterReceiver], UnregisterReceiver) == 1 by {
          assert [UnregisterReceiver][1..] == [];
        }
      } else {
        assert effects == [UnregisterReceiver, UnregisterReceiver];
        assert effects[1..] == [UnregisterReceiver];
        assert Count([UnregisterReceiver], UnregisterReceiver) == 1 by {
          assert [UnregisterReceiver][1..] == [];
        }
      }
    }
  }

  /** A listener disconnection of a fresh service unregisters a receiver that
      was never registered. */
  lemma DisconnectFromInitialUnregisters(p: Platform)
    ensures Run(Initial, [ListenerDisconnected], p) == Success(Outcome(Initial, [UnregisterReceiver]))
  {
    var d := OnListenerDisconnected(Initial);
    assert d == Outcome(Initial, [UnregisterReceiver]);
    assert Run(Initial, [ListenerDisconnected], p)
        == Success(Outcome(Initial, [UnregisterReceiver] + []));
  }

  /** A listener disconnection followed by a reconnection that does not find
      the debugging notice unregisters the receiver a second time. */
  lemma SecondUnregisterOnReconnectWithoutNotice(s: State, active: seq<Notif>, p: Platform)
    requires s.adbConnected
    requires AdbNotification !in active
    ensures Run(s, [ListenerDisconnected, ListenerConnected(active)], p).Success?
    ensures var o := Run(s, [ListenerDisconnected, ListenerConnected(active)], p).value;
      && o.after == State(false, Wake(false, false))
      && o.effects == [UnregisterReceiver] + (if s.wake.lockHeld then [ReleaseLock] else []) + [UnregisterReceiver]
  {
    var events := [ListenerDisconnected, ListenerConnected(active)];
    var d := OnListenerDisconnected(s);
    var c := OnListenerConnected(d.after, active, p).value;
    assert c == Outcome(State(false, Wake(false, false)), [UnregisterReceiver]);
    assert events[1..] == [ListenerConnected(active)];
    assert Run(c.after, [], p) == Success(Outcome(c.after, []));
    assert Run(d.after, events[1..], p) == Success(Outcome(c.after, [UnregisterReceiver] + []));
  }
}
