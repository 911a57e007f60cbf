/**
 The debugging-session predicate of the notification listener: the platform
 announces an active debugging bridge by posting a notification from its own
 system package on the developer-important channel.
 */
module Notifications {
  import opened Wrappers

  /** The package name of the platform's own system notifications. */
  const SystemPackage: string := "android"

  /** The channel on which the platform posts the "debugging connected" notice. */
  const DeveloperImportantChannel: string := "DEVELOPER_IMPORTANT"

  /** A status-bar notification, reduced to the two fields the service looks at.
      `channelId` is `None` for a notification posted without a channel. */
  datatype Notif = Notif(packageName: string, channelId: Option<string>)

  /** The one notification the service treats as "a debugging bridge is connected". */
  const AdbNotification: Notif := Notif(SystemPackage, Some(DeveloperImportantChannel))

  /** A notification matches exactly when it is the debugging notice: package
      "android" and channel "DEVELOPER_IMPORTANT"; a channel-less notification
      never matches. */
  function IsAdbConnectedNotification(n: Notif): (r: bool)
    ensures r <==> n == AdbNotification
  {
    n.packageName == SystemPackage && n.channelId == Some(DeveloperImportantChannel)
  }

  /** Whether some currently active notification is the debugging notice. */
  function AnyAdbConnected(active: seq<Notif>): (r: bool)
    ensures r <==> AdbNotification in active
    ensures r <==> exists i :: 0 <= i < |active| && IsAdbConnectedNotification(active[i])
  {
    if |active| == 0 then false
    else IsAdbConnectedNotification(active[0]) || AnyAdbConnected(active[1..])
  }
}
