/** Model of internal/types/notification.go: the notification kind and the
    one-line rendering of a notification. */
module TypesNotification {
  import opened GoInts

  type NotificationType = Uint8

  const Success: NotificationType := 0
  const Failed: NotificationType := 1
  const Parse: NotificationType := 2

  /** `NotificationType.String`. */
  function String(n: NotificationType): (s: string)
    ensures n == Success <==> s == "success"
    ensures n == Failed <==> s == "failed"
    ensures n == Parse <==> s == "parse"
    ensures n > 2 <==> s == "unknown"
  {
    if n == Success then "success"
    else if n == Failed then "failed"
    else if n == Parse then "parse"
    else "unknown"
  }

  datatype Notification = Notification(kind: NotificationType, date: int, msg: string)

  const Separator: string := " || "

  /** `Notification.String`: "<date> || <msg> || <kind>".  The "2006-01-02"
      date layout is the abstract `dateText`. */
  function NotificationString(n: Notification, dateText: int -> string): (s: string)
    ensures var d := dateText(n.date); var k := String(n.kind);
      && |s| == |d| + |n.msg| + |k| + 2 * |Separator|
      && s[..|d|] == d
      && s[|d|..|d| + |Separator|] == Separator
      && s[|d| + |Separator|..|d| + |Separator| + |n.msg|] == n.msg
      && s[|d| + |Separator| + |n.msg|..|s| - |k|] == Separator
      && s[|s| - |k|..] == k
  {
    dateText(n.date) + Separator + n.msg + Separator + String(n.kind)
  }
}
