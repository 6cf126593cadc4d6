/** Model of internal/sync/notifications.go: the notifications of a run are
    counted by kind and sent as one message, a header followed by one line per
    notification.  The notification client is a collaborator; the messages it
    is asked to send are returned, and its error is the one value the result
    channel carries before it is closed. */
module SyncNotifications {
  import opened Wrappers
  import Text
  import TypesNotification

  /** How many notifications are of kind `k`. */
  function Count(nots: seq<TypesNotification.Notification>, k: TypesNotification.NotificationType): nat
    decreases |nots|
  {
    if |nots| == 0 then 0
    else
      var n := |nots| - 1;
      Count(nots[..n], k) + (if nots[n].kind == k then 1 else 0)
  }

  /** The three counters together count every notification of a known kind,
      and all of them exactly when no kind is unknown. */
  lemma {:induction false} CountsAddUp(nots: seq<TypesNotification.Notification>)
    ensures Count(nots, TypesNotification.Success) + Count(nots, TypesNotification.Failed)
            + Count(nots, TypesNotification.Parse) <= |nots|
    ensures (forall i :: 0 <= i < |nots| ==> nots[i].kind <= 2) <==>
            Count(nots, TypesNotification.Success) + Count(nots, TypesNotification.Failed)
            + Count(nots, TypesNotification.Parse) == |nots|
    decreases |nots|
  {
    if |nots| > 0 {
      var n := |nots| - 1;
      CountsAddUp(nots[..n]);
      assert forall i :: 0 <= i < n ==> nots[..n][i] == nots[i];
    }
  }

  lemma CountStep(nots: seq<TypesNotification.Notification>, i: nat, k: TypesNotification.NotificationType)
    requires i < |nots|
    ensures Count(nots[..i + 1], k) == Count(nots[..i], k) + (if nots[i].kind == k then 1 else 0)
  {
    assert nots[..i + 1][..i] == nots[..i];
  }

  /** A notification's line: `Notification.String`. */
  function Line(n: TypesNotification.Notification, dateText: int -> string): string
  {
    TypesNotification.NotificationString(n, dateText)
  }

  /** The context's version when it carries one, otherwise "dev". */
  function Version(ctxVersion: Option<string>): (v: string)
    ensures ctxVersion.None? ==> v == "dev"
    ensures ctxVersion.Some? ==> v == ctxVersion.value
  {
    if ctxVersion.Some? then ctxVersion.value else "dev"
  }

  function Header(version: string, succ: nat, fail: nat, parse: nat): string
  {
    version + " Txs: s:" + Text.NatToString(succ) + " / f:" + Text.NatToString(fail)
    + " / parse:" + Text.NatToString(parse)
  }

  /** The counting part of the loop of `SendNotifications`: each notification
      increments exactly the counter of its kind; other kinds increment none. */
  method Tally(nots: seq<TypesNotification.Notification>) returns (succ: nat, fail: nat, parse: nat)
    ensures succ == Count(nots, TypesNotification.Success)
    ensures fail == Count(nots, TypesNotification.Failed)
    ensures parse == Count(nots, TypesNotification.Parse)
  {
    succ, fail, parse := 0, 0, 0;
    var i := 0;
    while i < |nots|
      invariant 0 <= i <= |nots|
      invariant succ == Count(nots[..i], TypesNotification.Success)
      invariant fail == Count(nots[..i], TypesNotification.Failed)
      invariant parse == Count(nots[..i], TypesNotification.Parse)
    {
      CountStep(nots, i, TypesNotification.Success);
      CountStep(nots, i, TypesNotification.Failed);
      CountStep(nots, i, TypesNotification.Parse);
      var k := nots[i].kind;
      if k == TypesNotification.Success {
        succ := succ + 1;
      } else if k == TypesNotification.Failed {
        fail := fail + 1;
      } else if k == TypesNotification.Parse {
        parse := parse + 1;
      }
      i := i + 1;
    }
    assert nots[..|nots|] == nots;
  }

  /** `SendNotifications`: every notification, in arrival order, is counted
      and contributes its line; then the header and the lines are sent as one
      newline-joined message.  Nothing is sent when there were no
      notifications or it is a dry run; a send error is delivered once. */
  method SendNotifications(ctxVersion: Option<string>, dryRun: bool, nots: seq<TypesNotification.Notification>,
                           dateText: int -> string, sendError: Option<string>)
    returns (succ: nat, fail: nat, parse: nat, lines: seq<string>, sent: seq<string>, errors: seq<string>)
    ensures succ == Count(nots, TypesNotification.Success)
    ensures fail == Count(nots, TypesNotification.Failed)
    ensures parse == Count(nots, TypesNotification.Parse)
    ensures |lines| == |nots| && forall i :: 0 <= i < |nots| ==> lines[i] == Line(nots[i], dateText)
    ensures |nots| == 0 || dryRun ==> sent == [] && errors == []
    ensures |nots| > 0 && !dryRun ==>
              && sent == [Text.Join([Header(Version(ctxVersion), succ, fail, parse)] + lines, "\n")]
              && (sendError.None? ==> errors == [])
              && (sendError.Some? ==> errors == [sendError.value])
  {
    succ, fail, parse := Tally(nots);
    lines := seq(|nots|, i requires 0 <= i < |nots| => Line(nots[i], dateText));
    if |lines| == 0 || dryRun {
      return succ, fail, parse, lines, [], [];
    }
    var msg := Text.Join([Header(Version(ctxVersion), succ, fail, parse)] + lines, "\n");
    sent := [msg];
    errors := if sendError.Some? then [sendError.value] else [];
  }
}
