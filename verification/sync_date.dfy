/** Model of internal/sync/date.go: the date saved after a run is the
    earliest of the current instant and the dates of the processed messages. */
module SyncDate {
  import opened Wrappers
  import BankTypes

  /** The loop of `saveLastExecutionDate` over the first `|msgs|` messages:
      a message date replaces the running earliest when strictly before it. */
  function Earliest(now: int, msgs: seq<BankTypes.Message>): int
    decreases |msgs|
  {
    if |msgs| == 0 then now
    else
      var e := Earliest(now, msgs[..|msgs| - 1]);
      if msgs[|msgs| - 1].date < e then msgs[|msgs| - 1].date else e
  }

  /** The earliest date is a lower bound of now and of every message date. */
  lemma {:induction false} EarliestIsLowerBound(now: int, msgs: seq<BankTypes.Message>)
    ensures Earliest(now, msgs) <= now
    ensures forall i :: 0 <= i < |msgs| ==> Earliest(now, msgs) <= msgs[i].date
    decreases |msgs|
  {
    if |msgs| > 0 {
      var n := |msgs| - 1;
      EarliestIsLowerBound(now, msgs[..n]);
      assert forall i :: 0 <= i < n ==> msgs[..n][i] == msgs[i];
    }
  }

  /** The earliest date is attained: it is now, or the date of a message. */
  lemma {:induction false} EarliestIsAttained(now: int, msgs: seq<BankTypes.Message>)
    ensures Earliest(now, msgs) == now || exists i :: 0 <= i < |msgs| && Earliest(now, msgs) == msgs[i].date
    decreases |msgs|
  {
    if |msgs| > 0 {
      var n := |msgs| - 1;
      EarliestIsAttained(now, msgs[..n]);
      if Earliest(now, msgs) != now && Earliest(now, msgs) != msgs[n].date {
        var i :| 0 <= i < n && Earliest(now, msgs[..n]) == msgs[..n][i].date;
        assert Earliest(now, msgs) == msgs[i].date;
      }
    }
  }

  /** `saveLastExecutionDate`: under dry-run nothing is saved and there is no
      error; otherwise the earliest date is handed to the date repository once
      and its answer returned. */
  method SaveLastExecutionDate(now: int, dryRun: bool, msgs: seq<BankTypes.Message>, saveError: Option<string>)
    returns (err: Option<string>, saved: seq<int>)
    ensures dryRun ==> err.None? && saved == []
    ensures !dryRun ==> err == saveError && |saved| == 1
    ensures !dryRun ==> saved[0] <= now && forall i :: 0 <= i < |msgs| ==> saved[0] <= msgs[i].date
    ensures !dryRun ==> saved[0] == now || exists i :: 0 <= i < |msgs| && saved[0] == msgs[i].date
  {
    var earliest := now;
    var k := 0;
    while k < |msgs|
      invariant 0 <= k <= |msgs|
      invariant earliest == Earliest(now, msgs[..k])
    {
      var t := msgs[k].date;
      assert msgs[..k + 1][..k] == msgs[..k];
      if t < earliest {
        earliest := t;
      }
      k := k + 1;
    }
    assert msgs[..|msgs|] == msgs;
    if dryRun {
      return None, [];
    }
    EarliestIsLowerBound(now, msgs);
    EarliestIsAttained(now, msgs);
    return saveError, [earliest];
  }
}
