/** Model of internal/sync/notification.go: after registration, the
    responses are grouped per user and each user gets one SMS listing at most
    two of their transactions.  The SMS service is a collaborator whose errors
    are only logged, so they do not enter the model; the messages it would be
    asked to send are returned. */
module SyncNotification {
  import opened Wrappers
  import Text
  import BankTypes
  import Accounting

  /** `registerResponse`: the user's configuration and the registered transaction. */
  datatype Response = Response(cfg: Accounting.UserConfig, trx: BankTypes.TrxInfo)

  /** The time and `fmt` renderings the SMS uses: a "2006-01-02" day, a
      description quoted with `%.20q`, and an amount with `%.0f`. */
  datatype Formats = Formats(day: int -> string, quote20: string -> string, whole: int -> string)

  /** An SMS: destination number and text. */
  datatype Sms = Sms(to: string, text: string)

  const Limit: nat := 2

  /** The responses of the user with email `e`, in order. */
  function OfUser(responses: seq<Response>, e: string): seq<Response>
    decreases |responses|
  {
    if |responses| == 0 then []
    else
      var n := |responses| - 1;
      OfUser(responses[..n], e) + (if responses[n].cfg.email == e then [responses[n]] else [])
  }

  /** The loop of `notifyUsers` that groups the responses by email. */
  function Group(responses: seq<Response>): map<string, seq<Response>>
    decreases |responses|
  {
    if |responses| == 0 then map[]
    else
      var n := |responses| - 1;
      var m := Group(responses[..n]);
      var e := responses[n].cfg.email;
      m[e := (if e in m then m[e] else []) + [responses[n]]]
  }

  /** Every response lands in its user's group and nowhere else: the groups
      are keyed by the emails present, and each is that user's responses in
      their original order (so never empty). */
  lemma {:induction false} GroupSpec(responses: seq<Response>)
    ensures forall e :: e in Group(responses) <==> exists i :: 0 <= i < |responses| && responses[i].cfg.email == e
    ensures forall e :: e in Group(responses) ==> Group(responses)[e] == OfUser(responses, e) && |Group(responses)[e]| > 0
    decreases |responses|
  {
    if |responses| > 0 {
      var n := |responses| - 1;
      var prefix := responses[..n];
      GroupSpec(prefix);
      forall e ensures e in Group(responses) <==> exists i :: 0 <= i < |responses| && responses[i].cfg.email == e {
        if exists i :: 0 <= i < |responses| && responses[i].cfg.email == e {
          var i :| 0 <= i < |responses| && responses[i].cfg.email == e;
          if i < n { assert prefix[i].cfg.email == e; }
        }
        if e in Group(prefix) {
          var i :| 0 <= i < n && prefix[i].cfg.email == e;
          assert responses[i].cfg.email == e;
        }
      }
      forall e | e in Group(responses) && e !in Group(prefix)
        ensures OfUser(prefix, e) == []
      {
        OfUserAbsent(prefix, e);
      }
    }
  }

  lemma {:induction false} OfUserAbsent(responses: seq<Response>, e: string)
    requires forall i :: 0 <= i < |responses| ==> responses[i].cfg.email != e
    ensures OfUser(responses, e) == []
    decreases |responses|
  {
    if |responses| > 0 { OfUserAbsent(responses[..|responses| - 1], e); }
  }

  /** The version shown: its first three characters when the context carries
      one longer than three, otherwise "dev". */
  function Version(ctxVersion: Option<string>): (v: string)
    ensures ctxVersion.Some? && |ctxVersion.value| > 3 ==> v == ctxVersion.value[..3]
    ensures !(ctxVersion.Some? && |ctxVersion.value| > 3) ==> v == "dev"
    ensures |v| == 3
  {
    if ctxVersion.Some? && |ctxVersion.value| > 3 then ctxVersion.value[..3] else "dev"
  }

  /** The amount's sign: "-" exactly for expenses. */
  function Sign(kind: BankTypes.TrxType): (s: string)
    ensures s == "-" <==> kind == BankTypes.Expense
    ensures s != "-" ==> s == ""
  {
    if kind == BankTypes.Expense then "-" else ""
  }

  function Header(version: string, n: nat): string
  {
    version + " Se registraron " + Text.NatToString(n) + " transacciones"
  }

  function EntryLine(trx: BankTypes.TrxInfo, f: Formats): string
  {
    f.day(trx.date) + " " + f.quote20(trx.description) + " " + Sign(trx.kind) + "$" + f.whole(trx.value.hundredths)
  }

  /** The SMS lines: the header, one line for each of the first (at most two)
      responses, and "... y otras <rest>" when there are more. */
  function Lines(version: string, responses: seq<Response>, f: Formats): seq<string>
  {
    var shown := if |responses| < Limit then |responses| else Limit;
    [Header(version, |responses|)]
    + seq(shown, i requires 0 <= i < shown && shown <= |responses| => EntryLine(responses[i].trx, f))
    + (if |responses| > shown then ["... y otras " + Text.NatToString(|responses| - shown)] else [])
  }

  /** The text `notifyUserWithSMS` sends. */
  function SmsText(version: string, responses: seq<Response>, f: Formats): string
  {
    Text.Join(Lines(version, responses, f), "\n")
  }

  /** `notifyUserWithSMS`: the lines are built as the loop does and joined by
      newlines; the message goes to `toNumber` unless it is a dry run.  The
      send error is returned to the caller, which only logs it. */
  method NotifyUserWithSMS(ctxVersion: Option<string>, dryRun: bool, toNumber: string, responses: seq<Response>,
                           f: Formats, sendError: Option<string>)
    returns (err: Option<string>, lines: seq<string>, sent: seq<Sms>)
    ensures |lines| == 1 + (if |responses| < 2 then |responses| else 2) + (if |responses| > 2 then 1 else 0)
    ensures lines[0] == Version(ctxVersion) + " Se registraron " + Text.NatToString(|responses|) + " transacciones"
    ensures forall i :: 0 <= i < 2 && i < |responses| ==> lines[1 + i] == EntryLine(responses[i].trx, f)
    ensures |responses| > 2 ==> lines[3] == "... y otras " + Text.NatToString(|responses| - 2)
    ensures dryRun ==> err.None? && sent == []
    ensures !dryRun ==> err == sendError && sent == [Sms(toNumber, Text.Join(lines, "\n"))]
    ensures lines == Lines(Version(ctxVersion), responses, f)
  {
    var version := "dev";
    if ctxVersion.Some? && |ctxVersion.value| > 3 {
      version := ctxVersion.value[..3];
    }
    lines := [Header(version, |responses|)];
    var size := if Limit < |responses| then Limit else |responses|;
    var i := 0;
    while i < size
      invariant 0 <= i <= size
      invariant |lines| == 1 + i
      invariant lines[0] == Header(version, |responses|)
      invariant forall j :: 0 <= j < i ==> lines[1 + j] == EntryLine(responses[j].trx, f)
    {
      lines := lines + [EntryLine(responses[i].trx, f)];
      i := i + 1;
    }
    if |responses| > size {
      lines := lines + ["... y otras " + Text.NatToString(|responses| - size)];
    }
    if dryRun {
      return None, lines, [];
    }
    return sendError, lines, [Sms(toNumber, Text.Join(lines, "\n"))];
  }

  /** `notifyUsers`: one SMS per user, to the number of the user's first
      response, with the text built from all of the user's responses; nothing
      under dry-run; the result is always nil. */
  function NotifyUsers(ctxVersion: Option<string>, dryRun: bool, responses: seq<Response>, f: Formats): (r: (Option<string>, map<string, Sms>))
    ensures r.0.None?
    ensures dryRun ==> r.1 == map[]
    ensures !dryRun ==> forall e :: e in r.1 <==> exists i :: 0 <= i < |responses| && responses[i].cfg.email == e
    ensures !dryRun ==> forall e :: e in r.1 ==>
              && |OfUser(responses, e)| > 0
              && r.1[e] == Sms(OfUser(responses, e)[0].cfg.smsDeliveryNumber, SmsText(Version(ctxVersion), OfUser(responses, e), f))
  {
    if dryRun then (None, map[])
    else
      var g := Group(responses);
      GroupSpec(responses);
      (None, map e | e in g :: Sms(g[e][0].cfg.smsDeliveryNumber, SmsText(Version(ctxVersion), g[e], f)))
  }
}
