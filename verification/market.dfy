/** Model of internal/market/market.go: the time-window rule that decides
    whether the stock and fund reports run, and the aggregation rules that
    tolerate partial failure.  Clock times are minutes; a "15:04" text parses
    to a minute of year 0, January 1, and a text that does not parse leaves
    Go's zero time (year 1, January 1), which lies 366 days later. */
module Market {
  import opened Wrappers

  const WindowMinutes: int := 7
  /** Minutes from year 0, January 1 to year 1, January 1 (year 0 is a leap year). */
  const ZeroTimeMinute: int := 366 * 24 * 60

  /** `inTimeSpan`. */
  function InTimeSpan(start: int, end: int, check: int): (b: bool)
    ensures start < end ==> (b <==> start <= check <= end)
    ensures start == end ==> (b <==> check == start)
    ensures start > end ==> (b <==> check >= start || check <= end)
  {
    if start < end then !(check < start) && !(check > end)
    else if start == end then check == start
    else !(start > check) || !(end < check)
  }

  /** The minute a configured time parses to; the zero time when it does not. */
  function From(frame: string, parseClock: string -> Option<int>): int
  {
    match parseClock(frame)
    case Some(m) => m
    case None => ZeroTimeMinute
  }

  /** Frame `i` opens a window, `[from, from + 7]`, holding `clock`. */
  predicate InWindow(times: seq<string>, i: int, clock: int, parseClock: string -> Option<int>)
  {
    0 <= i < |times| && From(times[i], parseClock) <= clock <= From(times[i], parseClock) + WindowMinutes
  }

  /** `shouldRun`: the loop over the configured times, stopping at the first
      window that holds the current clock minute. */
  function ShouldRun(times: seq<string>, clock: int, parseClock: string -> Option<int>): (b: bool)
    ensures b <==> exists i :: InWindow(times, i, clock, parseClock)
    decreases |times|
  {
    if |times| == 0 then false
    else if InTimeSpan(From(times[0], parseClock), From(times[0], parseClock) + WindowMinutes, clock) then
      assert InWindow(times, 0, clock, parseClock);
      true
    else
      assert !InWindow(times, 0, clock, parseClock);
      var rest := ShouldRun(times[1..], clock, parseClock);
      if rest then
        var i :| InWindow(times[1..], i, clock, parseClock);
        assert InWindow(times, i + 1, clock, parseClock);
        rest
      else
        forall i | InWindow(times, i, clock, parseClock) ensures false {
          assert InWindow(times[1..], i - 1, clock, parseClock);
        }
        rest
  }

  /** The window is not wrapped at midnight: a frame at 23:58 does not cover 00:02. */
  lemma NoMidnightWrap(parseClock: string -> Option<int>)
    requires parseClock("23:58") == Some(23 * 60 + 58)
    ensures !ShouldRun(["23:58"], 2, parseClock)
  {
  }

  /** A frame that does not parse never matches a clock minute of the day. */
  lemma {:induction false} UnparsableFrameNeverRuns(frame: string, clock: int, parseClock: string -> Option<int>)
    requires parseClock(frame).None? && 0 <= clock < 24 * 60
    ensures !ShouldRun([frame], clock, parseClock)
  {
    assert !InWindow([frame], 0, clock, parseClock);
  }

  /** The reports `Run` processes, in order. */
  datatype Report = Stocks | Funds

  /** `Run`: nothing without a Twilio account; otherwise stocks then funds,
      stopping at the first error. */
  function Run(twilioSid: string, stocksError: Option<string>, fundsError: Option<string>): (r: (Option<string>, seq<Report>))
    ensures twilioSid == "" ==> r == (None, [])
    ensures twilioSid != "" && stocksError.Some? ==> r == (stocksError, [Stocks])
    ensures twilioSid != "" && stocksError.None? ==> r == (fundsError, [Stocks, Funds])
  {
    if twilioSid == "" then (None, [])
    else if stocksError.Some? then (stocksError, [Stocks])
    else (fundsError, [Stocks, Funds])
  }

  const NoStocks: string := "was not able to get any stock information"
  const ClientPanic: string := "unable to create rapid api client"

  /** The loop of `getStocks` over the first `|names|` names: the values of the
      stocks whose query succeeded, a failed query being skipped. */
  function Values(names: seq<string>, quote: string -> Result<real>): map<string, real>
    decreases |names|
  {
    if |names| == 0 then map[]
    else
      var n := |names| - 1;
      var m := Values(names[..n], quote);
      if quote(names[n]).Ok? then m[names[n] := quote(names[n]).value] else m
  }

  /** Exactly the stocks whose query succeeded have a value, and it is the quoted one. */
  lemma {:induction false} ValuesSpec(names: seq<string>, quote: string -> Result<real>)
    ensures forall s :: s in Values(names, quote) <==> s in names && quote(s).Ok?
    ensures forall s :: s in Values(names, quote) ==> Values(names, quote)[s] == quote(s).value
    decreases |names|
  {
    if |names| > 0 {
      var n := |names| - 1;
      ValuesSpec(names[..n], quote);
      assert names == names[..n] + [names[n]];
    }
  }

  /** `getStocks`: a client that cannot be created panics; an error only when
      no stock could be quoted (which includes an empty list). */
  function GetStocks(clientCreated: bool, names: seq<string>, quote: string -> Result<real>): (r: Exec<Result<map<string, real>>>)
    ensures !clientCreated <==> r.Panicked?
    ensures r.Done? ==> (r.value.Err? <==> forall i :: 0 <= i < |names| ==> quote(names[i]).Err?)
    ensures r.Done? && r.value.Err? ==> r.value.error == NoStocks
    ensures r.Done? && r.value.Ok? ==> forall s :: s in r.value.value <==> s in names && quote(s).Ok?
    ensures r.Done? && r.value.Ok? ==> forall s :: s in r.value.value ==> r.value.value[s] == quote(s).value
  {
    if !clientCreated then Panicked(ClientPanic)
    else
      var values := Values(names, quote);
      ValuesSpec(names, quote);
      assert forall i :: 0 <= i < |names| && quote(names[i]).Ok? ==> names[i] in values;
      if |values| == 0 then
        Done(Err(NoStocks))
      else
        assert exists s :: s in values;
        Done(Ok(values))
  }

  /** `InvestmentFundBasicInfo`: the fund's id (its NIT) and name. */
  datatype BasicInfo = BasicInfo(nit: string, name: string)

  /** The fund index of `getInvestmentFunds`: name to basic information, a
      later fund of the same name replacing an earlier one. */
  function FundsMap(available: seq<BasicInfo>): map<string, BasicInfo>
    decreases |available|
  {
    if |available| == 0 then map[]
    else
      var n := |available| - 1;
      FundsMap(available[..n])[available[n].name := available[n]]
  }

  /** Fund `i` is the last one listed under `name`. */
  predicate LastNamed(available: seq<BasicInfo>, name: string, i: int)
  {
    0 <= i < |available| && available[i].name == name
    && forall j :: i < j < |available| ==> available[j].name != name
  }

  /** Every listed name is indexed, to the last fund listed under it. */
  lemma FundsMapSpec(available: seq<BasicInfo>)
    ensures forall name :: name in FundsMap(available) <==> exists i :: 0 <= i < |available| && available[i].name == name
    ensures forall name :: name in FundsMap(available) ==>
              exists i :: LastNamed(available, name, i) && FundsMap(available)[name] == available[i]
  {
    forall name ensures name in FundsMap(available) <==> exists i :: 0 <= i < |available| && available[i].name == name {
      FundsMapHas(available, name);
    }
    forall name | name in FundsMap(available)
      ensures exists i :: LastNamed(available, name, i) && FundsMap(available)[name] == available[i]
    {
      FundsMapLast(available, name);
    }
  }

  lemma {:induction false} FundsMapHas(available: seq<BasicInfo>, name: string)
    ensures name in FundsMap(available) <==> exists i :: 0 <= i < |available| && available[i].name == name
    decreases |available|
  {
    if |available| > 0 {
      var n := |available| - 1;
      var prefix := available[..n];
      FundsMapHas(prefix, name);
      if exists i :: 0 <= i < |available| && available[i].name == name {
        var i :| 0 <= i < |available| && available[i].name == name;
        if i < n { assert prefix[i].name == name; }
      }
      if name in FundsMap(prefix) {
        var i :| 0 <= i < n && prefix[i].name == name;
        assert available[i].name == name;
      }
    }
  }

  lemma {:induction false} FundsMapLast(available: seq<BasicInfo>, name: string)
    requires name in FundsMap(available)
    ensures exists i :: LastNamed(available, name, i) && FundsMap(available)[name] == available[i]
    decreases |available|
  {
    var n := |available| - 1;
    var prefix := available[..n];
    if name == available[n].name {
      assert LastNamed(available, name, n);
    } else {
      FundsMapLast(prefix, name);
      var i :| LastNamed(prefix, name, i) && FundsMap(prefix)[name] == prefix[i];
      assert LastNamed(available, name, i);
    }
  }

  function NotFound(name: string): string
  {
    "[" + name + "] not found in available funds"
  }

  /** `getInvestmentFundByName`: an unknown name is an error; a known one is
      fetched by its NIT. */
  function GetInvestmentFundByName<F>(index: map<string, BasicInfo>, name: string, byId: string -> Result<F>): (r: Result<F>)
    ensures name !in index ==> r == Err(NotFound(name))
    ensures name in index ==> r == byId(index[name].nit)
  {
    if name !in index then Err(NotFound(name)) else byId(index[name].nit)
  }

  const NoFunds: string := "no funds were able to be retrieved"

  /** The funds fetched, in request order, skipping the failures. */
  function Fetched<F>(index: map<string, BasicInfo>, names: seq<string>, byId: string -> Result<F>): seq<F>
    decreases |names|
  {
    if |names| == 0 then []
    else
      var n := |names| - 1;
      var r := GetInvestmentFundByName(index, names[n], byId);
      Fetched(index, names[..n], byId) + (if r.Ok? then [r.value] else [])
  }

  /** Nothing is fetched exactly when every request failed. */
  lemma {:induction false} FetchedEmpty<F>(index: map<string, BasicInfo>, names: seq<string>, byId: string -> Result<F>)
    ensures |Fetched(index, names, byId)| <= |names|
    ensures Fetched(index, names, byId) == [] <==>
            forall i :: 0 <= i < |names| ==> GetInvestmentFundByName(index, names[i], byId).Err?
    decreases |names|
  {
    if |names| > 0 {
      var n := |names| - 1;
      FetchedEmpty(index, names[..n], byId);
      assert forall i :: 0 <= i < n ==> names[..n][i] == names[i];
    }
  }

  /** `getInvestmentFunds`: the listing's error is returned; otherwise an
      error exactly when every requested fund failed (so also for no request),
      and else the funds that were fetched, in request order. */
  function GetInvestmentFunds<F>(available: Result<seq<BasicInfo>>, names: seq<string>, byId: string -> Result<F>): (r: Result<seq<F>>)
    ensures available.Err? ==> r == Err(available.error)
    ensures available.Ok? ==> (r.Err? <==> forall i :: 0 <= i < |names| ==>
                                 GetInvestmentFundByName(FundsMap(available.value), names[i], byId).Err?)
    ensures available.Ok? && r.Err? ==> r.error == NoFunds
    ensures r.Ok? ==> r.value == Fetched(FundsMap(available.value), names, byId) && |r.value| > 0
  {
    match available
    case Err(e) => Err(e)
    case Ok(list) =>
      var index := FundsMap(list);
      var funds := Fetched(index, names, byId);
      FetchedEmpty(index, names, byId);
      if |funds| == 0 then Err(NoFunds) else Ok(funds)
  }
}
