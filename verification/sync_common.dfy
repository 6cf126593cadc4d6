/** Model of internal/sync/common/common.go (the older helper package):
    first-match selection over bare patterns, named-group extraction, the
    required-field check and the process-wide commit version. */
module SyncCommon {
  import opened Wrappers
  import RegexpUtil
  import Validation

  /** Go's `(bool, *regexp.Regexp)` pair. */
  datatype Selection<P> = Selection(found: bool, regexp: Option<RegexpUtil.Regexp<P>>)

  /** `MatchesAnyRegexp`: `(true, r)` for the first matching `r`, else `(false, nil)`. */
  function MatchesAnyRegexp<P>(engine: RegexpUtil.Engine<P>, rs: seq<RegexpUtil.Regexp<P>>, s: string): (r: Selection<P>)
    ensures r.found <==> r.regexp.Some?
    ensures !r.found <==> forall i :: 0 <= i < |rs| ==> !RegexpUtil.Matches(engine, rs[i], s)
    ensures r.found ==> exists i :: 0 <= i < |rs| && rs[i] == r.regexp.value && RegexpUtil.Matches(engine, rs[i], s)
                                    && forall j :: 0 <= j < i ==> !RegexpUtil.Matches(engine, rs[j], s)
    decreases |rs|
  {
    if |rs| == 0 then Selection(false, None)
    else if RegexpUtil.Matches(engine, rs[0], s) then Selection(true, Some(rs[0]))
    else
      var rest := MatchesAnyRegexp(engine, rs[1..], s);
      if rest.found then
        assert RegexpUtil.Matches(engine, rs[1..][0], s) || exists i :: 0 <= i < |rs[1..]| && rs[1..][i] == rest.regexp.value;
        rest
      else rest
  }

  /** The older selector agrees with `StringMatchesAnyRegexp` of the newer utility package. */
  lemma {:induction false} AgreesWithStringMatchesAnyRegexp<P>(engine: RegexpUtil.Engine<P>, rs: seq<RegexpUtil.Regexp<P>>, s: string)
    ensures MatchesAnyRegexp(engine, rs, s).regexp == RegexpUtil.StringMatchesAnyRegexp(engine, rs, s)
  {
  }

  /** `ExtractFieldsStringWithRegexp`: named groups only, empty map on no match. */
  function ExtractFieldsStringWithRegexp<P>(engine: RegexpUtil.Engine<P>, s: string, r: RegexpUtil.Regexp<P>): (fields: map<string, string>)
    ensures !RegexpUtil.Matches(engine, r, s) ==> fields == map[]
    ensures "" !in fields
    ensures forall name :: name in fields <==>
              exists i :: 0 <= i < |r.names| && RegexpUtil.Captured(r.names, RegexpUtil.Submatch(engine, r, s), i)
                          && r.names[i] == name
  {
    RegexpUtil.ExtractFields(engine, s, r)
  }

  /** `ContainsAllRequiredFields` (same rule as the validation package). */
  function ContainsAllRequiredFields(fields: map<string, string>): (b: bool)
    ensures b <==> "value" in fields && "type" in fields && "place" in fields && "account" in fields
  {
    Validation.AllKeysPresent(Validation.RequiredFields, fields)
  }

  /** The package-level `version` variable. */
  datatype VersionState = VersionState(version: string)

  /** `PrintVersion`: logs (not modelled) and records the commit. */
  function PrintVersion(st: VersionState, commit: string): (st': VersionState)
    ensures GetVersion(st') == commit
  {
    VersionState(commit)
  }

  /** `GetVersion`: the commit last recorded ("" before any). */
  function GetVersion(st: VersionState): string
  {
    st.version
  }
}
