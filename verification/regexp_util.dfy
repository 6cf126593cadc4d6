/** Model of internal/util/regexp/regexp.go: ordered first-match selection over
    a list of (regexp, value) rules, and extraction of named capture groups.
    The regular-expression engine itself is not modelled: it is the
    uninterpreted parameter `engine`. */
module RegexpUtil {
  import opened Wrappers

  /** A compiled pattern: the pattern it was compiled from, and Go's
      `SubexpNames()` (index 0 stands for the whole match and is always "";
      unnamed groups are "" too).  Callers choose how a pattern is named: by
      its text, or by a name whose text they keep apart. */
  datatype Regexp<P> = Regexp(pattern: P, names: seq<string>)

  /** `FindStringSubmatch`: None when the pattern does not match (Go's nil),
      otherwise the submatch slice.  `Match` succeeds exactly when it is Some. */
  type Engine<!P> = (Regexp<P>, string) -> Option<seq<string>>

  predicate Matches<P>(engine: Engine<P>, r: Regexp, s: string)
  {
    engine(r, s).Some?
  }

  /** The submatch slice, with Go's nil read as the empty slice. */
  function Submatch<P>(engine: Engine<P>, r: Regexp, s: string): seq<string>
  {
    if engine(r, s).Some? then engine(r, s).value else []
  }

  /** What Go's engine guarantees: a match has one entry per group. */
  predicate Consistent<P>(engine: Engine<P>, r: Regexp, s: string)
  {
    engine(r, s).Some? ==> |engine(r, s).value| == |r.names|
  }

  /** `Match[V]`: a pattern paired with the value it selects. */
  datatype Match<P, V> = Match(regexp: Regexp<P>, value: V)

  /** Rule `i` matches `s` and no earlier rule does. */
  predicate IsFirstMatch<P, V>(engine: Engine<P>, rules: seq<Match<P, V>>, s: string, i: int)
  {
    && 0 <= i < |rules|
    && Matches(engine, rules[i].regexp, s)
    && forall j :: 0 <= j < i ==> !Matches(engine, rules[j].regexp, s)
  }

  /** Index of the first rule, in list order, that matches `s`. */
  function FirstMatchIndex<P, V>(engine: Engine<P>, rules: seq<Match<P, V>>, s: string): (r: Option<nat>)
    ensures r.Some? ==> IsFirstMatch(engine, rules, s, r.value)
    ensures r.None? <==> forall i :: 0 <= i < |rules| ==> !Matches(engine, rules[i].regexp, s)
    decreases |rules|
  {
    if |rules| == 0 then None
    else if Matches(engine, rules[0].regexp, s) then Some(0)
    else
      match FirstMatchIndex(engine, rules[1..], s)
      case None => None
      case Some(i) => Some(i + 1)
  }

  /** `MatchesAnyRegexp`: the first matching rule, or nothing (Go's `(nil, false)`). */
  function MatchesAnyRegexp<P, V>(engine: Engine<P>, rules: seq<Match<P, V>>, s: string): (r: Option<Match<P, V>>)
    ensures r.None? <==> forall i :: 0 <= i < |rules| ==> !Matches(engine, rules[i].regexp, s)
    ensures r.Some? ==> exists i :: IsFirstMatch(engine, rules, s, i) && rules[i] == r.value
  {
    match FirstMatchIndex(engine, rules, s)
    case None => None
    case Some(i) => Some(rules[i])
  }

  /** Each pattern wrapped into a rule with no value, as `StringMatchesAnyRegexp` does. */
  function Wrap<P>(rs: seq<Regexp<P>>): (ms: seq<Match<P, ()>>)
    ensures |ms| == |rs| && forall i :: 0 <= i < |rs| ==> ms[i].regexp == rs[i]
  {
    seq(|rs|, i requires 0 <= i < |rs| => Match(rs[i], ()))
  }

  /** `StringMatchesAnyRegexp`: first-match selection over bare patterns. */
  function StringMatchesAnyRegexp<P>(engine: Engine<P>, rs: seq<Regexp<P>>, s: string): (r: Option<Regexp<P>>)
    ensures r.None? <==> forall i :: 0 <= i < |rs| ==> !Matches(engine, rs[i], s)
    ensures r.Some? ==> exists i :: 0 <= i < |rs| && rs[i] == r.value && Matches(engine, rs[i], s)
                                    && forall j :: 0 <= j < i ==> !Matches(engine, rs[j], s)
  {
    var ms := Wrap(rs);
    match MatchesAnyRegexp(engine, ms, s)
    case None => None
    case Some(m) => Some(m.regexp)
  }

  /** Group `i` is copied into the result: not group 0, named, and inside the submatch. */
  predicate Captured(names: seq<string>, sub: seq<string>, i: int)
  {
    1 <= i < |names| && i < |sub| && names[i] != ""
  }

  /** No later captured group among the first `k` reuses the name of group `i`. */
  predicate LastCapture(names: seq<string>, sub: seq<string>, k: int, i: int)
    requires 0 <= i < |names|
  {
    forall j :: i < j < k && Captured(names, sub, j) ==> names[j] != names[i]
  }

  /** The loop over `SubexpNames()` after `k` iterations. */
  function Collect(names: seq<string>, sub: seq<string>, k: nat): (r: map<string, string>)
    requires k <= |names|
    ensures forall name :: name in r <==> exists i :: 0 <= i < k && Captured(names, sub, i) && names[i] == name
    ensures forall i :: 0 <= i < k && Captured(names, sub, i) && LastCapture(names, sub, k, i) ==>
              names[i] in r && r[names[i]] == sub[i]
    decreases k
  {
    if k == 0 then map[]
    else
      var j := k - 1;
      var prev := Collect(names, sub, j);
      var r := if Captured(names, sub, j) then prev[names[j] := sub[j]] else prev;
      CollectExtends(names, sub, k, prev, r);
      r
  }

  /** One iteration of the loop keeps both facts of `Collect`'s contract. */
  lemma CollectExtends(names: seq<string>, sub: seq<string>, k: nat, prev: map<string, string>, r: map<string, string>)
    requires 0 < k <= |names|
    requires forall name :: name in prev <==> exists i :: 0 <= i < k - 1 && Captured(names, sub, i) && names[i] == name
    requires forall i :: 0 <= i < k - 1 && Captured(names, sub, i) && LastCapture(names, sub, k - 1, i) ==>
               names[i] in prev && prev[names[i]] == sub[i]
    requires r == if Captured(names, sub, k - 1) then prev[names[k - 1] := sub[k - 1]] else prev
    ensures forall name :: name in r <==> exists i :: 0 <= i < k && Captured(names, sub, i) && names[i] == name
    ensures forall i :: 0 <= i < k && Captured(names, sub, i) && LastCapture(names, sub, k, i) ==>
              names[i] in r && r[names[i]] == sub[i]
  {
    var j := k - 1;
    forall name ensures name in r <==> exists i :: 0 <= i < k && Captured(names, sub, i) && names[i] == name {
      if name in r && name !in prev {
        assert Captured(names, sub, j) && names[j] == name;
      }
      if exists i :: 0 <= i < k && Captured(names, sub, i) && names[i] == name {
        var i :| 0 <= i < k && Captured(names, sub, i) && names[i] == name;
        if i < j {
          assert name in prev;
        }
      }
    }
    forall i | 0 <= i < k && Captured(names, sub, i) && LastCapture(names, sub, k, i)
      ensures names[i] in r && r[names[i]] == sub[i]
    {
      if i < j {
        assert LastCapture(names, sub, j, i);
        if Captured(names, sub, j) {
          assert names[j] != names[i];
        }
      }
    }
  }

  /** A captured group whose name no later group reuses keeps its text in the result. */
  lemma CollectLastCapture(names: seq<string>, sub: seq<string>, i: nat)
    requires Captured(names, sub, i)
    requires forall j :: i < j < |names| ==> names[j] != names[i]
    ensures names[i] in Collect(names, sub, |names|) && Collect(names, sub, |names|)[names[i]] == sub[i]
  {
    assert LastCapture(names, sub, |names|, i);
  }

  /** `ExtractFieldsWithMatch`: named group -> captured text. */
  function ExtractFieldsWithMatch<P, V>(engine: Engine<P>, s: string, m: Match<P, V>): (r: map<string, string>)
    ensures !Matches(engine, m.regexp, s) ==> r == map[]
    ensures "" !in r
    ensures forall name :: name in r <==>
              exists i :: 0 <= i < |m.regexp.names| && Captured(m.regexp.names, Submatch(engine, m.regexp, s), i)
                          && m.regexp.names[i] == name
  {
    Collect(m.regexp.names, Submatch(engine, m.regexp, s), |m.regexp.names|)
  }

  /** On a match by a well-behaved engine every named group is a key (its value may be ""). */
  lemma NamedGroupsAllPresent<P, V>(engine: Engine<P>, s: string, m: Match<P, V>)
    requires Consistent(engine, m.regexp, s) && Matches(engine, m.regexp, s)
    ensures forall i :: 1 <= i < |m.regexp.names| && m.regexp.names[i] != "" ==>
              m.regexp.names[i] in ExtractFieldsWithMatch(engine, s, m)
  {
    var sub := Submatch(engine, m.regexp, s);
    forall i | 1 <= i < |m.regexp.names| && m.regexp.names[i] != ""
      ensures m.regexp.names[i] in ExtractFieldsWithMatch(engine, s, m)
    {
      assert Captured(m.regexp.names, sub, i);
    }
  }

  /** Extraction by a pattern with four distinct named groups, evaluated. */
  lemma FourNamedGroups<P, V>(engine: Engine<P>, s: string, m: Match<P, V>, a: string, b: string, c: string, d: string)
    requires m.regexp.names == ["", a, b, c, d]
    requires a != "" && b != "" && c != "" && d != ""
    requires engine(m.regexp, s).Some? && |engine(m.regexp, s).value| == 5
    ensures var sub := engine(m.regexp, s).value;
            ExtractFieldsWithMatch(engine, s, m) == map[a := sub[1], b := sub[2], c := sub[3], d := sub[4]]
  {
    var names := m.regexp.names;
    var sub := engine(m.regexp, s).value;
    assert names[1] == a && names[2] == b && names[3] == c && names[4] == d;
    assert Collect(names, sub, 1) == map[] by {
      assert !Captured(names, sub, 0);
    }
    assert Collect(names, sub, 2) == map[a := sub[1]] by {
      CollectStep(names, sub, 2);
    }
    assert Collect(names, sub, 3) == map[a := sub[1], b := sub[2]] by {
      CollectStep(names, sub, 3);
    }
    assert Collect(names, sub, 4) == map[a := sub[1], b := sub[2], c := sub[3]] by {
      CollectStep(names, sub, 4);
    }
    CollectStep(names, sub, 5);
  }

  /** One more captured group adds (or replaces) its name's entry. */
  lemma CollectStep(names: seq<string>, sub: seq<string>, k: nat)
    requires 0 < k <= |names| && Captured(names, sub, k - 1)
    ensures Collect(names, sub, k) == Collect(names, sub, k - 1)[names[k - 1] := sub[k - 1]]
  {
  }

  /** `ExtractFields`: the same extraction for a bare pattern. */
  function ExtractFields<P>(engine: Engine<P>, s: string, r: Regexp<P>): (fields: map<string, string>)
    ensures fields == ExtractFieldsWithMatch(engine, s, Match(r, ()))
    ensures !Matches(engine, r, s) ==> fields == map[]
  {
    ExtractFieldsWithMatch(engine, s, Match(r, ()))
  }
}
