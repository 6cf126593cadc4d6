/** The account-number prefix of an accounting account's display name, as both
    internal/sync/accounting.go (`getAccountsMapping`) and internal/sync/toshl.go
    (`buildAccountsCache`) read it with the pattern `^(?P<accounts>[0-9\s]+) `,
    and the token map built from it. */
module AccountNames {
  import opened Wrappers
  import Text

  /** A character of the class `[0-9\s]`; RE2's `\s` is tab, newline, form feed,
      carriage return and space. */
  predicate IsPrefixChar(c: char)
  {
    ('0' <= c <= '9') || c == ' ' || c == '\t' || c == '\n' || c == '\U{000C}' || c == '\r'
  }

  predicate AllPrefixChars(s: string)
  {
    forall i :: 0 <= i < |s| ==> IsPrefixChar(s[i])
  }

  /** The pattern can match with its group ending at index `k`: a non-empty run
      of class characters followed by a space. */
  predicate GroupEndsAt(name: string, k: int)
  {
    1 <= k < |name| && name[k] == ' ' && AllPrefixChars(name[..k])
  }

  /** The largest `j <= k` at which the group can end. */
  function LastGroupEnd(name: string, k: int): (r: Option<nat>)
    ensures r.None? <==> forall j :: j <= k ==> !GroupEndsAt(name, j)
    ensures r.Some? ==> r.value <= k && GroupEndsAt(name, r.value)
                        && forall j :: r.value < j <= k ==> !GroupEndsAt(name, j)
    decreases if k < 0 then 0 else k + 1
  {
    if k < 1 then None
    else if GroupEndsAt(name, k) then Some(k)
    else LastGroupEnd(name, k - 1)
  }

  /** The text the `accounts` group captures, if the pattern matches.  The
      quantifier is greedy, so the group ends at the last possible space. */
  function AccountPrefix(name: string): (r: Option<string>)
    ensures r.None? <==> forall k :: 0 <= k < |name| ==> !GroupEndsAt(name, k)
    ensures r.Some? ==> && |r.value| < |name| && r.value == name[..|r.value|]
                        && GroupEndsAt(name, |r.value|)
                        && forall k :: |r.value| < k < |name| ==> !GroupEndsAt(name, k)
  {
    match LastGroupEnd(name, |name| - 1)
    case None => None
    case Some(k) => Some(name[..k])
  }

  /** `strings.Split(prefix, " ")`: the account numbers a name stands for
      (possibly empty tokens); nothing when the pattern does not match. */
  function Tokens(name: string): (ts: seq<string>)
    ensures AccountPrefix(name).None? ==> ts == []
    ensures AccountPrefix(name).Some? ==> |ts| >= 1 && Text.Join(ts, " ") == AccountPrefix(name).value
    ensures forall i :: 0 <= i < |ts| ==> ' ' !in ts[i]
  {
    match AccountPrefix(name)
    case None => []
    case Some(p) => Text.SplitOn(p, ' ')
  }

  /** Entry `i` is the last one, in list order, whose key list holds `t`. */
  predicate LastOwner<V>(keyed: seq<(seq<string>, V)>, t: string, i: int)
  {
    && 0 <= i < |keyed|
    && t in keyed[i].0
    && forall j :: i < j < |keyed| ==> t !in keyed[j].0
  }

  /** Every key of every entry mapped to that entry's value, later entries
      overwriting earlier ones, as a Go loop assigning `m[k] = v` does. */
  function AssignAll<V>(keyed: seq<(seq<string>, V)>): map<string, V>
    decreases |keyed|
  {
    if |keyed| == 0 then map[]
    else
      var n := |keyed| - 1;
      AssignAll(keyed[..n]) + map t | t in keyed[n].0 :: keyed[n].1
  }

  /** One step of `AssignAll`: the last entry's keys take its value, every
      other key keeps the value the earlier entries gave it. */
  lemma AssignStep<V>(keyed: seq<(seq<string>, V)>)
    requires |keyed| > 0
    ensures var n := |keyed| - 1;
            forall t :: t in AssignAll(keyed) <==> t in AssignAll(keyed[..n]) || t in keyed[n].0
    ensures var n := |keyed| - 1;
            forall t :: t in keyed[n].0 ==> AssignAll(keyed)[t] == keyed[n].1
    ensures var n := |keyed| - 1;
            forall t :: t in AssignAll(keyed[..n]) && t !in keyed[n].0 ==> AssignAll(keyed)[t] == AssignAll(keyed[..n])[t]
  {
  }

  /** The keys of `AssignAll` are exactly the listed keys. */
  lemma {:induction false} AssignAllDomain<V>(keyed: seq<(seq<string>, V)>)
    ensures forall t :: t in AssignAll(keyed) <==> exists i :: 0 <= i < |keyed| && t in keyed[i].0
    decreases |keyed|
  {
    if |keyed| > 0 {
      var n := |keyed| - 1;
      var prefix := keyed[..n];
      AssignAllDomain(prefix);
      AssignStep(keyed);
      forall t ensures t in AssignAll(keyed) <==> exists i :: 0 <= i < |keyed| && t in keyed[i].0
      {
        if t in AssignAll(prefix) {
          var i :| 0 <= i < n && t in prefix[i].0;
          assert t in keyed[i].0;
        }
        if exists i :: 0 <= i < |keyed| && t in keyed[i].0 {
          var i :| 0 <= i < |keyed| && t in keyed[i].0;
          if i < n { assert t in prefix[i].0; }
        }
      }
    }
  }

  /** Each key of `AssignAll` maps to the value of the last entry listing it. */
  lemma {:induction false} AssignAllLast<V>(keyed: seq<(seq<string>, V)>)
    ensures forall t :: t in AssignAll(keyed) ==>
              exists i :: LastOwner(keyed, t, i) && AssignAll(keyed)[t] == keyed[i].1
    decreases |keyed|
  {
    if |keyed| > 0 {
      var n := |keyed| - 1;
      var prefix := keyed[..n];
      AssignAllLast(prefix);
      AssignStep(keyed);
      forall t | t in AssignAll(keyed)
        ensures exists i :: LastOwner(keyed, t, i) && AssignAll(keyed)[t] == keyed[i].1
      {
        if t in keyed[n].0 {
          assert LastOwner(keyed, t, n);
        } else {
          var i :| LastOwner(prefix, t, i) && AssignAll(prefix)[t] == prefix[i].1;
          assert LastOwner(keyed, t, i);
        }
      }
    }
  }

  /** Each entry's name replaced by its tokens. */
  function Tokenise<V>(entries: seq<(string, V)>): (keyed: seq<(seq<string>, V)>)
    ensures |keyed| == |entries|
    ensures forall i :: 0 <= i < |entries| ==> keyed[i] == (Tokens(entries[i].0), entries[i].1)
  {
    seq(|entries|, i requires 0 <= i < |entries| => (Tokens(entries[i].0), entries[i].1))
  }

  /** Every token of every entry's name mapped to that entry's value, later
      entries overwriting earlier ones. */
  function TokenMap<V>(entries: seq<(string, V)>): map<string, V>
  {
    AssignAll(Tokenise(entries))
  }

  /** The token map's keys are the tokens of the names, each mapped to the value
      of the last entry whose name yields it. */
  lemma TokenMapSpec<V>(entries: seq<(string, V)>)
    ensures forall t :: t in TokenMap(entries) <==> exists i :: 0 <= i < |entries| && t in Tokens(entries[i].0)
    ensures forall t :: t in TokenMap(entries) ==>
              exists i :: LastOwner(Tokenise(entries), t, i) && TokenMap(entries)[t] == entries[i].1
  {
    var keyed := Tokenise(entries);
    AssignAllDomain(keyed);
    AssignAllLast(keyed);
    forall t ensures t in TokenMap(entries) <==> exists i :: 0 <= i < |entries| && t in Tokens(entries[i].0)
    {
      if exists i :: 0 <= i < |entries| && t in Tokens(entries[i].0) {
        var i :| 0 <= i < |entries| && t in Tokens(entries[i].0);
        assert t in keyed[i].0;
      }
    }
  }

  /** A name with two numbers before its label. */
  lemma TwoNumbersPrefix()
    ensures AccountPrefix("1234 5678 Ahorros") == Some("1234 5678")
    ensures Tokens("1234 5678 Ahorros") == ["1234", "5678"]
  {
    var name := "1234 5678 Ahorros";
    assert GroupEndsAt(name, 9) by { assert name[..9] == "1234 5678"; }
    assert forall k :: 9 < k < |name| ==> !GroupEndsAt(name, k) by {
      forall k | 9 < k < |name| ensures !GroupEndsAt(name, k) {
        assert name[10] == 'A';
        if k > 10 { assert !IsPrefixChar(name[..k][10]); }
      }
    }
    assert LastGroupEnd(name, |name| - 1) == Some(9);
    assert name[..9] == "1234 5678";
    SplitTwoNumbers();
  }

  lemma SplitTwoNumbers()
    ensures Text.SplitOn("1234 5678", ' ') == ["1234", "5678"]
  {
    assert Text.SplitOn("", ' ') == [""];
    assert Text.SplitOn("8", ' ') == ["8"] by { assert "8"[1..] == ""; }
    assert Text.SplitOn("78", ' ') == ["78"] by { assert "78"[1..] == "8"; }
    assert Text.SplitOn("678", ' ') == ["678"] by { assert "678"[1..] == "78"; }
    assert Text.SplitOn("5678", ' ') == ["5678"] by { assert "5678"[1..] == "678"; }
    assert Text.SplitOn(" 5678", ' ') == ["", "5678"] by { assert " 5678"[1..] == "5678"; }
    assert Text.SplitOn("4 5678", ' ') == ["4", "5678"] by { assert "4 5678"[1..] == " 5678"; assert ['4'] + "" == "4"; }
    assert Text.SplitOn("34 5678", ' ') == ["34", "5678"] by { assert "34 5678"[1..] == "4 5678"; assert ['3'] + "4" == "34"; }
    assert Text.SplitOn("234 5678", ' ') == ["234", "5678"] by { assert "234 5678"[1..] == "34 5678"; assert ['2'] + "34" == "234"; }
    assert ['1'] + "234" == "1234";
    assert "1234 5678"[1..] == "234 5678";
  }

  /** A name that does not start with digits or spaces yields nothing. */
  lemma LabelFirstHasNoPrefix()
    ensures AccountPrefix("Ahorros 1234") == None
  {
    var name := "Ahorros 1234";
    forall k | 0 <= k < |name| ensures !GroupEndsAt(name, k) {
      if k >= 1 { assert !IsPrefixChar(name[..k][0]); }
    }
  }
}
