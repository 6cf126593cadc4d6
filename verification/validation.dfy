/** Model of internal/bank/validation/validation.go: the four capture groups a
    bank rule must produce. */
module Validation {

  const RequiredFields: seq<string> := ["value", "type", "place", "account"]

  /** Every key of `keys` is present in `fields` (values are not looked at). */
  function AllKeysPresent(keys: seq<string>, fields: map<string, string>): (b: bool)
    ensures b <==> forall i :: 0 <= i < |keys| ==> keys[i] in fields
    decreases |keys|
  {
    if |keys| == 0 then true else keys[0] in fields && AllKeysPresent(keys[1..], fields)
  }

  /** `ContainsAllRequiredFields`. */
  function ContainsAllRequiredFields(fields: map<string, string>): (b: bool)
    ensures b <==> "value" in fields && "type" in fields && "place" in fields && "account" in fields
    ensures |fields| == 0 ==> !b
  {
    AllKeysPresent(RequiredFields, fields)
  }

  /** Adding keys never turns an accepted map into a rejected one, and only the
      key set matters. */
  lemma RequiredFieldsMonotone(small: map<string, string>, big: map<string, string>)
    requires small.Keys <= big.Keys
    ensures ContainsAllRequiredFields(small) ==> ContainsAllRequiredFields(big)
  {
  }
}
