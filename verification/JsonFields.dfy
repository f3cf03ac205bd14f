/** Configuration objects as maps from field names to JSON values, compared by their encoded text. */
module JsonFields {

  /** A value, known by its JSON text; some values cannot be encoded. */
  datatype Value = Json(text: string) | NotEncodable

  type Fields = map<string, Value>

  /** `reflectJSONEqual`: a value that cannot be encoded equals nothing, not even itself. */
  predicate JsonEqual(left: Value, right: Value) {
    left.Json? && right.Json? && left.text == right.text
  }

  /** Every desired field outside `skip` is present and equal. */
  predicate FieldsMatch(desired: Fields, observed: Fields, skip: set<string>) {
    forall k :: k in desired && k !in skip ==> k in observed && JsonEqual(desired[k], observed[k])
  }

  /**
   The loop of `systemDesiredFieldsMatch` (nothing skipped) and of `mfaFieldsMatch` (the secret
   fields skipped): a map is visited in no particular order and the answer does not depend on it.
   */
  method DesiredFieldsMatch(desired: Fields, observed: Fields, skip: set<string>) returns (matching: bool)
    ensures matching <==> FieldsMatch(desired, observed, skip)
    ensures matching <==>
              forall k :: k in desired && k !in skip ==> k in observed && desired[k].Json? && observed[k] == desired[k]
  {
    var left := desired.Keys;
    while left != {}
      invariant left <= desired.Keys
      invariant forall k :: k in desired && k !in left && k !in skip ==> k in observed && JsonEqual(desired[k], observed[k])
      decreases |left|
    {
      var k :| k in left;
      left := left - {k};
      if k !in skip && (k !in observed || !JsonEqual(desired[k], observed[k])) { return false; }
    }
    matching := true;
  }
}
