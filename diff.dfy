/**
 * Liquibase's per-object comparison result: one Difference per attribute whose
 * two sides disagree, held in a mutable ObjectDifferences collection.
 */
module Diff {
  import opened Wrappers
  import opened Structure

  /** An attribute value as the comparison holds it: Java null, a rule, or any other object. */
  datatype Value = Null | RuleValue(rule: ForeignKeyConstraintType) | OtherValue(text: string)

  /** One attribute whose reference-side and compared-side values differ. */
  datatype Difference = Difference(field: string, referenceValue: Value, comparedValue: Value)

  /** The cast `(ForeignKeyConstraintType) value` does not throw. */
  predicate CastsToRule(v: Value)
  {
    v.Null? || v.RuleValue?
  }

  /** The cast `(ForeignKeyConstraintType) value`: null stays null, a rule stays that rule. */
  function AsRule(v: Value): (r: Option<ForeignKeyConstraintType>)
    requires CastsToRule(v)
    ensures r.None? <==> v.Null?
    ensures r.Some? ==> v == RuleValue(r.value)
  {
    if v.Null? then None else Some(v.rule)
  }

  /** Every difference is filed under the attribute it is about. */
  ghost predicate KeyedByField(m: map<string, Difference>)
  {
    forall f :: f in m ==> m[f].field == f
  }

  class ObjectDifferences {
    var differences: map<string, Difference>

    ghost predicate Valid()
      reads this
    {
      KeyedByField(differences)
    }

    constructor ()
      ensures Valid() && differences == map[]
    {
      differences := map[];
    }

    method AddDifference(field: string, referenceValue: Value, comparedValue: Value)
      requires Valid()
      modifies this
      ensures Valid()
      ensures differences == old(differences)[field := Difference(field, referenceValue, comparedValue)]
    {
      differences := differences[field := Difference(field, referenceValue, comparedValue)];
    }

    method IsDifferent(field: string) returns (r: bool)
      ensures r <==> field in differences
    {
      r := field in differences;
    }

    method GetDifference(field: string) returns (d: Option<Difference>)
      requires Valid()
      ensures d.Some? <==> field in differences
      ensures d.Some? ==> d.value == differences[field] && d.value.field == field
    {
      d := if field in differences then Some(differences[field]) else None;
    }

    method RemoveDifference(field: string) returns (removed: bool)
      requires Valid()
      modifies this`differences
      ensures Valid()
      ensures differences == old(differences) - {field}
      ensures removed <==> field in old(differences)
    {
      removed := field in differences;
      differences := differences - {field};
    }

    method HasDifferences() returns (r: bool)
      ensures r <==> differences != map[]
    {
      r := |differences| != 0;
    }
  }
}
