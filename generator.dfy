/**
 * The changed-foreign-key generator used when one side of a comparison is a
 * Hibernate-derived database: it suppresses every foreign-key difference
 * except the on-delete and on-update rules the reference side declares, which
 * it folds into the add-foreign-key change produced by the generic generator.
 * The reference side is read whichever of the two sides is Hibernate.
 */
module OnDeleteEnabledGenerator {
  import opened Wrappers
  import opened Structure
  import opened Diff
  import opened ChangeModel

  /** Priorities of Liquibase's ChangeGenerator interface. */
  const PriorityNone: int := -1
  const PriorityDefault: int := 1
  const PriorityAdditional: int := 50

  /** The attributes of a foreign key whose differences this generator inspects. */
  const DeleteRule: string := "deleteRule"
  const UpdateRule: string := "updateRule"

  /** The priority with which this generator handles `objectType` (the database is not consulted). */
  function GetPriority(objectType: ObjectType): (p: int)
    ensures p == PriorityAdditional <==> IsAssignableFrom(ForeignKey, objectType)
    ensures p != PriorityAdditional ==> p == PriorityNone
  {
    if IsAssignableFrom(ForeignKey, objectType) then PriorityAdditional else PriorityNone
  }

  /** `referenceDatabase instanceof HibernateDatabase || comparisonDatabase instanceof HibernateDatabase`. */
  predicate IsHibernateComparison(referenceIsHibernate: bool, comparisonIsHibernate: bool)
  {
    referenceIsHibernate || comparisonIsHibernate
  }

  /** The generic generator produced the two-change drop-and-add output that rule handling expects. */
  predicate IsDropAndAdd(base: Option<seq<Change>>)
  {
    base.Some? && |base.value| == 2
  }

  /** The cast of the second change to an add-foreign-key change succeeds. */
  predicate SecondIsAddForeignKey(base: Option<seq<Change>>)
  {
    IsDropAndAdd(base) ==> base.value[1].AddForeignKeyConstraint?
  }

  /** The add-foreign-key change that rule handling writes to. */
  function AddFkOf(base: Option<seq<Change>>): AddForeignKeyConstraintChange
    requires IsDropAndAdd(base) && SecondIsAddForeignKey(base)
  {
    base.value[1].add
  }

  /** The objects rule handling may write to: the add-foreign-key change, when there is one. */
  function AddFkTargets(base: Option<seq<Change>>): set<AddForeignKeyConstraintChange>
  {
    if IsDropAndAdd(base) && base.value[1].AddForeignKeyConstraint? then {base.value[1].add} else {}
  }

  /** Both values of the `field` difference, if present, cast to a rule. */
  predicate RuleCastable(diffs: map<string, Difference>, field: string)
  {
    field in diffs ==> CastsToRule(diffs[field].referenceValue) && CastsToRule(diffs[field].comparedValue)
  }

  predicate RulesCastable(diffs: map<string, Difference>)
  {
    RuleCastable(diffs, DeleteRule) && RuleCastable(diffs, UpdateRule)
  }

  /** A reference-side rule names a real action: it is neither null nor importedKeyNoAction. */
  function IsConcreteRule(referenceAction: Option<ForeignKeyConstraintType>): (r: bool)
    ensures r <==> referenceAction in {Some(ImportedKeyCascade), Some(ImportedKeyRestrict),
                                       Some(ImportedKeySetNull), Some(ImportedKeySetDefault)}
  {
    referenceAction.Some? && referenceAction.value != ImportedKeyNoAction
  }

  /** The reference side of the `field` difference carries a real action. */
  predicate HasConcreteReferenceRule(diffs: map<string, Difference>, field: string)
    requires RuleCastable(diffs, field)
  {
    field in diffs && IsConcreteRule(AsRule(diffs[field].referenceValue))
  }

  /**
   * The differences after one rule attribute has been handled: the `field`
   * difference is dropped unless its reference side names a real action; every
   * other difference is kept as it was.
   */
  function ReconcileRule(diffs: map<string, Difference>, field: string): (r: map<string, Difference>)
    requires RuleCastable(diffs, field)
    ensures forall k :: k in r <==> k in diffs && (k == field ==> HasConcreteReferenceRule(diffs, field))
    ensures forall k :: k in r ==> r[k] == diffs[k]
  {
    if field in diffs && !HasConcreteReferenceRule(diffs, field) then diffs - {field} else diffs
  }

  /** The rule written into the add-foreign-key change for `field`, if any. */
  function FoldedRule(diffs: map<string, Difference>, field: string): (r: Option<ForeignKeyConstraintType>)
    requires RuleCastable(diffs, field)
    ensures r.Some? <==> HasConcreteReferenceRule(diffs, field)
    ensures r.Some? ==> diffs[field].referenceValue == RuleValue(r.value) && r.value != ImportedKeyNoAction
  {
    if HasConcreteReferenceRule(diffs, field) then AsRule(diffs[field].referenceValue) else None
  }

  lemma RuleFieldsDistinct()
    ensures DeleteRule != UpdateRule
  {
    assert DeleteRule[0] != UpdateRule[0];
  }

  /** The differences after the delete rule and then the update rule have been handled. */
  function ReconcileRules(diffs: map<string, Difference>): (r: map<string, Difference>)
    requires RulesCastable(diffs)
    ensures forall k :: k in r <==>
              k in diffs && (k == DeleteRule || k == UpdateRule ==> HasConcreteReferenceRule(diffs, k))
    ensures forall k :: k in r ==> r[k] == diffs[k]
  {
    RuleFieldsDistinct();
    ReconcileRule(ReconcileRule(diffs, DeleteRule), UpdateRule)
  }

  /** The differences after rule handling, which runs only on a drop-and-add base output. */
  function RuleHandled(base: Option<seq<Change>>, diffs: map<string, Difference>): (r: map<string, Difference>)
    requires IsDropAndAdd(base) ==> RulesCastable(diffs)
    ensures !IsDropAndAdd(base) ==> r == diffs
    ensures r.Keys <= diffs.Keys && forall k :: k in r ==> r[k] == diffs[k]
  {
    if IsDropAndAdd(base) then ReconcileRules(diffs) else diffs
  }

  /** What fixChanged returns, given the generic generator's output `base` and the differences it saw. */
  function FixChangedResult(hibernate: bool, base: Option<seq<Change>>, diffs: map<string, Difference>)
    : (r: Option<seq<Change>>)
    requires hibernate && IsDropAndAdd(base) ==> RulesCastable(diffs)
    ensures r == base || r == None
    ensures !hibernate ==> r == base
    ensures r.None? && base.Some? ==> hibernate && RuleHandled(base, diffs) == map[]
  {
    if !hibernate then base
    else if RuleHandled(base, diffs) == map[] then None
    else base
  }

  /**
   * fixChanged: post-process the generic generator's output `base` for one
   * changed foreign key whose attribute differences are `differences`.
   */
  method FixChanged(referenceIsHibernate: bool, comparisonIsHibernate: bool,
                    base: Option<seq<Change>>, differences: ObjectDifferences)
    returns (result: Option<seq<Change>>)
    requires differences.Valid()
    requires IsHibernateComparison(referenceIsHibernate, comparisonIsHibernate) ==> SecondIsAddForeignKey(base)
    requires IsHibernateComparison(referenceIsHibernate, comparisonIsHibernate) && IsDropAndAdd(base)
             ==> RulesCastable(differences.differences)
    modifies differences`differences, AddFkTargets(base)`onDelete, AddFkTargets(base)`onUpdate
    ensures differences.Valid()
    ensures result == FixChangedResult(IsHibernateComparison(referenceIsHibernate, comparisonIsHibernate),
                                       base, old(differences.differences))
    ensures differences.differences ==
              if IsHibernateComparison(referenceIsHibernate, comparisonIsHibernate)
              then RuleHandled(base, old(differences.differences))
              else old(differences.differences)
    ensures IsHibernateComparison(referenceIsHibernate, comparisonIsHibernate) && IsDropAndAdd(base) ==>
              && AddFkOf(base).onDelete == FoldedRule(old(differences.differences), DeleteRule).Or(old(AddFkOf(base).onDelete))
              && AddFkOf(base).onUpdate == FoldedRule(old(differences.differences), UpdateRule).Or(old(AddFkOf(base).onUpdate))
    ensures !(IsHibernateComparison(referenceIsHibernate, comparisonIsHibernate) && IsDropAndAdd(base)) ==>
              forall c :: c in AddFkTargets(base) ==> unchanged(c)
    ensures IsDropAndAdd(base) && base.value[0].AddForeignKeyConstraint? && base.value[0].add !in AddFkTargets(base) ==>
              unchanged(base.value[0].add)
  {
    if referenceIsHibernate || comparisonIsHibernate {
      var changes := base;
      if changes.Some? && |changes.value| == 2 {
        RuleFieldsDistinct();
        var addFkChange := changes.value[1].add;
        var isDeleteDifferent := differences.IsDifferent(DeleteRule);
        if isDeleteDifferent {
          var deleteRule := differences.GetDifference(DeleteRule);
          var hibernateDeleteAction := AsRule(deleteRule.value.referenceValue);
          var actualDeleteAction := AsRule(deleteRule.value.comparedValue);
          if hibernateDeleteAction.None? || hibernateDeleteAction.value == ImportedKeyNoAction {
            if actualDeleteAction.Some? && actualDeleteAction.value != ImportedKeyNoAction {
              // the compared side has an action the reference side does not declare: most likely added by hand
              var removed := differences.RemoveDifference(DeleteRule);
            } else {
              // no real change
              var removed := differences.RemoveDifference(DeleteRule);
            }
          } else {
            addFkChange.SetOnDelete(hibernateDeleteAction.value);
          }
        }
        assert differences.differences == ReconcileRule(old(differences.differences), DeleteRule);
        assert addFkChange.onDelete == FoldedRule(old(differences.differences), DeleteRule).Or(old(addFkChange.onDelete));
        var isUpdateDifferent := differences.IsDifferent(UpdateRule);
        if isUpdateDifferent {
          var updateRule := differences.GetDifference(UpdateRule);
          var hibernateUpdateAction := AsRule(updateRule.value.referenceValue);
          var actualUpdateAction := AsRule(updateRule.value.comparedValue);
          if hibernateUpdateAction.None? || hibernateUpdateAction.value == ImportedKeyNoAction {
            if actualUpdateAction.Some? && actualUpdateAction.value != ImportedKeyNoAction {
              var removed := differences.RemoveDifference(UpdateRule);
            } else {
              var removed := differences.RemoveDifference(UpdateRule);
            }
          } else {
            addFkChange.SetOnUpdate(hibernateUpdateAction.value);
          }
        }
        assert differences.differences == ReconcileRules(old(differences.differences));
      }
      var hasDifferences := differences.HasDifferences();
      if !hasDifferences {
        return None;
      }
      return changes;
    }
    return base;
  }
}
