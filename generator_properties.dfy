/** What the generator's priority and its rule handling guarantee, over all inputs. */
module GeneratorProperties {
  import opened Wrappers
  import opened Structure
  import opened Diff
  import opened ChangeModel
  import opened OnDeleteEnabledGenerator

  /** The generator claims a type exactly when ForeignKey is in that type's superclass chain. */
  lemma {:induction false} PriorityFollowsSuperclassChain(t: ObjectType)
    ensures GetPriority(t) == PriorityAdditional <==> ForeignKey in SuperclassChain(t)
    ensures GetPriority(t) == PriorityNone <==> ForeignKey !in SuperclassChain(t)
  {
    AssignableIffInChain(ForeignKey, t);
  }

  /** Every type below a claimed type is claimed too. */
  lemma {:induction false} PriorityInherited(t: ObjectType, sub: ObjectType)
    requires GetPriority(t) == PriorityAdditional && IsAssignableFrom(t, sub)
    ensures GetPriority(sub) == PriorityAdditional
  {
    AssignableTransitive(ForeignKey, t, sub);
  }

  /** An example: the priorities of three of Liquibase's object types. */
  lemma PriorityOfCoreTypes()
    ensures GetPriority(ForeignKey) == PriorityAdditional > PriorityDefault
    ensures GetPriority(Table) == PriorityNone && GetPriority(Column) == PriorityNone
  {
  }

  /** Rule handling removes nothing but the two rule differences, and alters no surviving difference. */
  lemma OnlyRuleDifferencesRemoved(diffs: map<string, Difference>)
    requires RulesCastable(diffs)
    ensures ReconcileRules(diffs).Keys <= diffs.Keys
    ensures diffs.Keys - ReconcileRules(diffs).Keys <= {DeleteRule, UpdateRule}
    ensures forall k :: k in ReconcileRules(diffs) ==> ReconcileRules(diffs)[k] == diffs[k]
  {
  }

  /** A rule difference disappears exactly when its reference side is null or no-action. */
  lemma RuleDifferenceRemovedIff(diffs: map<string, Difference>, field: string)
    requires RulesCastable(diffs) && field in diffs
    requires field == DeleteRule || field == UpdateRule
    ensures field !in ReconcileRules(diffs) <==> !IsConcreteRule(AsRule(diffs[field].referenceValue))
    ensures field !in ReconcileRules(diffs) <==> FoldedRule(diffs, field).None?
  {
  }

  /** The two rule attributes are handled independently: their order does not matter. */
  lemma RuleOrderIrrelevant(diffs: map<string, Difference>)
    requires RulesCastable(diffs)
    ensures RuleCastable(ReconcileRule(diffs, UpdateRule), DeleteRule)
    ensures ReconcileRule(ReconcileRule(diffs, UpdateRule), DeleteRule) == ReconcileRules(diffs)
  {
  }

  /**
   * Handling the rules a second time changes nothing: no further difference is
   * removed and the same rules are folded into the change.
   */
  lemma ReconcileRulesIdempotent(diffs: map<string, Difference>)
    requires RulesCastable(diffs)
    ensures RulesCastable(ReconcileRules(diffs))
    ensures ReconcileRules(ReconcileRules(diffs)) == ReconcileRules(diffs)
    ensures FoldedRule(ReconcileRules(diffs), DeleteRule) == FoldedRule(diffs, DeleteRule)
    ensures FoldedRule(ReconcileRules(diffs), UpdateRule) == FoldedRule(diffs, UpdateRule)
  {
  }

  /** What the compared side holds for a rule never changes the outcome. */
  lemma ComparedValueIgnored(base: Option<seq<Change>>, diffs: map<string, Difference>, field: string, compared: Value)
    requires RulesCastable(diffs) && field in diffs && CastsToRule(compared)
    requires field == DeleteRule || field == UpdateRule
    ensures var changed := diffs[field := diffs[field].(comparedValue := compared)];
      && RulesCastable(changed)
      && FoldedRule(changed, DeleteRule) == FoldedRule(diffs, DeleteRule)
      && FoldedRule(changed, UpdateRule) == FoldedRule(diffs, UpdateRule)
      && FixChangedResult(true, base, changed) == FixChangedResult(true, base, diffs)
  {
  }

  /** In the Hibernate case the result is the base output itself or no change, and no change exactly when nothing differs any more. */
  lemma NoChangeIff(base: Option<seq<Change>>, diffs: map<string, Difference>)
    requires IsDropAndAdd(base) ==> RulesCastable(diffs)
    ensures FixChangedResult(true, base, diffs) == base || FixChangedResult(true, base, diffs) == None
    ensures FixChangedResult(true, base, diffs).None? <==> base.None? || RuleHandled(base, diffs) == map[]
  {
  }

  /** Without the drop-and-add shape the differences are left alone, but an empty set still means no change. */
  lemma SkippedRuleHandling(base: Option<seq<Change>>, diffs: map<string, Difference>)
    requires !IsDropAndAdd(base)
    ensures RuleHandled(base, diffs) == diffs
    ensures FixChangedResult(true, base, diffs) == if diffs == map[] then None else base
  {
  }

  /** A folded rule keeps its difference, so the change set for that key is never suppressed. */
  lemma FoldedRuleKeepsChanges(base: Option<seq<Change>>, diffs: map<string, Difference>)
    requires IsDropAndAdd(base) && RulesCastable(diffs)
    requires FoldedRule(diffs, DeleteRule).Some? || FoldedRule(diffs, UpdateRule).Some?
    ensures FixChangedResult(true, base, diffs) == base
  {
  }

  /** Any difference other than the two rules keeps the base output. */
  lemma OtherDifferenceKeepsChanges(base: Option<seq<Change>>, diffs: map<string, Difference>, field: string)
    requires IsDropAndAdd(base) ==> RulesCastable(diffs)
    requires field in diffs && field != DeleteRule && field != UpdateRule
    ensures FixChangedResult(true, base, diffs) == base
  {
  }

  /** When only rule attributes differ, the change set is dropped exactly when the reference side names no real rule. */
  lemma RuleOnlyDifferencesSuppressedIff(base: Option<seq<Change>>, diffs: map<string, Difference>)
    requires IsDropAndAdd(base) && RulesCastable(diffs)
    requires diffs.Keys <= {DeleteRule, UpdateRule}
    ensures FixChangedResult(true, base, diffs).None? <==>
              FoldedRule(diffs, DeleteRule).None? && FoldedRule(diffs, UpdateRule).None?
  {
  }
}
