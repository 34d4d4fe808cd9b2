# Hibernate foreign-key rule reconciliation, in Dafny

This project models `OnDeleteEnabledChangedForeignKeyChangeGenerator` of the
liquibase-hibernate extension. Liquibase calls this generator for a foreign
key that exists on both sides of a schema comparison but differs. When either
side is a Hibernate-derived database, the generator post-processes the output
of Liquibase's generic changed-foreign-key generator:

- a `deleteRule` or `updateRule` difference whose reference-side value is null
  or `importedKeyNoAction` is dropped, whatever the compared side holds;
- a concrete reference-side rule is written into the `AddForeignKeyConstraintChange`
  (the second of the two generic changes), and its difference stays in place;
- if no difference is left, the generator reports "no change" (`null`).

The generator always reads the reference side of a rule difference, whichever
of the two databases is the Hibernate one. Its variable names assume Hibernate
is the reference side. When only the compared side is Hibernate, the rules it
copies or drops are therefore the live database's.

It also answers Liquibase's priority query: types that are `ForeignKey` or
extend it get the "additional" priority, every other type "none".

Files:

- `wrappers.dfy`: `Option`, standing for Java's nullable references.
- `structure.dfy`: schema-object types as superclass chains, `isAssignableFrom`,
  and the JDBC foreign-key rules (`ForeignKeyConstraintType`).
- `diff.dfy`: attribute values, `Difference`, and the mutable `ObjectDifferences`
  class over a `map` from attribute name to difference.
- `change_model.dfy`: the mutable `AddForeignKeyConstraintChange` class and the
  `Change` elements of a generator's output.
- `generator.dfy`: `GetPriority`, the value-level specification of the rule
  handling (`ReconcileRule`, `FoldedRule`, `ReconcileRules`, `RuleHandled`,
  `FixChangedResult`) and the imperative `FixChanged`, proved against it.
- `generator_properties.dfy`: all-input lemmas about the priority and the rule handling,
  and one example lemma (`PriorityOfCoreTypes`) on three concrete object types.
- `scenarios.dfy`: callers of `FixChanged` on concrete comparisons, showing what
  its contract lets a caller conclude.

The generic generator's output is the parameter `base` (`None` for Java's
`null`), and the two `instanceof HibernateDatabase` tests are the booleans
`referenceIsHibernate` and `comparisonIsHibernate`.

## Model

| member | source | states |
|---|---|---|
| OnDeleteEnabledGenerator.GetPriority | src/main/java/liquibase/ext/hibernate/diff/OnDeleteEnabledChangedForeignKeyChangeGenerator.java:24-29 | the priority is "additional" exactly when ForeignKey is assignable from the type, and "none" otherwise |
| GeneratorProperties.PriorityFollowsSuperclassChain | src/main/java/liquibase/ext/hibernate/diff/OnDeleteEnabledChangedForeignKeyChangeGenerator.java:24-29 | the generator claims a type exactly when ForeignKey occurs in that type's superclass chain |
| GeneratorProperties.PriorityInherited | src/main/java/liquibase/ext/hibernate/diff/OnDeleteEnabledChangedForeignKeyChangeGenerator.java:25-26 | every subtype of a claimed type is claimed as well |
| GeneratorProperties.PriorityOfCoreTypes | src/main/java/liquibase/ext/hibernate/diff/OnDeleteEnabledChangedForeignKeyChangeGenerator.java:24-29 | ForeignKey outranks the default priority; Table and Column are not claimed |
| Structure.IsAssignableFrom | src/main/java/liquibase/ext/hibernate/diff/OnDeleteEnabledChangedForeignKeyChangeGenerator.java:25 | a type assignable to another lies at least as deep in the class hierarchy |
| Structure.AssignableIffInChain | src/main/java/liquibase/ext/hibernate/diff/OnDeleteEnabledChangedForeignKeyChangeGenerator.java:25 | isAssignableFrom holds exactly when the supertype is in the subtype's superclass chain |
| Structure.AssignableTransitive | src/main/java/liquibase/ext/hibernate/diff/OnDeleteEnabledChangedForeignKeyChangeGenerator.java:25 | assignability is transitive, so subclasses of subclasses of ForeignKey count |
| Diff.AsRule | src/main/java/liquibase/ext/hibernate/diff/OnDeleteEnabledChangedForeignKeyChangeGenerator.java:43-44 | the cast to ForeignKeyConstraintType maps null to no rule and a rule value to that rule |
| Diff.ObjectDifferences.IsDifferent | src/main/java/liquibase/ext/hibernate/diff/OnDeleteEnabledChangedForeignKeyChangeGenerator.java:41 | an attribute differs exactly when the set holds a difference for it |
| Diff.ObjectDifferences.GetDifference | src/main/java/liquibase/ext/hibernate/diff/OnDeleteEnabledChangedForeignKeyChangeGenerator.java:42 | the difference filed under the attribute, or null when there is none |
| Diff.ObjectDifferences.RemoveDifference | src/main/java/liquibase/ext/hibernate/diff/OnDeleteEnabledChangedForeignKeyChangeGenerator.java:48 | removes exactly that attribute's difference and keeps every difference filed under its own attribute |
| Diff.ObjectDifferences.HasDifferences | src/main/java/liquibase/ext/hibernate/diff/OnDeleteEnabledChangedForeignKeyChangeGenerator.java:75 | true exactly when some difference is left |
| ChangeModel.AddForeignKeyConstraintChange.SetOnDelete | src/main/java/liquibase/ext/hibernate/diff/OnDeleteEnabledChangedForeignKeyChangeGenerator.java:54 | sets the on-delete rule and writes no other field |
| ChangeModel.AddForeignKeyConstraintChange.SetOnUpdate | src/main/java/liquibase/ext/hibernate/diff/OnDeleteEnabledChangedForeignKeyChangeGenerator.java:70 | sets the on-update rule and writes no other field |
| OnDeleteEnabledGenerator.IsConcreteRule | src/main/java/liquibase/ext/hibernate/diff/OnDeleteEnabledChangedForeignKeyChangeGenerator.java:45 | a reference-side rule is concrete exactly when it is cascade, restrict, set null or set default, so null and no-action are not |
| OnDeleteEnabledGenerator.ReconcileRule | src/main/java/liquibase/ext/hibernate/diff/OnDeleteEnabledChangedForeignKeyChangeGenerator.java:41-56 | a rule difference survives exactly when its reference-side value is a concrete rule; every other difference survives unchanged |
| OnDeleteEnabledGenerator.FoldedRule | src/main/java/liquibase/ext/hibernate/diff/OnDeleteEnabledChangedForeignKeyChangeGenerator.java:53-55 | a rule is folded exactly when the reference-side value is a concrete rule, and it is that rule, never no-action |
| OnDeleteEnabledGenerator.ReconcileRules | src/main/java/liquibase/ext/hibernate/diff/OnDeleteEnabledChangedForeignKeyChangeGenerator.java:41-72 | after both rule blocks a difference survives exactly when it is not a rule difference or its reference side is a concrete rule, and survivors are unchanged |
| OnDeleteEnabledGenerator.RuleHandled | src/main/java/liquibase/ext/hibernate/diff/OnDeleteEnabledChangedForeignKeyChangeGenerator.java:39-73 | rule handling leaves the differences untouched unless the generic output is two changes, and never adds or alters a difference |
| OnDeleteEnabledGenerator.FixChangedResult | src/main/java/liquibase/ext/hibernate/diff/OnDeleteEnabledChangedForeignKeyChangeGenerator.java:34-82 | the result is always the generic output or null; without Hibernate it is the generic output; null from a non-null output means Hibernate is involved and no difference is left |
| OnDeleteEnabledGenerator.FixChanged | src/main/java/liquibase/ext/hibernate/diff/OnDeleteEnabledChangedForeignKeyChangeGenerator.java:31-83 | without Hibernate: returns the generic output and changes nothing; with Hibernate: on a two-change output removes the rule differences whose reference value is null/no-action, writes concrete reference-side rules into the second change's onDelete/onUpdate and leaves their differences, then returns null exactly when no difference is left and otherwise the same changes; only the differences and those two fields of the second change are written, and a distinct first change is unchanged |
| GeneratorProperties.OnlyRuleDifferencesRemoved | src/main/java/liquibase/ext/hibernate/diff/OnDeleteEnabledChangedForeignKeyChangeGenerator.java:40-72 | rule handling removes no difference but deleteRule and updateRule and alters none it keeps |
| GeneratorProperties.RuleDifferenceRemovedIff | src/main/java/liquibase/ext/hibernate/diff/OnDeleteEnabledChangedForeignKeyChangeGenerator.java:45-52 | a present rule difference is removed exactly when its reference-side value is null or no-action, that is, exactly when no rule is folded |
| GeneratorProperties.ComparedValueIgnored | src/main/java/liquibase/ext/hibernate/diff/OnDeleteEnabledChangedForeignKeyChangeGenerator.java:46-52 | the compared-side value of a rule changes neither the folded rules nor the result, since both inner branches remove the difference |
| GeneratorProperties.RuleOrderIrrelevant | src/main/java/liquibase/ext/hibernate/diff/OnDeleteEnabledChangedForeignKeyChangeGenerator.java:41-72 | handling the update rule before the delete rule leaves the same differences |
| GeneratorProperties.ReconcileRulesIdempotent | src/main/java/liquibase/ext/hibernate/diff/OnDeleteEnabledChangedForeignKeyChangeGenerator.java:41-72 | handling the rules again removes nothing more and folds the same rules |
| GeneratorProperties.NoChangeIff | src/main/java/liquibase/ext/hibernate/diff/OnDeleteEnabledChangedForeignKeyChangeGenerator.java:75-79 | in the Hibernate case the result is the generic output or null, and null exactly when the generic output was null or no difference is left |
| GeneratorProperties.SkippedRuleHandling | src/main/java/liquibase/ext/hibernate/diff/OnDeleteEnabledChangedForeignKeyChangeGenerator.java:39 | an output that is not two changes leaves the differences alone, yet an empty set still yields null |
| GeneratorProperties.FoldedRuleKeepsChanges | src/main/java/liquibase/ext/hibernate/diff/OnDeleteEnabledChangedForeignKeyChangeGenerator.java:53-55 | once a concrete rule is folded the generic output is always returned |
| GeneratorProperties.OtherDifferenceKeepsChanges | src/main/java/liquibase/ext/hibernate/diff/OnDeleteEnabledChangedForeignKeyChangeGenerator.java:75-79 | any remaining difference besides the two rules keeps the generic output |
| GeneratorProperties.RuleOnlyDifferencesSuppressedIff | src/main/java/liquibase/ext/hibernate/diff/OnDeleteEnabledChangedForeignKeyChangeGenerator.java:41-79 | when only rule attributes differ, null comes back exactly when the reference side names no concrete rule for either |

## Left out

- The generic `ChangedForeignKeyChangeGenerator.fixChanged` that this class extends is not part of this model: its output is the parameter `base`, and `differences` is the set as it stands after that call. How Liquibase decides that two attribute values differ is not modelled either.
- `Database`, `DiffOutputControl`, `ChangeGeneratorChain` and the changed object itself are host objects and are not modelled; the two `instanceof HibernateDatabase` tests are booleans, and `getPriority` ignores its database argument as the source does.
- The priority constants (-1, 1 and 50) belong to Liquibase's `ChangeGenerator` interface, which is not part of this model; the lemmas rely only on their order. The host's selection of a generator by priority is not modelled.
- The casts of the second change to `AddForeignKeyConstraintChange` and of a rule difference's values to `ForeignKeyConstraintType` are preconditions of `FixChanged`, required only when the code reaches them; the `ClassCastException` they would throw is not modelled.
- `ObjectDifferences` and `AddForeignKeyConstraintChange` are Liquibase classes, not part of this model; they are modelled with the behaviour the generator relies on. In Liquibase, `setOnDelete`/`setOnUpdate` store the rule as SQL text; here the field keeps the rule itself. A difference's message is not modelled.
- The model follows the code in two places where one might expect otherwise. A difference whose concrete rule has been folded into the change stays in the set (lines 53-55 and 69-71). A base output of another shape skips rule handling instead of failing (line 39).
