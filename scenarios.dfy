/**
 * Callers of FixChanged on concrete foreign-key comparisons: each shows what
 * its contract lets a caller conclude about the differences left, the rules
 * written and the changes returned.
 */
module Scenarios {
  import opened Wrappers
  import opened Structure
  import opened Diff
  import opened ChangeModel
  import opened OnDeleteEnabledGenerator

  /** Hibernate (the reference side) says no action, the database cascades, and the constraint name differs too. */
  method NoActionAgainstHandAddedCascade()
  {
    var add := new AddForeignKeyConstraintChange("FK_ORDER_CUSTOMER", "ORDERS", "CUSTOMER");
    var base := Some([DropForeignKeyConstraint("FK_ORDER_CUST", "ORDERS"), AddForeignKeyConstraint(add)]);
    var differences := new ObjectDifferences();
    differences.AddDifference(DeleteRule, RuleValue(ImportedKeyNoAction), RuleValue(ImportedKeyCascade));
    differences.AddDifference("name", OtherValue("FK_ORDER_CUSTOMER"), OtherValue("FK_ORDER_CUST"));
    RuleFieldsDistinct();

    var result := FixChanged(true, false, base, differences);
    assert differences.differences.Keys == {"name"};
    assert add.onDelete == None && add.onUpdate == None;
    assert result == base;
  }

  /** Hibernate (the reference side) cascades, the database has no action, nothing else differs. */
  method CascadeAgainstNoAction()
  {
    var add := new AddForeignKeyConstraintChange("FK_LINE_ORDER", "ORDER_LINE", "ORDERS");
    var base := Some([DropForeignKeyConstraint("FK_LINE_ORDER", "ORDER_LINE"), AddForeignKeyConstraint(add)]);
    var differences := new ObjectDifferences();
    differences.AddDifference(DeleteRule, RuleValue(ImportedKeyCascade), RuleValue(ImportedKeyNoAction));
    RuleFieldsDistinct();

    var result := FixChanged(true, false, base, differences);
    assert add.onDelete == Some(ImportedKeyCascade) && add.onUpdate == None;
    assert DeleteRule in differences.differences;
    assert result == base;
  }

  /**
   * Hibernate is the compared side here, so the rules read are the live
   * database's: it has no delete rule and no update action, and Hibernate's
   * RESTRICT on update is dropped with them, leaving nothing to change.
   */
  method NullAgainstNoAction()
  {
    var add := new AddForeignKeyConstraintChange("FK_ITEM_STOCK", "ITEM", "STOCK");
    var base := Some([DropForeignKeyConstraint("FK_ITEM_STOCK", "ITEM"), AddForeignKeyConstraint(add)]);
    var differences := new ObjectDifferences();
    differences.AddDifference(DeleteRule, Null, RuleValue(ImportedKeyNoAction));
    differences.AddDifference(UpdateRule, RuleValue(ImportedKeyNoAction), RuleValue(ImportedKeyRestrict));
    RuleFieldsDistinct();

    var result := FixChanged(false, true, base, differences);
    assert differences.differences == map[];
    assert add.onDelete == None && add.onUpdate == None;
    assert result == None;
  }

  /** Two live databases: the generic output is returned and nothing is touched. */
  method NeitherSideHibernate()
  {
    var add := new AddForeignKeyConstraintChange("FK_A_B", "A", "B");
    var base := Some([DropForeignKeyConstraint("FK_A_B", "A"), AddForeignKeyConstraint(add)]);
    var differences := new ObjectDifferences();
    differences.AddDifference(DeleteRule, Null, RuleValue(ImportedKeySetNull));
    ghost var before := differences.differences;

    var result := FixChanged(false, false, base, differences);
    assert differences.differences == before;
    assert add.onDelete == None;
    assert result == base;
  }

  /** A base output of another shape skips rule handling, but an empty set still yields no change. */
  method UnexpectedShapeWithoutDifferences()
  {
    var base: Option<seq<Change>> := Some([OtherChange("addNotNullConstraint")]);
    var differences := new ObjectDifferences();

    var result := FixChanged(true, true, base, differences);
    assert result == None;
  }
}
