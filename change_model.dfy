/** The change records a changed-foreign-key generator emits. */
module ChangeModel {
  import opened Wrappers
  import opened Structure

  /** Liquibase's AddForeignKeyConstraintChange: a mutable record with optional rule fields. */
  class AddForeignKeyConstraintChange {
    var constraintName: string
    var baseTableName: string
    var referencedTableName: string
    var onDelete: Option<ForeignKeyConstraintType>
    var onUpdate: Option<ForeignKeyConstraintType>

    constructor (constraintName: string, baseTableName: string, referencedTableName: string)
      ensures this.constraintName == constraintName
      ensures this.baseTableName == baseTableName
      ensures this.referencedTableName == referencedTableName
      ensures onDelete == None && onUpdate == None
    {
      this.constraintName := constraintName;
      this.baseTableName := baseTableName;
      this.referencedTableName := referencedTableName;
      onDelete := None;
      onUpdate := None;
    }

    method SetOnDelete(rule: ForeignKeyConstraintType)
      modifies this`onDelete
      ensures onDelete == Some(rule)
    {
      onDelete := Some(rule);
    }

    method SetOnUpdate(rule: ForeignKeyConstraintType)
      modifies this`onUpdate
      ensures onUpdate == Some(rule)
    {
      onUpdate := Some(rule);
    }
  }

  /** An element of the `Change[]` a generator returns. */
  datatype Change =
    | AddForeignKeyConstraint(add: AddForeignKeyConstraintChange)
    | DropForeignKeyConstraint(constraintName: string, baseTableName: string)
    | OtherChange(description: string)
}
