/**
 * The schema-object types the generator is asked about, and the foreign-key
 * rule constants of JDBC that Liquibase's ForeignKeyConstraintType enumerates.
 */
module Structure {

  /**
   * A Java class of schema objects, given by its chain of superclasses up to
   * the DatabaseObject root.
   */
  datatype ObjectType = DatabaseObject | Subclass(name: string, superclass: ObjectType)

  const AbstractDatabaseObject: ObjectType := Subclass("AbstractDatabaseObject", DatabaseObject)
  const ForeignKey: ObjectType := Subclass("ForeignKey", AbstractDatabaseObject)
  const Relation: ObjectType := Subclass("Relation", AbstractDatabaseObject)
  const Table: ObjectType := Subclass("Table", Relation)
  const Column: ObjectType := Subclass("Column", AbstractDatabaseObject)

  /** The on-delete / on-update actions of a foreign key (java.sql.DatabaseMetaData). */
  datatype ForeignKeyConstraintType =
    | ImportedKeyCascade
    | ImportedKeyRestrict
    | ImportedKeySetNull
    | ImportedKeyNoAction
    | ImportedKeySetDefault

  /** Number of superclass steps from `t` up to the root. */
  function Depth(t: ObjectType): nat
  {
    match t
    case DatabaseObject => 0
    case Subclass(_, s) => Depth(s) + 1
  }

  /** `t`, its superclass, that class's superclass, ..., ending at the root. */
  function SuperclassChain(t: ObjectType): (chain: seq<ObjectType>)
    ensures |chain| == Depth(t) + 1
    ensures chain[0] == t && chain[|chain| - 1] == DatabaseObject
  {
    match t
    case DatabaseObject => [t]
    case Subclass(_, s) => [t] + SuperclassChain(s)
  }

  /**
   * Class.isAssignableFrom: a value of type `sub` may be used where `sup` is
   * expected, because `sub` is `sup` or extends it.
   */
  function IsAssignableFrom(sup: ObjectType, sub: ObjectType): (r: bool)
    ensures r ==> Depth(sup) <= Depth(sub)
  {
    sup == sub || (sub.Subclass? && IsAssignableFrom(sup, sub.superclass))
  }

  /** Assignability is membership in the superclass chain. */
  lemma {:induction false} AssignableIffInChain(sup: ObjectType, sub: ObjectType)
    ensures IsAssignableFrom(sup, sub) <==> sup in SuperclassChain(sub)
  {
    match sub
    case DatabaseObject =>
    case Subclass(_, s) => AssignableIffInChain(sup, s);
  }

  lemma {:induction false} AssignableTransitive(a: ObjectType, b: ObjectType, c: ObjectType)
    requires IsAssignableFrom(a, b) && IsAssignableFrom(b, c)
    ensures IsAssignableFrom(a, c)
  {
    if b != c {
      AssignableTransitive(a, b, c.superclass);
    }
  }
}
