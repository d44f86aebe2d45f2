/**
 * BaseEntity.equals: two entities are equal when they are the same object, or when the
 * receiver has an id, the other object's class is the receiver's class or a subclass of it, and
 * the ids are equal.
 */
module Models {

  import opened Wrappers

  /** Class.isAssignableFrom on single-inheritance classes, each named by its chain of classes
      from the root down: sub is super or one of its subclasses. */
  predicate IsAssignableFrom(super: seq<string>, sub: seq<string>) {
    super <= sub
  }

  class BaseEntity {
    /** The generated primary key; null until the entity is persisted. */
    var id: Option<int>
    /** getClass(): the runtime class, as its chain of classes from BaseEntity down. */
    const runtimeClass: seq<string>

    constructor (runtimeClass: seq<string>, id: Option<int>)
      ensures this.runtimeClass == runtimeClass && this.id == id
    {
      this.runtimeClass := runtimeClass;
      this.id := id;
    }

    /** equals(Object other). */
    predicate Equals(other: object?)
      reads this, other
    {
      if other == null then false
      else if this == other then true
      else if id.None? then false
      else if !(other is BaseEntity) || !IsAssignableFrom(runtimeClass, (other as BaseEntity).runtimeClass) then false
      else id == (other as BaseEntity).id
    }
  }

  lemma NeverEqualsNull(e: BaseEntity)
    ensures !e.Equals(null)
  {
  }

  /** The same reference is equal to itself, even without an id. */
  lemma EqualsReflexive(e: BaseEntity)
    ensures e.Equals(e)
  {
  }

  /** Without an id an entity equals nothing but itself. */
  lemma NullIdEqualsOnlyItself(e: BaseEntity, other: object?)
    requires e.id.None?
    ensures e.Equals(other) <==> other == e
  {
  }

  /** An object that is not an entity, or whose class is not the receiver's class or a subclass
      of it, is never equal to a distinct receiver. */
  lemma IncompatibleClassNeverEqual(e: BaseEntity, other: object)
    requires e != other
    requires !(other is BaseEntity) || !IsAssignableFrom(e.runtimeClass, (other as BaseEntity).runtimeClass)
    ensures !e.Equals(other)
  {
  }

  /** Otherwise equality is equality of the ids. */
  lemma CompatibleEqualsById(e: BaseEntity, other: BaseEntity)
    requires e != other && e.id.Some? && IsAssignableFrom(e.runtimeClass, other.runtimeClass)
    ensures e.Equals(other) <==> e.id == other.id
  {
  }

  /** The class test runs one way: an entity of a class equals one of its subclasses with the
      same id, while the subclass instance does not equal it back. */
  lemma SubclassAsymmetry(e: BaseEntity, sub: BaseEntity)
    requires e != sub && e.id.Some? && e.id == sub.id
    requires e.runtimeClass < sub.runtimeClass
    ensures e.Equals(sub) && !sub.Equals(e)
  {
    assert !(sub.runtimeClass <= e.runtimeClass);
  }

  /** Between entities of one class, equals is symmetric. */
  lemma SameClassSymmetric(e: BaseEntity, other: BaseEntity)
    requires e.runtimeClass == other.runtimeClass
    ensures e.Equals(other) <==> other.Equals(e)
  {
  }

  /** equals is transitive. */
  lemma EqualsTransitive(a: BaseEntity, b: BaseEntity, c: BaseEntity)
    requires a.Equals(b) && b.Equals(c)
    ensures a.Equals(c)
  {
    if a != b && b != c && a != c {
      assert IsAssignableFrom(a.runtimeClass, b.runtimeClass) && IsAssignableFrom(b.runtimeClass, c.runtimeClass);
    }
  }
}
