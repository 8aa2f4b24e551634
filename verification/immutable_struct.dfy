/**
 * Copy-on-write records (the IMMUTABLE_STRUCT macro).
 *
 * A record is a handle onto a shared buffer holding one value per declared
 * field. Copying a handle shares the buffer; `update` leaves the buffer alone
 * when the new value is equal to the stored one, writes in place when the
 * handle is the buffer's only holder, and otherwise clones the buffer first.
 * Equality of handles is buffer identity, so "did anything change" is a
 * pointer comparison.
 *
 * The shared-pointer reference count is the field `holders` of a buffer; the
 * ghost set `owners` names the handles that hold it, so that the count can be
 * checked against the handles that really exist.
 */
module ImmutableStruct {

  /** The values a field can hold. `Incomparable` stands for a field type
    * without `operator==` (a `std::function`, a struct without `==`). */
  datatype Value =
    | Int(i: int)
    | Str(s: string)
    | Bool(b: bool)
    | Ptr(address: nat)
    | Incomparable(tag: nat)

  /** `is_equal_`: value equality when the type has `==`, otherwise "different". */
  predicate IsEqual(a: Value, b: Value) {
    !a.Incomparable? && !b.Incomparable? && a == b
  }

  /**
   * What `update` relies on: `is_equal_` never calls two different values
   * equal, is symmetric, holds of every value of a type with `==` against
   * itself, and never holds for a value of a type without `==`, not even
   * against itself.
   */
  lemma IsEqualMeansEqual(a: Value, b: Value)
    ensures IsEqual(a, b) ==> a == b
    ensures IsEqual(a, b) == IsEqual(b, a)
    ensures !a.Incomparable? ==> IsEqual(a, a)
    ensures a.Incomparable? ==> !IsEqual(a, b) && !IsEqual(b, a)
  {
  }

  datatype Option<T> = None | Some(value: T)

  /**
   * One declared field: the value its type default-constructs to (None when
   * the type is not default constructible) and the default written in the
   * declaration with `DEFAULT_VALUE`, if any.
   */
  datatype FieldDecl = FieldDecl(typeDefault: Option<Value>, declared: Option<Value>)

  /** The value a default-constructed record stores in a field. */
  function DefaultOf(d: FieldDecl): (r: Option<Value>)
    ensures d.declared.Some? ==> r == d.declared
    ensures d.declared.None? ==> r == d.typeDefault
  {
    if d.declared.Some? then d.declared else d.typeDefault
  }

  /** The default constructor exists only when every field has a default. */
  predicate DefaultConstructible(decls: seq<FieldDecl>) {
    forall k :: 0 <= k < |decls| ==> DefaultOf(decls[k]).Some?
  }

  function Defaults(decls: seq<FieldDecl>): (r: seq<Value>)
    requires DefaultConstructible(decls)
    ensures |r| == |decls|
    ensures forall k :: 0 <= k < |decls| ==> Some(r[k]) == DefaultOf(decls[k])
  {
    if |decls| == 0 then [] else [DefaultOf(decls[0]).value] + Defaults(decls[1..])
  }

  /** The heap block a `shared_ptr<Tuple>` points to. */
  class Buffer {
    var fields: seq<Value>
    var holders: nat
    ghost var owners: set<Record>

    constructor (values: seq<Value>, owner: Record)
      ensures fields == values && holders == 1 && owners == {owner}
    {
      fields := values;
      holders := 1;
      owners := {owner};
    }
  }

  class Record {
    /** Number of declared fields. */
    const arity: nat
    /** The shared buffer; null for a trivial record. */
    var pt: Buffer?

    /**
     * The reference count agrees with the handles that hold the buffer, and
     * every one of those handles points at it.
     */
    ghost predicate Valid()
      reads this, pt, if pt != null then pt.owners else {}
    {
      pt != null ==>
        this in pt.owners && pt.holders == |pt.owners| && |pt.fields| == arity &&
        forall r :: r in pt.owners ==> r.pt == pt
    }

    /** `class_name(trivial_type)`: a record without a buffer. */
    constructor Trivial(arity: nat)
      ensures Valid() && pt == null && this.arity == arity
    {
      this.arity := arity;
      pt := null;
    }

    /** `class_name()`: every field takes its declared or type default. */
    constructor Default(decls: seq<FieldDecl>)
      requires DefaultConstructible(decls)
      ensures Valid() && pt != null && fresh(pt) && arity == |decls|
      ensures pt.fields == Defaults(decls) && pt.owners == {this}
    {
      arity := |decls|;
      new;
      pt := new Buffer(Defaults(decls), this);
    }

    /** `explicit class_name(Ts&&...)`: a buffer holding the given values. */
    constructor FromValues(values: seq<Value>)
      requires |values| > 0
      ensures Valid() && pt != null && fresh(pt) && arity == |values|
      ensures pt.fields == values && pt.owners == {this}
    {
      arity := |values|;
      new;
      pt := new Buffer(values, this);
    }

    /** Copy constructor: shares the other record's buffer. */
    constructor Copy(other: Record)
      requires other.Valid()
      modifies other.pt
      ensures Valid() && other.Valid() && pt == other.pt && arity == other.arity
      ensures pt != null ==>
        pt.fields == old(other.pt.fields) && pt.owners == old(other.pt.owners) + {this}
    {
      arity := other.arity;
      pt := other.pt;
      new;
      if pt != null {
        pt.holders := pt.holders + 1;
        pt.owners := pt.owners + {this};
      }
    }

    /** Move constructor: takes the other record's buffer, leaving it trivial. */
    constructor Move(other: Record)
      requires other.Valid()
      modifies other, other.pt
      ensures Valid() && other.Valid() && other.pt == null
      ensures pt == old(other.pt) && arity == other.arity
      ensures pt != null ==>
        pt.fields == old(other.pt.fields) && pt.holders == old(other.pt.holders) &&
        pt.owners == old(other.pt.owners) - {other} + {this}
    {
      arity := other.arity;
      pt := other.pt;
      new;
      other.pt := null;
      if pt != null {
        pt.owners := pt.owners - {other} + {this};
      }
    }

    /** `get<F>()`: the stored value of field `f`. */
    function Get(f: nat): (v: Value)
      requires pt != null && f < |pt.fields|
      reads this, pt
      ensures v in pt.fields && v == pt.fields[f]
    {
      pt.fields[f]
    }

    /** `operator==`: same buffer (two trivial records are equal). */
    predicate Eq(other: Record)
      reads this, other
    {
      pt == other.pt
    }

    /** `operator bool`: the record has a buffer. */
    predicate NonTrivial()
      reads this
    {
      pt != null
    }

    /**
     * `update<F>(v)`: returns this record, with field `f` holding `v`. An
     * equal value leaves the buffer untouched; a shared buffer is cloned
     * before the write; a buffer held only here is written in place.
     */
    method Update(f: nat, v: Value) returns (self: Record)
      requires Valid() && pt != null && f < arity
      modifies this, pt
      ensures self == this && Valid() && pt != null
      ensures pt.fields == old(pt.fields)[f := v]
      ensures IsEqual(old(pt.fields[f]), v) ==> pt == old(pt) && unchanged(pt)
      ensures !IsEqual(old(pt.fields[f]), v) && old(pt.holders) > 1 ==>
        fresh(pt) && pt.owners == {this} &&
        old(pt).fields == old(pt.fields) &&
        old(pt).holders == old(pt.holders) - 1 &&
        old(pt).owners == old(pt.owners) - {this}
      ensures !IsEqual(old(pt.fields[f]), v) && old(pt.holders) == 1 ==>
        pt == old(pt) && pt.owners == old(pt.owners)
    {
      self := this;
      if IsEqual(pt.fields[f], v) {
        return;
      }
      if pt.holders != 1 {
        var clone := new Buffer(pt.fields, this);
        pt.holders := pt.holders - 1;
        pt.owners := pt.owners - {this};
        pt := clone;
      }
      pt.fields := pt.fields[f := v];
    }

    /** Copy assignment: drop this record's buffer, share the other's. */
    method Assign(other: Record)
      requires Valid() && other.Valid() && arity == other.arity
      modifies this, pt, other.pt
      ensures Valid() && other.Valid() && pt == other.pt && other.pt == old(other.pt)
      ensures pt != null ==>
        pt.fields == old(other.pt.fields) && pt.owners == old(other.pt.owners) + {this}
      ensures old(pt) != null && old(pt) != pt ==>
        old(pt).fields == old(pt.fields) && old(pt).owners == old(pt.owners) - {this} &&
        old(pt).holders == old(pt.holders) - 1
    {
      var p := other.pt;
      if pt != null {
        pt.holders := pt.holders - 1;
        pt.owners := pt.owners - {this};
      }
      if p != null {
        p.holders := p.holders + 1;
        p.owners := p.owners + {this};
      }
      pt := p;
    }

    /** Move assignment: drop this record's buffer, take the other's. */
    method MoveAssign(other: Record)
      requires Valid() && other.Valid() && arity == other.arity
      modifies this, pt, other, other.pt
      ensures Valid() && other.Valid()
      ensures pt == old(other.pt)
      ensures other != this ==> other.pt == null
      ensures pt != null && other != this ==>
        pt.fields == old(other.pt.fields) &&
        pt.owners == old(other.pt.owners) - {other} + {this}
      ensures old(pt) != null && old(pt) != pt ==>
        old(pt).fields == old(pt.fields) && old(pt).owners == old(pt.owners) - {this} &&
        old(pt).holders == old(pt.holders) - 1
    {
      var moved := other.pt;
      if this == other {
        return;
      }
      ghost var was := pt;
      other.pt := null;
      if pt != null {
        pt.holders := pt.holders - 1;
        pt.owners := pt.owners - {this};
      }
      if moved != null {
        assert other in moved.owners && this !in moved.owners && |moved.owners| == moved.holders;
        moved.owners := moved.owners - {other} + {this};
      }
      pt := moved;
    }
  }
}
