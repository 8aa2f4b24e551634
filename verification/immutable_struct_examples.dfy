/**
 * The behaviours the copy-on-write record's unit tests check, as methods
 * whose postconditions are the expectations of each test. The records used
 * there are
 *   S1 = (int number, unique_ptr<int> pointer)
 *   S2 = (C1 obj)                          C1 has no default and no ==
 *   S3 = (int number)
 *   S4 = (C1 obj = C1{"abc"}, shared_ptr<int> pointer)
 * with a null pointer written `Ptr(0)` and `C1{"abc"}` written `Incomparable(ABC)`.
 */
module ImmutableStructExamples {
  import opened ImmutableStruct

  const ABC: nat := 1

  function S1Decls(): seq<FieldDecl> {
    [FieldDecl(Some(Int(0)), None), FieldDecl(Some(Ptr(0)), None)]
  }
  function S2Decls(): seq<FieldDecl> {
    [FieldDecl(None, None)]
  }
  function S3Decls(): seq<FieldDecl> {
    [FieldDecl(Some(Int(0)), None)]
  }
  function S4Decls(): seq<FieldDecl> {
    [FieldDecl(None, Some(Incomparable(ABC))), FieldDecl(Some(Ptr(0)), None)]
  }

  /** A trivially constructed record converts to false. */
  method TrivialConstruction() returns (nonTrivial: bool)
    ensures !nonTrivial
  {
    var s := new Record.Trivial(|S2Decls()|);
    nonTrivial := s.NonTrivial();
  }

  /** Default construction default-constructs every field, so its `pointer` field is null. */
  method DefaultConstruction() returns (pointer: Value)
    ensures pointer == Ptr(0)
  {
    var s := new Record.Default(S1Decls());
    pointer := s.Get(1);
  }

  /** Construction from values stores them: its number and its non-null `pointer`. */
  method Initializer() returns (n: Value, nonNull: bool)
    ensures n == Int(234) && nonNull
  {
    var s := new Record.FromValues([Int(234), Ptr(123)]);
    n := s.Get(0);
    nonNull := s.Get(1) != Ptr(0);
  }

  /** A copy shares the buffer: both records are non-trivial and read the same values. */
  method CopyConstruction() returns (n1: Value, n2: Value, p1: Value, p2: Value, both: bool)
    ensures both && n1 == n2 == Int(234) && p1 == p2 == Ptr(123)
  {
    var s1 := new Record.FromValues([Int(234), Ptr(123)]);
    var s2 := new Record.Copy(s1);
    both := s1.NonTrivial() && s2.NonTrivial();
    n1, p1 := s1.Get(0), s1.Get(1);
    n2, p2 := s2.Get(0), s2.Get(1);
  }

  /** Moving leaves the source trivial and the target with the values. */
  method MoveConstruction() returns (sourceNonTrivial: bool, n: Value, p: Value)
    ensures !sourceNonTrivial && n == Int(234) && p == Ptr(123)
  {
    var s1 := new Record.FromValues([Int(234), Ptr(123)]);
    var s2 := new Record.Move(s1);
    sourceNonTrivial := s1.NonTrivial();
    n, p := s2.Get(0), s2.Get(1);
  }

  /** After copy assignment the two records compare equal. */
  method CopyAssignment() returns (before: Value, equal: bool, both: bool)
    ensures before == Ptr(0) && equal && both
  {
    var s1 := new Record.FromValues([Int(234), Ptr(123)]);
    var s2 := new Record.Default(S1Decls());
    before := s2.Get(1);
    s2.Assign(s1);
    equal := s1.Eq(s2);
    both := s1.NonTrivial() && s2.NonTrivial();
  }

  /** After move assignment the source is trivial and the target holds the values. */
  method MoveAssignment() returns (before: Value, sourceNonTrivial: bool, n: Value, p: Value)
    ensures before == Ptr(0) && !sourceNonTrivial && n == Int(234) && p == Ptr(123)
  {
    var s1 := new Record.FromValues([Int(234), Ptr(123)]);
    var s2 := new Record.Default(S1Decls());
    before := s2.Get(1);
    s2.MoveAssign(s1);
    sourceNonTrivial := s1.NonTrivial();
    n, p := s2.Get(0), s2.Get(1);
  }

  /** A record with a field lacking any default has no default constructor. */
  lemma NonDefaultConstructible()
    ensures !DefaultConstructible(S2Decls())
    ensures DefaultConstructible(S4Decls())
  {
    assert DefaultOf(S2Decls()[0]).None?;
  }

  /** Copies of a default-constructed record are equal. */
  method SharedOwnership() returns (equal: bool)
    ensures equal
  {
    var s1 := new Record.Default(S3Decls());
    var s2 := new Record.Copy(s1);
    equal := s1.Eq(s2);
  }

  /** Updating with the stored value keeps the records equal. */
  method NoChangeOnSameValue() returns (eq1: bool, eq2: bool, v1: Value, v2: Value)
    ensures eq1 && eq2 && v1 == v2 == Int(123)
  {
    var s1 := new Record.FromValues([Int(123)]);
    var s2 := new Record.Copy(s1);
    var _ := s1.Update(0, Int(123));
    eq1 := s1.Eq(s2);
    var _ := s2.Update(0, Int(123));
    eq2 := s1.Eq(s2);
    v1, v2 := s1.Get(0), s2.Get(0);
  }

  /** Updating a shared record with a new value detaches it from the copy. */
  method NewOnUpdate() returns (equal: bool, v1: Value, v2: Value)
    ensures !equal && v1 == Int(456) && v2 == Int(123)
  {
    var s1 := new Record.FromValues([Int(123)]);
    var s2 := new Record.Copy(s1);
    var _ := s1.Update(0, Int(456));
    equal := s1.Eq(s2);
    v1, v2 := s1.Get(0), s2.Get(0);
  }

  /** Equal contents in different buffers are not equal records, and changing
    * a value back does not restore equality. */
  method NotEqualOnValue() returns (eq12: bool, eq32: bool, eq23: bool, eq13: bool, v3: Value)
    ensures !eq12 && !eq32 && !eq23 && !eq13 && v3 == Int(123)
  {
    var s1 := new Record.FromValues([Int(123)]);
    var s2 := new Record.FromValues([Int(123)]);
    eq12 := s1.Eq(s2);
    var s3 := new Record.Copy(s1);
    eq32 := s3.Eq(s2);
    var _ := s3.Update(0, Int(456));
    var _ := s3.Update(0, Int(123));
    eq23 := s2.Eq(s3);
    eq13 := s1.Eq(s3);
    v3 := s3.Get(0);
  }

  /** A declared default is used by the default constructor. */
  method DefaultValue() returns (nonTrivial: bool, obj: Value, pointer: Value)
    ensures nonTrivial && obj == Incomparable(ABC) && pointer == Ptr(0)
  {
    var s := new Record.Default(S4Decls());
    nonTrivial := s.NonTrivial();
    obj, pointer := s.Get(0), s.Get(1);
  }

  /** `update` returns the record, so updates chain. */
  method ChainedUpdate() returns (obj: Value, pointer: Value)
    ensures obj == Incomparable(ABC) && pointer == Ptr(456)
  {
    var s := new Record.Default(S4Decls());
    var t := s.Update(0, Incomparable(ABC));
    var _ := t.Update(1, Ptr(456));
    obj, pointer := s.Get(0), s.Get(1);
  }

  /** Values without `==` always count as changed. */
  method IncomparableValuesDiffer() returns (before: bool, after: bool, obj: Value)
    ensures before && !after && obj == Incomparable(ABC)
  {
    var s1 := new Record.FromValues([Incomparable(ABC)]);
    var s2 := new Record.Copy(s1);
    before := s1.Eq(s2);
    var _ := s1.Update(0, Incomparable(ABC));
    after := s1.Eq(s2);
    obj := s1.Get(0);
  }
}
