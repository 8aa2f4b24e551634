/**
 * Component props. A component's props are a copy-on-write record; the
 * updaters of the framework copy the current props and apply a list of
 * `props.update<F>(v)` calls (the ATTRIBUTES list of a render, the
 * MAP_STATE_TO_PROPS list of a component). Because `==` on records is
 * buffer identity, "the props changed" means "some update in the list
 * stored a value not equal to the one it found".
 */
module Props {
  import opened ImmutableStruct

  /** One `props.update<F>(v)`. */
  datatype Assign = Assign(field: nat, value: Value)

  /** Every assigned field exists in a record of `arity` fields. */
  predicate Fits(arity: nat, assigns: seq<Assign>) {
    forall k :: 0 <= k < |assigns| ==> assigns[k].field < arity
  }

  /** The values after a list of updates, and whether they left the copy in a new buffer. */
  datatype Outcome = Outcome(fields: seq<Value>, changed: bool)

  /** Applies the updates in order to a copy of a record holding `fields`. */
  function Apply(fields: seq<Value>, assigns: seq<Assign>): (o: Outcome)
    requires Fits(|fields|, assigns)
    ensures |o.fields| == |fields|
    ensures !o.changed ==> o.fields == fields
    decreases |assigns|
  {
    if assigns == [] then Outcome(fields, false)
    else
      var before := Apply(fields, assigns[..|assigns| - 1]);
      var a := assigns[|assigns| - 1];
      Outcome(before.fields[a.field := a.value],
              before.changed || !IsEqual(before.fields[a.field], a.value))
  }

  /**
   * The copy ends up in a new buffer exactly when some update's value is not
   * equal to the original value of its field: an update that undoes an
   * earlier one still leaves the copy detached.
   */
  lemma {:induction false} ChangedIffSomeUpdateDiffers(fields: seq<Value>, assigns: seq<Assign>)
    requires Fits(|fields|, assigns)
    ensures Apply(fields, assigns).changed <==>
      exists k :: 0 <= k < |assigns| && !IsEqual(fields[assigns[k].field], assigns[k].value)
  {
    if assigns != [] {
      var init := assigns[..|assigns| - 1];
      var a := assigns[|assigns| - 1];
      assert Fits(|fields|, init);
      ChangedIffSomeUpdateDiffers(fields, init);
      var before := Apply(fields, init);
      if Apply(fields, assigns).changed {
        if before.changed {
          var k :| 0 <= k < |init| && !IsEqual(fields[init[k].field], init[k].value);
          assert assigns[k] == init[k];
        } else {
          assert !IsEqual(fields[assigns[|assigns| - 1].field], assigns[|assigns| - 1].value);
        }
      } else {
        forall k | 0 <= k < |assigns| ensures IsEqual(fields[assigns[k].field], assigns[k].value) {
          if k < |init| {
            assert assigns[k] == init[k];
          }
        }
      }
    }
  }

  /** The value of the last update to field `f`, if any update names it. */
  function LastFor(assigns: seq<Assign>, f: nat): (v: Option<Value>)
    ensures v.None? <==> forall k :: 0 <= k < |assigns| ==> assigns[k].field != f
    ensures v.Some? ==>
      exists k :: 0 <= k < |assigns| && assigns[k] == Assign(f, v.value) &&
        forall j :: k < j < |assigns| ==> assigns[j].field != f
    decreases |assigns|
  {
    if assigns == [] then None
    else if assigns[|assigns| - 1].field == f then Some(assigns[|assigns| - 1].value)
    else
      var init := assigns[..|assigns| - 1];
      var v := LastFor(init, f);
      assert forall k :: 0 <= k < |init| ==> init[k] == assigns[k];
      if v.Some? then
        var k :| 0 <= k < |init| && init[k] == Assign(f, v.value) &&
          forall j :: k < j < |init| ==> init[j].field != f;
        assert forall j :: k < j < |assigns| ==> assigns[j].field != f;
        v
      else v
  }

  /** After the updates a field holds the value of the last update to it, or
    * its original value when no update names it. */
  lemma {:induction false} LastUpdateWins(fields: seq<Value>, assigns: seq<Assign>, f: nat)
    requires Fits(|fields|, assigns) && f < |fields|
    ensures Apply(fields, assigns).fields[f] ==
      (if LastFor(assigns, f).Some? then LastFor(assigns, f).value else fields[f])
    decreases |assigns|
  {
    if assigns != [] {
      var init := assigns[..|assigns| - 1];
      assert Fits(|fields|, init);
      LastUpdateWins(fields, init, f);
    }
  }

  /**
   * The updates run on a real copy: `r` shares its buffer with at least one
   * other record (the props it was copied from). The values end up as
   * `Apply` says, and `r`'s buffer differs from the one it started with
   * exactly when `Apply` reports a change.
   */
  method UpdateCopy(r: Record, assigns: seq<Assign>)
    requires r.Valid() && r.pt != null && r.pt.holders >= 2 && Fits(r.arity, assigns)
    modifies r, r.pt
    ensures r.Valid() && r.pt != null
    ensures r.pt.fields == Apply(old(r.pt.fields), assigns).fields
    ensures r.pt != old(r.pt) <==> Apply(old(r.pt.fields), assigns).changed
  {
    ghost var start := r.pt;
    ghost var original := r.pt.fields;
    var i := 0;
    while i < |assigns|
      invariant 0 <= i <= |assigns| && r.Valid() && r.pt != null
      invariant Fits(|original|, assigns[..i])
      invariant r.pt.fields == Apply(original, assigns[..i]).fields
      invariant r.pt != start <==> Apply(original, assigns[..i]).changed
      invariant r.pt == start ==> r.pt.holders >= 2
      invariant r.pt != start ==> r.pt.holders == 1 && fresh(r.pt)
    {
      assert assigns[..i + 1][..i] == assigns[..i];
      var _ := r.Update(assigns[i].field, assigns[i].value);
      i := i + 1;
    }
    assert assigns[..i] == assigns;
  }

  /**
   * A holder's updater, as a ChildRenderer installs it: the ATTRIBUTES list
   * of the render call, applied to the live component's props (or to the
   * default props when there is no live component).
   */
  datatype Updater = Updater(attributes: seq<Assign>)

  predicate UpdatersFit(arity: nat, us: seq<Updater>) {
    forall k :: 0 <= k < |us| ==> Fits(arity, us[k].attributes)
  }

  /** Some attribute's value is not equal to the current value of its field. */
  predicate SomeAttributeDiffers(current: seq<Value>, attributes: seq<Assign>)
    requires Fits(|current|, attributes)
  {
    exists k :: 0 <= k < |attributes| && !IsEqual(current[attributes[k].field], attributes[k].value)
  }

  /**
   * Running an updater: `Some(next)` when it stores `next` as the holder's
   * pending props and returns true, `None` when it returns false. It fires
   * whenever there is no live component, and otherwise exactly when some
   * attribute differs from the component's current props.
   */
  function Fire(u: Updater, defaults: seq<Value>, current: Option<seq<Value>>): (r: Option<seq<Value>>)
    requires Fits(|defaults|, u.attributes)
    requires current.Some? ==> |current.value| == |defaults|
    ensures current.None? ==> r == Some(Apply(defaults, u.attributes).fields)
    ensures current.Some? ==> (r.Some? <==> SomeAttributeDiffers(current.value, u.attributes))
    ensures r.Some? ==> |r.value| == |defaults|
    ensures r.Some? && current.Some? ==> r.value == Apply(current.value, u.attributes).fields
  {
    if current.None? then Some(Apply(defaults, u.attributes).fields)
    else
      ChangedIffSomeUpdateDiffers(current.value, u.attributes);
      var next := Apply(current.value, u.attributes);
      if next.changed then Some(next.fields) else None
  }

  /** The result of `calculateNextProps` and the holder's pending props after it. */
  datatype Calculation = Calculation(any: bool, pending: Option<seq<Value>>)

  /**
   * `calculateNextProps`: folds `updater(...) || updated` over the updaters
   * in order, so every updater runs.
   */
  function Calculate(us: seq<Updater>, defaults: seq<Value>, current: Option<seq<Value>>,
                     pending: Option<seq<Value>>): (c: Calculation)
    requires UpdatersFit(|defaults|, us)
    requires current.Some? ==> |current.value| == |defaults|
    decreases |us|
  {
    if us == [] then Calculation(false, pending)
    else
      var before := Calculate(us[..|us| - 1], defaults, current, pending);
      var fired := Fire(us[|us| - 1], defaults, current);
      Calculation(fired.Some? || before.any, if fired.Some? then fired else before.pending)
  }

  /** The fold returns true exactly when some updater fires: no updater is skipped. */
  lemma {:induction false} CalculateRunsEveryUpdater(us: seq<Updater>, defaults: seq<Value>,
                                                     current: Option<seq<Value>>, pending: Option<seq<Value>>)
    requires UpdatersFit(|defaults|, us)
    requires current.Some? ==> |current.value| == |defaults|
    ensures Calculate(us, defaults, current, pending).any <==>
      exists k :: 0 <= k < |us| && Fire(us[k], defaults, current).Some?
    decreases |us|
  {
    if us != [] {
      var init := us[..|us| - 1];
      assert UpdatersFit(|defaults|, init);
      CalculateRunsEveryUpdater(init, defaults, current, pending);
      assert forall k :: 0 <= k < |init| ==> init[k] == us[k];
    }
  }

  /**
   * The pending props are those stored by the last updater that fires;
   * when none fires they stay as they were.
   */
  lemma {:induction false} LastFiredUpdaterWins(us: seq<Updater>, defaults: seq<Value>,
                                                current: Option<seq<Value>>, pending: Option<seq<Value>>, k: int)
    requires UpdatersFit(|defaults|, us)
    requires current.Some? ==> |current.value| == |defaults|
    requires -1 <= k < |us|
    requires k >= 0 ==> Fire(us[k], defaults, current).Some?
    requires forall j :: k < j < |us| ==> Fire(us[j], defaults, current).None?
    ensures Calculate(us, defaults, current, pending).pending ==
      if k >= 0 then Fire(us[k], defaults, current) else pending
    decreases |us|
  {
    if us != [] && k < |us| - 1 {
      var init := us[..|us| - 1];
      assert UpdatersFit(|defaults|, init);
      assert forall j :: k < j < |init| ==> init[j] == us[j];
      LastFiredUpdaterWins(init, defaults, current, pending, k);
    }
  }

  /** Pending props that fit the class still fit it after a calculation, and an updater that fired left some. */
  lemma {:induction false} CalculateKeepsArity(us: seq<Updater>, defaults: seq<Value>,
                                               current: Option<seq<Value>>, pending: Option<seq<Value>>)
    requires UpdatersFit(|defaults|, us)
    requires current.Some? ==> |current.value| == |defaults|
    requires pending.Some? ==> |pending.value| == |defaults|
    ensures var c := Calculate(us, defaults, current, pending);
      (c.pending.Some? ==> |c.pending.value| == |defaults|) && (c.any ==> c.pending.Some?)
    decreases |us|
  {
    if us != [] {
      assert UpdatersFit(|defaults|, us[..|us| - 1]);
      CalculateKeepsArity(us[..|us| - 1], defaults, current, pending);
    }
  }

  /** With no live component every updater fires, so the pending props come from the last one. */
  lemma FirstRenderUsesLastUpdater(us: seq<Updater>, defaults: seq<Value>, pending: Option<seq<Value>>)
    requires UpdatersFit(|defaults|, us) && |us| >= 1
    ensures Calculate(us, defaults, None, pending) ==
      Calculation(true, Some(Apply(defaults, us[|us| - 1].attributes).fields))
  {
  }
}
