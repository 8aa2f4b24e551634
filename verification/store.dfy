/**
 * The store (the DECL_STORE macro). Its state is a copy-on-write record whose
 * fields are the application's fields followed by the two builtin ones,
 * `window_height` and `window_width`. Dispatching an action runs every field's
 * reducer on the committed state, writes the results into a copy, tells every
 * listener about (old, new) when the copy's buffer differs from the committed
 * one, and then commits the copy.
 *
 * Listeners are callables the store does not look into; the type parameter
 * `L` stands for them, and each call the store makes is recorded in
 * `notified`.
 */
module Store {
  import opened ImmutableStruct
  import opened Action
  import opened Reducer

  /** One call `listener(prev, next)` made by the store. */
  datatype Call<L> = Call(listener: L, prev: seq<Value>, next: seq<Value>)

  /** The reducers of a store over the given application fields. */
  function StoreReducers(user: seq<Reducer>): (rs: seq<Reducer>)
    ensures |rs| == |user| + 2 && rs[..|user|] == user
    ensures rs[|user|] == WindowHeightReducer() && rs[|user| + 1] == WindowWidthReducer()
  {
    user + [WindowHeightReducer(), WindowWidthReducer()]
  }

  /** The initial state: each reducer's `InitStore` value. */
  function InitialFields(rs: seq<Reducer>): (fs: seq<Value>)
    ensures |fs| == |rs|
    ensures forall i :: 0 <= i < |rs| ==> fs[i] == rs[i].init
  {
    seq(|rs|, i requires 0 <= i < |rs| => rs[i].init)
  }

  /** The state after an action: each field reduced from its committed value. */
  function NextFields(rs: seq<Reducer>, fs: seq<Value>, a: Action): (next: seq<Value>)
    requires |fs| == |rs|
    ensures |next| == |fs|
    ensures forall i :: 0 <= i < |fs| && a.tags !in rs[i].handlers ==> next[i] == fs[i]
  {
    seq(|fs|, i requires 0 <= i < |fs| => Reduce(rs[i], a, fs[i]))
  }

  /** Whether some field's update is not an equal value (so the buffer is cloned). */
  predicate Changes(rs: seq<Reducer>, fs: seq<Value>, a: Action)
    requires |fs| == |rs|
  {
    exists i :: 0 <= i < |fs| && !IsEqual(fs[i], Reduce(rs[i], a, fs[i]))
  }

  /** The calls made to each listener, in order, with the same arguments. */
  function Broadcast<L>(ls: seq<L>, prev: seq<Value>, next: seq<Value>): (cs: seq<Call<L>>)
    ensures |cs| == |ls|
    ensures forall k :: 0 <= k < |ls| ==> cs[k] == Call(ls[k], prev, next)
  {
    seq(|ls|, k requires 0 <= k < |ls| => Call(ls[k], prev, next))
  }

  /**
   * An action that no application reducer handles and that is not a window
   * action leaves every field as it was.
   */
  lemma UnhandledActionKeepsState(user: seq<Reducer>, fs: seq<Value>, a: Action)
    requires |fs| == |user| + 2
    requires forall i :: 0 <= i < |user| ==> a.tags !in user[i].handlers
    requires a.tags != WindowWidthTags() && a.tags != WindowHeightTags()
    ensures NextFields(StoreReducers(user), fs, a) == fs
  {
    var rs := StoreReducers(user);
    var next := NextFields(rs, fs, a);
    forall i | 0 <= i < |fs| ensures next[i] == fs[i] {
      if i < |user| {
        assert rs[i] == user[i];
      }
    }
  }

  /**
   * A window resize that no application reducer handles changes exactly the
   * `window_width` field (the last one) to the new width.
   */
  lemma WindowResizeSetsWidth(user: seq<Reducer>, fs: seq<Value>, w: int)
    requires |fs| == |user| + 2
    requires forall i :: 0 <= i < |user| ==> WindowWidthTags() !in user[i].handlers
    ensures NextFields(StoreReducers(user), fs, Action(WindowWidthTags(), [Int(w)])) ==
            fs[|user| + 1 := Int(w)]
  {
    var rs := StoreReducers(user);
    var a := Action(WindowWidthTags(), [Int(w)]);
    var next := NextFields(rs, fs, a);
    forall i | 0 <= i < |fs| ensures next[i] == fs[|user| + 1 := Int(w)][i] {
      if i < |user| {
        assert rs[i] == user[i];
      }
    }
  }

  /** A window height change that no application reducer handles changes
    * exactly the `window_height` field. */
  lemma WindowResizeSetsHeight(user: seq<Reducer>, fs: seq<Value>, h: int)
    requires |fs| == |user| + 2
    requires forall i :: 0 <= i < |user| ==> WindowHeightTags() !in user[i].handlers
    ensures NextFields(StoreReducers(user), fs, Action(WindowHeightTags(), [Int(h)])) ==
            fs[|user| := Int(h)]
  {
    var rs := StoreReducers(user);
    var a := Action(WindowHeightTags(), [Int(h)]);
    var next := NextFields(rs, fs, a);
    forall i | 0 <= i < |fs| ensures next[i] == fs[|user| := Int(h)][i] {
      if i < |user| {
        assert rs[i] == user[i];
      }
    }
  }

  /** Equal comparable values do not change the state. */
  lemma NoChangeMeansSameFields(rs: seq<Reducer>, fs: seq<Value>, a: Action)
    requires |fs| == |rs|
    requires !Changes(rs, fs, a)
    ensures NextFields(rs, fs, a) == fs
  {
    var next := NextFields(rs, fs, a);
    forall i | 0 <= i < |fs| ensures next[i] == fs[i] {
      assert IsEqual(fs[i], Reduce(rs[i], a, fs[i]));
    }
  }

  class Store<L> {
    /** One reducer per field: the application's, then window height and width. */
    const reducers: seq<Reducer>
    /** `state_`: the committed state. */
    const state: Record
    /** `listeners_`, in registration order. */
    var listeners: seq<L>
    /** Every listener call made so far, in order. */
    var notified: seq<Call<L>>

    /** The committed state's buffer is held by the store alone. */
    ghost predicate Valid()
      reads this, state, state.pt
    {
      state.pt != null && state.arity == |reducers| && |state.pt.fields| == |reducers| &&
      state.pt.owners == {state} && state.pt.holders == 1
    }

    /** The committed field values. */
    ghost function Fields(): (fs: seq<Value>)
      reads this, state, state.pt
      requires Valid()
      ensures |fs| == |reducers|
    {
      state.pt.fields
    }

    /** Each field starts at its reducer's `InitStore` value; no listeners yet. */
    constructor (user: seq<Reducer>)
      ensures Valid() && fresh(state) && fresh(state.pt)
      ensures reducers == StoreReducers(user)
      ensures Fields() == InitialFields(reducers)
      ensures listeners == [] && notified == []
    {
      reducers := StoreReducers(user);
      state := new Record.FromValues(InitialFields(StoreReducers(user)));
      listeners := [];
      notified := [];
    }

    /** `get<F>()`: the committed value of field `f`. */
    function Get(f: nat): (v: Value)
      requires Valid() && f < |reducers|
      reads this, state, state.pt
      ensures v == Fields()[f]
    {
      state.Get(f)
    }

    /**
     * `dispatch<tags...>(payload...)`. The new state holds each reducer's
     * result on the committed value. When some update was not an equal
     * value, every listener is called once, in order, with the old and the
     * new state, and the new state gets a new buffer; otherwise no listener
     * is called and the committed buffer stays as it was.
     */
    method Dispatch(a: Action)
      requires Valid()
      modifies this, state, state.pt
      ensures Valid() && listeners == old(listeners)
      ensures Fields() == NextFields(reducers, old(Fields()), a)
      ensures Changes(reducers, old(Fields()), a) ==>
        fresh(state.pt) &&
        notified == old(notified) + Broadcast(listeners, old(Fields()), Fields())
      ensures !Changes(reducers, old(Fields()), a) ==>
        state.pt == old(state.pt) && notified == old(notified)
    {
      ghost var committed := state.pt.fields;
      var next := new Record.Copy(state);
      ReduceInto(next, a);
      if !next.Eq(state) {
        Notify(state.pt.fields, next.pt.fields);
      }
      state.MoveAssign(next);
    }

    /**
     * The loop of `dispatch`: each field of `next`, a copy sharing the
     * committed buffer, updated with its reducer's result on the committed
     * value. The copy keeps the committed buffer exactly when every update
     * was an equal value; otherwise it ends in a new buffer of its own.
     */
    method ReduceInto(next: Record, a: Action)
      requires state.pt != null && state.arity == |reducers| && |state.pt.fields| == |reducers| && next != state
      requires next.Valid() && next.arity == state.arity && next.pt == state.pt
      requires state.pt.owners == {state, next} && state.pt.holders == 2
      modifies next, state.pt
      ensures state.pt.fields == old(state.pt.fields)
      ensures next.Valid() && next.arity == state.arity && next.pt != null
      ensures next.pt.fields == NextFields(reducers, old(state.pt.fields), a)
      ensures next.pt == state.pt <==> !Changes(reducers, old(state.pt.fields), a)
      ensures next.pt == state.pt ==> state.pt.owners == {state, next} && state.pt.holders == 2
      ensures next.pt != state.pt ==>
        fresh(next.pt) && next.pt.owners == {next} &&
        state.pt.owners == {state} && state.pt.holders == 1
    {
      ghost var committed := state.pt.fields;
      var i := 0;
      while i < |reducers|
        invariant 0 <= i <= |reducers|
        invariant state.pt.fields == committed
        invariant next.Valid() && next.arity == state.arity && next.pt != null
        invariant forall j :: 0 <= j < i ==> next.pt.fields[j] == Reduce(reducers[j], a, committed[j])
        invariant forall j :: i <= j < |reducers| ==> next.pt.fields[j] == committed[j]
        invariant next.pt == state.pt <==>
          forall j :: 0 <= j < i ==> IsEqual(committed[j], Reduce(reducers[j], a, committed[j]))
        invariant next.pt == state.pt ==>
          state.pt.owners == {state, next} && state.pt.holders == 2
        invariant next.pt != state.pt ==>
          fresh(next.pt) && next.pt.owners == {next} &&
          state.pt.owners == {state} && state.pt.holders == 1
      {
        var v := Reduce(reducers[i], a, state.Get(i));
        var _ := next.Update(i, v);
        i := i + 1;
      }
      assert next.pt.fields == NextFields(reducers, committed, a);
    }

    /** Calls every listener, in order, with (prev, next). */
    method Notify(prev: seq<Value>, next: seq<Value>)
      modifies this`notified
      ensures notified == old(notified) + Broadcast(listeners, prev, next)
    {
      var k := 0;
      while k < |listeners|
        invariant 0 <= k <= |listeners|
        invariant notified == old(notified) + Broadcast(listeners[..k], prev, next)
      {
        notified := notified + [Call(listeners[k], prev, next)];
        k := k + 1;
        assert Broadcast(listeners[..k], prev, next) ==
          Broadcast(listeners[..k - 1], prev, next) + [Call(listeners[k - 1], prev, next)];
      }
      assert listeners[..k] == listeners;
    }

    /**
     * `addListener(l, immediate)`: with `immediate` the listener is first
     * called with the committed state as both arguments; it is then
     * appended to the listeners.
     */
    method AddListener(l: L, immediate: bool)
      requires Valid()
      modifies this
      ensures Valid() && Fields() == old(Fields())
      ensures listeners == old(listeners) + [l]
      ensures immediate ==> notified == old(notified) + [Call(l, Fields(), Fields())]
      ensures !immediate ==> notified == old(notified)
    {
      if immediate {
        notified := notified + [Call(l, state.pt.fields, state.pt.fields)];
      }
      listeners := listeners + [l];
    }
  }
}
