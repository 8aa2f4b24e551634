/**
 * The provider: it owns the root component and ends the main loop on
 * request. `render` registers two listeners on the store: an exit check,
 * which asks for the exit whenever one of the exit predicates holds on the
 * next state, and a root update, which sends the next state down the tree.
 * It then creates the root component from default props.
 */
module Provider {
  import opened ImmutableStruct
  import opened Component
  import opened Render
  import opened StoreUpdate
  import opened Store

  /**
   * `ShouldExit<Predicates...>::shouldExit(state)`: the first predicate,
   * or else the rest; false when there are none.
   */
  function ShouldExit<S>(preds: seq<S -> bool>, s: S): (r: bool)
    ensures r <==> exists k :: 0 <= k < |preds| && preds[k](s)
    decreases |preds|
  {
    if preds == [] then false
    else
      var rest := ShouldExit(preds[1..], s);
      assert forall k :: 1 <= k < |preds| ==> preds[1..][k - 1] == preds[k];
      preds[0](s) || rest
  }

  /**
   * How many predicates `shouldExit` calls: `||` stops at the first that
   * holds, so every one before it was called and found false, and none
   * after it is called.
   */
  function Evaluated<S>(preds: seq<S -> bool>, s: S): (e: nat)
    ensures e <= |preds|
    ensures forall j :: 0 <= j < e - 1 ==> !preds[j](s)
    ensures ShouldExit(preds, s) ==> 1 <= e && preds[e - 1](s)
    ensures !ShouldExit(preds, s) ==> e == |preds|
    decreases |preds|
  {
    if preds == [] then 0
    else if preds[0](s) then 1
    else
      var e := Evaluated(preds[1..], s);
      assert forall j :: 1 <= j < |preds| ==> preds[1..][j - 1] == preds[j];
      1 + e
  }

  /** The listeners `render` registers. */
  datatype Listener = ExitCheck(preds: seq<seq<Value> -> bool>) | RootUpdate

  class Provider {
    /** The class table of the application. */
    const env: Types
    /** `root_elm_`. */
    var root: Option<Node>
    /** Number of `exit_()` calls made. */
    var exits: nat

    /** The root, once created, is a mounted component of the table. */
    ghost predicate Valid()
      reads this
    {
      TypesOk(env) && (root.Some? ==> NodeOk(env, root.value) && Mounted(env, root.value))
    }

    constructor (env: Types)
      requires TypesOk(env)
      ensures Valid() && this.env == env && root == None && exits == 0
    {
      this.env := env;
      root := None;
      exits := 0;
    }

    /**
     * One call of a listener `render` registered, with (prev, next). The
     * exit check calls `exit_()` exactly when a predicate holds on `next`,
     * whatever `prev` is; the root update sends `next` to the root.
     */
    method Deliver(c: Call<Listener>)
      requires Valid() && (c.listener.RootUpdate? ==> root.Some?)
      modifies this
      ensures Valid() && (root.Some? <==> old(root).Some?)
      ensures c.listener.ExitCheck? ==>
        root == old(root) && exits == old(exits) + (if ShouldExit(c.listener.preds, c.next) then 1 else 0)
      ensures c.listener.RootUpdate? ==>
        exits == old(exits) && root.value.hash == old(root).value.hash &&
        root.value.props == Mapped(env, old(root).value, c.next).fields &&
        (Quiet(env) ==> root == old(root))
    {
      match c.listener
      case ExitCheck(preds) =>
        if ShouldExit(preds, c.next) {
          exits := exits + 1;
        }
      case RootUpdate =>
        var r, _ := OnStoreUpdate(env, root.value, c.next);
        root := Some(r);
    }

    /**
     * `render<C>(store, exit_predicates...)`: the exit check is registered
     * with an immediate call, so it runs at once on the committed state;
     * the root update is registered after it, without one; then the root
     * is created from the class's default props and rendered.
     */
    method Render(store: Store<Listener>, hash: int, preds: seq<seq<Value> -> bool>)
      requires Valid() && store.Valid() && hash in env
      modifies this, store
      ensures Valid() && store.Valid() && store.Fields() == old(store.Fields())
      ensures store.listeners == old(store.listeners) + [ExitCheck(preds), RootUpdate]
      ensures store.notified == old(store.notified) + [Call(ExitCheck(preds), store.Fields(), store.Fields())]
      ensures exits == old(exits) + (if ShouldExit(preds, store.Fields()) then 1 else 0)
      ensures root.Some? && root.value.hash == hash && root.value.props == env[hash].defaults
      ensures root.value.updated && root.value.children == []
    {
      store.AddListener(ExitCheck(preds), true);
      Deliver(Call(ExitCheck(preds), store.state.pt.fields, store.state.pt.fields));
      store.AddListener(RootUpdate, false);
      var c := CreateComponent(env, hash, env[hash].defaults, []);
      root := Some(c);
    }
  }
}
