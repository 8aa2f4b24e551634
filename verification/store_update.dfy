/**
 * Store updates flowing down the tree (`onStoreUpdate(next_state)`). A
 * component first runs its own hook, which with a MAP_STATE_TO_PROPS list
 * applies the list to a copy of its props and re-renders itself when the
 * copy is not its props; it then forwards the update to its node. An end
 * component forwards it to each of its child holders, in order, and a
 * holder to its component.
 */
module StoreUpdate {
  import opened ImmutableStruct
  import opened Props
  import opened Component
  import opened Reconcile
  import opened Render

  /** No class of the table has a MAP_STATE_TO_PROPS list. */
  predicate Quiet(env: Types) {
    forall h :: h in env ==> env[h].mapState.None?
  }

  /**
   * What a component's hook computes on the next state: its
   * MAP_STATE_TO_PROPS list applied to a copy of its props, or its props
   * unchanged when its class has no list.
   */
  function Mapped(env: Types, n: Node, st: seq<Value>): (o: Outcome)
    requires TypesOk(env) && NodeOk(env, n)
    ensures |o.fields| == |n.props|
  {
    var t := env[n.hash];
    if t.mapState.Some? then
      assert TypeOk(env, t);
      Apply(n.props, t.mapState.value(st, n.props))
    else Outcome(n.props, false)
  }

  /** The classes of the components a store update reaches, in the order their hooks run. */
  function Preorder(env: Types, n: Node): seq<int>
    requires NodeOk(env, n)
    decreases n, 1
  {
    if env[n.hash].kind == Composite then
      [n.hash] + (if n.main.Some? then Preorder(env, n.main.value) else [])
    else [n.hash] + PreorderAll(env, n.children)
  }

  function HolderPreorder(env: Types, h: Holder): seq<int>
    requires HolderOk(env, h)
    decreases h, 1
  {
    if h.component.Some? then Preorder(env, h.component.value) else []
  }

  function PreorderAll(env: Types, hs: seq<Holder>): seq<int>
    requires forall k :: 0 <= k < |hs| ==> HolderOk(env, hs[k])
    decreases hs, 0
  {
    if hs == [] then []
    else PreorderAll(env, hs[..|hs| - 1]) + HolderPreorder(env, hs[|hs| - 1])
  }

  /**
   * `onStoreUpdate(next_state)` on a mounted component: the hook, then
   * the update forwarded to the node of a component, or to each child
   * holder of an end component. Its props become what its hook computed;
   * it is re-rendered exactly when those are not its props, and otherwise
   * keeps everything but what the update did below it. Every component of
   * the resulting tree ran its hook once, parents before children, and
   * with no MAP_STATE_TO_PROPS list anywhere the tree is left as it was.
   */
  method OnStoreUpdate(env: Types, n: Node, st: seq<Value>) returns (r: Node, visited: seq<int>)
    requires TypesOk(env) && NodeOk(env, n) && Mounted(env, n)
    ensures NodeOk(env, r) && Mounted(env, r)
    ensures r.hash == n.hash && r.props == Mapped(env, n, st).fields && Refs(r.children) == Refs(n.children)
    ensures Mapped(env, n, st).changed ==> r.updated
    ensures env[n.hash].kind == Composite && !Mapped(env, n, st).changed ==> r == n.(main := r.main)
    ensures env[n.hash].kind == End && !Mapped(env, n, st).changed ==>
      r == n.(children := r.children) &&
      forall k :: 0 <= k < |n.children| ==> r.children[k] == n.children[k].(component := r.children[k].component)
    ensures visited == Preorder(env, r)
    ensures Quiet(env) ==> r == n
    decreases Level(env, n.hash), 2
  {
    var t := RunHook(env, n, st);
    if env[n.hash].kind == Composite {
      // Component::onStoreUpdate forwards to the node
      var m, v := OnStoreUpdate(env, t.main.value, st);
      r := t.(main := Some(m));
      visited := [n.hash] + v;
    } else {
      // EndComponent::onStoreUpdate forwards to every child holder
      NodeOkFacts(env, t);
      var kids, v := ForwardChildren(env, Level(env, n.hash), t.children, st);
      r := t.(children := kids);
      visited := [n.hash] + v;
    }
  }

  /**
   * `onStoreUpdate_` as MAP_STATE_TO_PROPS defines it: the list applied to
   * a copy of the props, and `renderComponent` with that copy when it is
   * not the props; a class without a list does nothing.
   */
  method RunHook(env: Types, n: Node, st: seq<Value>) returns (t: Node)
    requires TypesOk(env) && NodeOk(env, n) && Mounted(env, n)
    ensures NodeOk(env, t) && Mounted(env, t)
    ensures t.hash == n.hash && t.props == Mapped(env, n, st).fields && Refs(t.children) == Refs(n.children)
    ensures Mapped(env, n, st).changed ==> t.updated
    ensures !Mapped(env, n, st).changed ==> t == n
  {
    var o := Mapped(env, n, st);
    t := n;
    if o.changed {
      MountedIsLive(env, n);
      t := RenderComponent(env, n, o.fields);
    }
  }

  /** A holder below `level` that a store update can reach. */
  ghost predicate Reachable(env: Types, level: nat, h: Holder) {
    HolderOk(env, h) && Level(env, h.hash) < level && HolderMounted(env, h)
  }

  /** `r` is holder `h` after the update reached it: only its component changed, and with no list nothing did. */
  ghost predicate Forwarded(env: Types, level: nat, h: Holder, r: Holder) {
    HolderOk(env, r) && Reachable(env, level, r) && r == h.(component := r.component) &&
    (Quiet(env) ==> r == h)
  }

  /** Appending one holder appends what the update reaches through it. */
  lemma PreorderAllSnoc(env: Types, hs: seq<Holder>, h: Holder)
    requires forall k :: 0 <= k < |hs| ==> HolderOk(env, hs[k])
    requires HolderOk(env, h)
    ensures PreorderAll(env, hs + [h]) == PreorderAll(env, hs) + HolderPreorder(env, h)
  {
    assert (hs + [h])[..|hs|] == hs;
  }

  /** The loop of `EndComponent::onStoreUpdate`: every child holder, in list order. */
  method ForwardChildren(env: Types, level: nat, hs: seq<Holder>, st: seq<Value>)
    returns (rs: seq<Holder>, visited: seq<int>)
    requires TypesOk(env)
    requires forall k :: 0 <= k < |hs| ==> Reachable(env, level, hs[k])
    ensures |rs| == |hs|
    ensures forall k :: 0 <= k < |hs| ==> HolderOk(env, rs[k]) && Forwarded(env, level, hs[k], rs[k])
    ensures Refs(rs) == Refs(hs)
    ensures visited == PreorderAll(env, rs)
    decreases level, 1
  {
    rs, visited := [], [];
    var i := 0;
    while i < |hs|
      invariant 0 <= i <= |hs| && |rs| == i
      invariant forall k :: 0 <= k < i ==> Forwarded(env, level, hs[k], rs[k])
      invariant visited == PreorderAll(env, rs)
    {
      var h, v := HolderOnStoreUpdate(env, hs[i], st);
      PreorderAllSnoc(env, rs, h);
      rs := rs + [h];
      visited := visited + v;
      i := i + 1;
    }
    assert forall k :: 0 <= k < |hs| ==> rs[k].ref == hs[k].ref;
  }

  /** `ComponentHolderT::onStoreUpdate`: forwarded to the component, which a mounted holder has. */
  method HolderOnStoreUpdate(env: Types, h: Holder, st: seq<Value>) returns (r: Holder, visited: seq<int>)
    requires TypesOk(env) && HolderOk(env, h) && HolderMounted(env, h)
    ensures HolderOk(env, r) && HolderMounted(env, r)
    ensures r == h.(component := r.component)
    ensures visited == HolderPreorder(env, r)
    ensures Quiet(env) ==> r == h
    decreases Level(env, h.hash), 3
  {
    var c, v := OnStoreUpdate(env, h.component.value, st);
    r := h.(component := Some(c));
    visited := v;
  }
}
