/**
 * Rendering (`ComponentBase::render`, `ComponentHolderT::render_`,
 * `EndComponent::render_`, `createComponent`, `renderComponent`, the
 * `ComponentRenderer` destructor and `ComponentRendererHelper::updateProps`).
 *
 * The calls recurse through the tree; every call is on a class of a lower
 * level than its caller's, which is what makes them terminate.
 */
module Render {
  import opened ImmutableStruct
  import opened Props
  import opened Component
  import opened Reconcile

  /** The holders a block of child renders creates, the first at address `base`. */
  function NewChildren(cs: seq<ChildSpec>, base: nat): seq<Holder> {
    Declared(ChildRenderers(cs), base)
  }

  /** The props `updateProps(prev)` returns, and whether they are unequal to `prev`. */
  datatype Next = Next(props: seq<Value>, children: seq<Holder>, changed: bool)

  /** What a main render asks of the props it updates. */
  ghost predicate UpdateOk(env: Types, m: MainRender, prevProps: seq<Value>, prevChildren: seq<Holder>) {
    m.child in env && |prevProps| == |env[m.child].defaults| && Fits(|prevProps|, m.attributes) &&
    (m.children.Some? ==> m.children.value != [] && SpecsOk(env, Level(env, m.child), m.children.value)) &&
    AllOk(env, prevChildren)
  }

  /**
   * `updateProps(prev)`: the ATTRIBUTES applied to a copy of `prev`; then,
   * unless the children creator is trivial, the children field set to the
   * new holders merged with the previous ones. The new holders have
   * addresses no previous holder has. The result is unequal to `prev` when
   * an attribute stored an unequal value or the merged list is not the
   * same holders as before.
   */
  function NextProps(env: Types, m: MainRender, prevProps: seq<Value>, prevChildren: seq<Holder>): (x: Next)
    requires UpdateOk(env, m, prevProps, prevChildren)
    ensures |x.props| == |prevProps| && AllOk(env, x.children)
  {
    var o := Apply(prevProps, m.attributes);
    if m.children.None? then Next(o.fields, prevChildren, o.changed)
    else
      var created := NewChildren(m.children.value, FreshRef(prevChildren));
      NewHoldersOk(env, Level(env, m.child), m.children.value, FreshRef(prevChildren));
      var merged := Merged(env, created, prevChildren);
      Next(o.fields, merged, o.changed || Refs(merged) != Refs(prevChildren))
  }

  /** The previous holders after `updateProps`: emptied where a component moved out. */
  function PrevAfter(env: Types, m: MainRender, prevProps: seq<Value>, prevChildren: seq<Holder>): seq<Holder>
    requires UpdateOk(env, m, prevProps, prevChildren)
  {
    if m.children.None? then prevChildren
    else
      var created := NewChildren(m.children.value, FreshRef(prevChildren));
      NewHoldersOk(env, Level(env, m.child), m.children.value, FreshRef(prevChildren));
      Drained(env, created, prevChildren)
  }

  method UpdateProps(env: Types, m: MainRender, prevProps: seq<Value>, prevChildren: seq<Holder>)
    returns (x: Next, prevAfter: seq<Holder>)
    requires UpdateOk(env, m, prevProps, prevChildren)
    ensures x == NextProps(env, m, prevProps, prevChildren)
    ensures prevAfter == PrevAfter(env, m, prevProps, prevChildren)
  {
    var o := Apply(prevProps, m.attributes);
    if m.children.None? {
      x, prevAfter := Next(o.fields, prevChildren, o.changed), prevChildren;
    } else {
      var base := FreshRef(prevChildren);
      var created := DestroyRenderers(ChildRenderers(m.children.value), base);
      NewHoldersOk(env, Level(env, m.child), m.children.value, base);
      var merged;
      merged, prevAfter := MergeChildren(env, created, prevChildren);
      x := Next(o.fields, merged, o.changed || Refs(merged) != Refs(prevChildren));
    }
  }

  /**
   * When `updateProps` finds nothing changed, no live component moved out
   * of a previous holder and the props are the previous ones: keeping the
   * old node as it was loses nothing.
   */
  lemma UnchangedMovesNothing(env: Types, m: MainRender, prevProps: seq<Value>, prevChildren: seq<Holder>)
    requires UpdateOk(env, m, prevProps, prevChildren)
    requires !NextProps(env, m, prevProps, prevChildren).changed
    ensures PrevAfter(env, m, prevProps, prevChildren) == prevChildren
    ensures NextProps(env, m, prevProps, prevChildren).props == prevProps
  {
    if m.children.Some? {
      var base := FreshRef(prevChildren);
      var created := NewChildren(m.children.value, base);
      NewHoldersOk(env, Level(env, m.child), m.children.value, base);
      var merged := Merged(env, created, prevChildren);
      assert Refs(merged) == Refs(prevChildren);
      forall j | 0 <= j < |prevChildren| ensures !Taken(env, created, prevChildren, j) {
        TakenWitness(env, created, prevChildren, j);
        forall i | 0 <= i < |created| ensures MovesFrom(env, created[i], prevChildren) != Some(j) {
          MergedAt(env, created, prevChildren, i);
          assert Refs(merged)[i] == Refs(prevChildren)[i];
          assert merged[i].ref < base <= created[i].ref;
        }
      }
    }
  }

  /** Merging keeps every live component mounted. */
  lemma MergedStaysLive(env: Types, next: seq<Holder>, prev: seq<Holder>)
    requires AllOk(env, next) && AllOk(env, prev)
    requires forall k :: 0 <= k < |next| ==> HolderLive(env, next[k])
    requires forall k :: 0 <= k < |prev| ==> HolderLive(env, prev[k])
    ensures forall k :: 0 <= k < |next| ==> HolderLive(env, Merged(env, next, prev)[k])
  {
    forall k | 0 <= k < |next| ensures HolderLive(env, Merged(env, next, prev)[k]) {
      MergedAt(env, next, prev, k);
      var m := MovesFrom(env, next[k], prev);
      if m.Some? {
        assert HolderLive(env, prev[m.value]);
      }
    }
  }

  // -------------------------------------------------------------- rendering

  /**
   * What `render()` on a holder leaves: a mounted holder with no pending
   * props and its flag set. With no live component, the component is
   * created from the props of the last updater; with pending props, the
   * live component is re-rendered with them; otherwise the component is
   * left alone.
   */
  ghost predicate RenderedFrom(env: Types, h: Holder, r: Holder)
    requires HolderOk(env, h)
  {
    HolderOk(env, r) && HolderMounted(env, r) &&
    r == h.(updated := true, nextProps := None, component := r.component) &&
    (h.component.None? ==>
       r.component.value.props == Apply(env[h.hash].defaults, h.updaters[|h.updaters| - 1].attributes).fields &&
       r.component.value.updated) &&
    (h.component.Some? && h.nextProps.Some? ==>
       r.component.value.props == h.nextProps.value && r.component.value.updated) &&
    (h.component.Some? && h.nextProps.None? ==> r.component == h.component)
  }

  /** Rendering a holder twice in a row: the second render changes nothing. */
  lemma SecondHolderRenderIsNoOp(env: Types, h: Holder, r: Holder, r2: Holder)
    requires HolderOk(env, h) && RenderedFrom(env, h, r) && RenderedFrom(env, r, r2)
    ensures r2 == r
  {
  }

  /**
   * What the `ComponentRenderer` destructor leaves in a component `n` whose
   * render names `m`: node type `m.child` and a live node of that class.
   * When the class changed or there was no node, a new node is created
   * from the default props; otherwise the node is re-rendered with the
   * recomputed props when they are unequal to its props, and left exactly
   * as it was when they are not.
   */
  ghost predicate MainRendered(env: Types, n: Node, r: Node)
    requires TypesOk(env) && NodeOk(env, n) && env[n.hash].kind == Composite
  {
    assert TypeOk(env, env[n.hash]);
    var m := env[n.hash].render(n.props);
    r.nodeType == m.child && r.main.Some? && r.main.value.hash == m.child &&
    if n.main.None? || n.nodeType != m.child then
      r.main.value.props == Apply(env[m.child].defaults, m.attributes).fields && r.main.value.updated &&
      Refs(r.main.value.children) == (if m.children.Some? then Refs(NewChildren(m.children.value, 0)) else [])
    else
      var t := n.main.value;
      NodeOkFacts(env, t);
      var x := NextProps(env, m, t.props, t.children);
      if x.changed then
        r.main.value.props == x.props && r.main.value.updated && Refs(r.main.value.children) == Refs(x.children)
      else r.main == n.main
  }

  /** `createComponent<C>(props)`: a new component of class `hash`, rendered at once. */
  method CreateComponent(env: Types, hash: int, props: seq<Value>, children: seq<Holder>) returns (r: Node)
    requires TypesOk(env) && hash in env && |props| == |env[hash].defaults|
    requires forall k :: 0 <= k < |children| ==>
      HolderOk(env, children[k]) && Level(env, children[k].hash) < Level(env, hash) &&
      HolderLive(env, children[k])
    ensures NodeOk(env, r) && Mounted(env, r) && r.updated
    ensures r.hash == hash && r.props == props && Refs(r.children) == Refs(children)
    ensures env[hash].kind == Composite ==>
      var m := env[hash].render(props);
      r.nodeType == m.child && r.main.Some? && r.main.value.hash == m.child &&
      r.main.value.props == Apply(env[m.child].defaults, m.attributes).fields
    decreases Level(env, hash), 3
  {
    var n := Node(hash, false, props, children, 0, None);
    r := Render(env, n);
  }

  /** `renderComponent<C>(component, props)`: set the props, then render. */
  method RenderComponent(env: Types, n: Node, props: seq<Value>) returns (r: Node)
    requires TypesOk(env) && NodeOk(env, n) && Live(env, n) && |props| == |n.props|
    ensures NodeOk(env, r) && Mounted(env, r) && r.updated
    ensures r.hash == n.hash && r.props == props && Refs(r.children) == Refs(n.children)
    decreases Level(env, n.hash), 3
  {
    r := Render(env, n.(props := props));
  }

  /**
   * `render()`: `render_`, then `updated_ = true`. A component runs its
   * render, whose main renderer updates its node; an end component renders
   * each of its child holders, in order.
   */
  method Render(env: Types, n: Node) returns (r: Node)
    requires TypesOk(env) && NodeOk(env, n) && Live(env, n)
    ensures NodeOk(env, r) && Mounted(env, r) && r.updated
    ensures r.hash == n.hash && r.props == n.props && Refs(r.children) == Refs(n.children)
    ensures env[n.hash].kind == Composite ==>
      r == n.(updated := true, nodeType := r.nodeType, main := r.main) && MainRendered(env, n, r)
    ensures env[n.hash].kind == End ==>
      r == n.(updated := true, children := r.children) &&
      forall k :: 0 <= k < |n.children| ==> RenderedFrom(env, n.children[k], r.children[k])
    decreases Level(env, n.hash), 2
  {
    if env[n.hash].kind == Composite {
      r := RenderMain(env, n);
    } else {
      var kids := RenderChildren(env, Level(env, n.hash), n.children);
      r := n.(children := kids);
    }
    r := r.(updated := true);
  }

  /** `EndComponent::render_`: `render()` on every child holder, in list order. */
  method RenderChildren(env: Types, level: nat, hs: seq<Holder>) returns (rs: seq<Holder>)
    requires TypesOk(env)
    requires forall k :: 0 <= k < |hs| ==>
      HolderOk(env, hs[k]) && Level(env, hs[k].hash) < level && HolderLive(env, hs[k])
    ensures |rs| == |hs|
    ensures forall k :: 0 <= k < |hs| ==>
      RenderedFrom(env, hs[k], rs[k]) && Level(env, rs[k].hash) < level
    decreases level, 1
  {
    rs := [];
    var i := 0;
    while i < |hs|
      invariant 0 <= i <= |hs| && |rs| == i
      invariant forall k :: 0 <= k < i ==> RenderedFrom(env, hs[k], rs[k]) && Level(env, rs[k].hash) < level
    {
      var r := RenderHolder(env, hs[i]);
      rs := rs + [r];
      i := i + 1;
    }
  }

  /**
   * `render()` on a holder: with no live component, run the updaters on
   * no component and create it from the pending props; with pending
   * props, re-render the live component with them; otherwise nothing.
   * Moving the pending props out leaves none. Then `updated_ = true`.
   */
  method RenderHolder(env: Types, h: Holder) returns (r: Holder)
    requires TypesOk(env) && HolderOk(env, h) && HolderLive(env, h)
    ensures RenderedFrom(env, h, r)
    decreases Level(env, h.hash), 4
  {
    r := h;
    if h.component.None? {
      var _, calculated := CalculateNextProps(env, h, None);
      FirstRenderUsesLastUpdater(h.updaters, env[h.hash].defaults, h.nextProps);
      var c := CreateComponent(env, h.hash, calculated.nextProps.value, []);
      r := calculated.(component := Some(c), nextProps := None);
    } else if h.nextProps.Some? {
      MountedIsLive(env, h.component.value);
      var c := RenderComponent(env, h.component.value, h.nextProps.value);
      r := h.(component := Some(c), nextProps := None);
    }
    r := r.(updated := true);
  }

  /**
   * The `ComponentRenderer` destructor: rebuild the node when its class is
   * not the one rendered or there is none; otherwise recompute its props
   * and re-render it only when they are unequal to its props, giving it
   * back either way.
   */
  method RenderMain(env: Types, n: Node) returns (r: Node)
    requires TypesOk(env) && NodeOk(env, n) && Live(env, n) && env[n.hash].kind == Composite
    ensures NodeOk(env, r) && Mounted(env, r)
    ensures r == n.(nodeType := r.nodeType, main := r.main)
    ensures MainRendered(env, n, r)
    decreases Level(env, n.hash), 1
  {
    if env[n.hash].render(n.props).child != n.nodeType || n.main.None? {
      r := RebuildMain(env, n);
    } else {
      r := UpdateMain(env, n);
    }
  }

  /** A node of the rendered class, created from default props and the rendered children. */
  method RebuildMain(env: Types, n: Node) returns (r: Node)
    requires TypesOk(env) && NodeOk(env, n) && Live(env, n) && env[n.hash].kind == Composite
    requires env[n.hash].render(n.props).child != n.nodeType || n.main.None?
    ensures NodeOk(env, r) && Mounted(env, r)
    ensures r == n.(nodeType := r.nodeType, main := r.main)
    ensures MainRendered(env, n, r)
    decreases Level(env, n.hash), 0
  {
    assert TypeOk(env, env[n.hash]);
    var m := env[n.hash].render(n.props);
    var x, _ := UpdateProps(env, m, env[m.child].defaults, []);
    if m.children.Some? {
      NewHoldersOk(env, Level(env, m.child), m.children.value, 0);
      MergeWithNothing(env, NewChildren(m.children.value, 0));
    }
    var c := CreateComponent(env, m.child, x.props, x.children);
    r := n.(nodeType := m.child, main := Some(c));
  }

  /** The node kept, re-rendered with the recomputed props only when they are unequal to its props. */
  method UpdateMain(env: Types, n: Node) returns (r: Node)
    requires TypesOk(env) && NodeOk(env, n) && Live(env, n) && env[n.hash].kind == Composite
    requires env[n.hash].render(n.props).child == n.nodeType && n.main.Some?
    ensures NodeOk(env, r) && Mounted(env, r)
    ensures r == n.(main := r.main)
    ensures MainRendered(env, n, r)
    decreases Level(env, n.hash), 0
  {
    assert TypeOk(env, env[n.hash]);
    var m := env[n.hash].render(n.props);
    var t := n.main.value;
    NodeOkFacts(env, t);
    var x, prevAfter := UpdateProps(env, m, t.props, t.children);
    if x.changed {
      NextChildrenOk(env, m, t);
      var c := RenderComponent(env, t.(props := x.props, children := x.children), x.props);
      r := n.(main := Some(c));
    } else {
      UnchangedMovesNothing(env, m, t.props, t.children);
      r := n.(main := Some(t.(children := prevAfter)));
    }
  }

  /** The recomputed children of a live node are well formed, below its class, and live. */
  lemma NextChildrenOk(env: Types, m: MainRender, t: Node)
    requires NodeOk(env, t) && Mounted(env, t) && UpdateOk(env, m, t.props, t.children) && m.child == t.hash
    ensures var x := NextProps(env, m, t.props, t.children);
      NodeOk(env, t.(props := x.props, children := x.children)) &&
      Live(env, t.(props := x.props, children := x.children))
  {
    var x := NextProps(env, m, t.props, t.children);
    assert forall k :: 0 <= k < |t.children| ==> HolderLive(env, t.children[k]);
    if m.children.Some? {
      var created := NewChildren(m.children.value, FreshRef(t.children));
      NewHoldersOk(env, Level(env, m.child), m.children.value, FreshRef(t.children));
      MergedStaysLive(env, created, t.children);
      forall k | 0 <= k < |x.children| ensures Level(env, x.children[k].hash) < Level(env, t.hash) {
        MergedAt(env, created, t.children, k);
      }
    }
  }
}
