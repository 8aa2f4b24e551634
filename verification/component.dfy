/**
 * The component tree. A component (`Component<StoreT>`) renders a single
 * node; an end component (`EndComponent<T>`) draws on the canvas and holds
 * the child holders in its `children` prop; a holder (`ComponentHolderT`)
 * holds at most one live component and the props it is to be given next.
 *
 * Components are values here: a `Node` is a component with its subtree, a
 * `Holder` a holder with its component. Every operation that changes a
 * component in place returns the changed value instead. A holder carries
 * its address `ref`, so that "the same holder" can be told apart from "a
 * holder with the same key".
 *
 * A component class is identified by its type hash; `Types` maps each hash
 * to what the framework needs to know about the class.
 */
module Component {
  import opened ImmutableStruct
  import opened Canvas
  import opened Props

  datatype Kind = Composite | End

  /** `RENDER_CHILD_COMPONENT(C, id, ATTRIBUTES(...))`: a child holder to create. */
  datatype ChildSpec = ChildSpec(id: string, hash: int, attributes: seq<Assign>)

  /**
   * What a component's render names: `RENDER_COMPONENT(C, ATTRIBUTES(...))`
   * with the child components its block creates, in the order their holders
   * end up in; `None` for a trivial children creator, one whose block
   * reaches no `RENDER_CHILD_COMPONENT` (`NO_CHILDREN`, or every child
   * render skipped), so `Some` always holds at least one spec.
   */
  datatype MainRender = MainRender(child: int, attributes: seq<Assign>, children: Option<seq<ChildSpec>>)

  /**
   * A component class. `level` bounds the depth of what it renders; `render`
   * is a component's render on its props; `mapState` its MAP_STATE_TO_PROPS
   * list on (next state, props); `draw` an end component's own `present`,
   * giving the canvas its children are presented on.
   */
  datatype TypeInfo = TypeInfo(
    kind: Kind,
    level: nat,
    defaults: seq<Value>,
    render: seq<Value> -> MainRender,
    mapState: Option<(seq<Value>, seq<Value>) -> seq<Assign>>,
    draw: (seq<Value>, Surface) -> Surface)

  type Types = map<int, TypeInfo>

  /**
   * A component: its type hash, `updated_`, its props without `children`,
   * the holders in `children`, and for a component `node_type_` and `node_`.
   */
  datatype Node = Node(hash: int, updated: bool, props: seq<Value>, children: seq<Holder>,
                       nodeType: int, main: Option<Node>)

  /** A holder: address, `id_`, `component_type_hash_`, `updated_`, `updaters_`, `next_props_`, `component_`. */
  datatype Holder = Holder(ref: nat, id: string, hash: int, updated: bool, updaters: seq<Updater>,
                           nextProps: Option<seq<Value>>, component: Option<Node>)

  /** The children specs of one render have distinct (type hash, id) keys. */
  predicate DistinctSpecs(cs: seq<ChildSpec>) {
    forall a, b :: 0 <= a < b < |cs| ==> cs[a].hash != cs[b].hash || cs[a].id != cs[b].id
  }

  ghost predicate SpecOk(env: Types, level: nat, c: ChildSpec) {
    c.hash in env && env[c.hash].level < level && Fits(|env[c.hash].defaults|, c.attributes)
  }

  /** Specs of distinct keys, each of a class below `level`. */
  ghost predicate SpecsOk(env: Types, level: nat, cs: seq<ChildSpec>) {
    DistinctSpecs(cs) && forall k :: 0 <= k < |cs| ==> SpecOk(env, level, cs[k])
  }

  /** A main render names a class of a lower level, and children of a still lower level. */
  ghost predicate MainOk(env: Types, level: nat, m: MainRender) {
    m.child in env && env[m.child].level < level &&
    Fits(|env[m.child].defaults|, m.attributes) &&
    (m.children.Some? ==> m.children.value != [] && SpecsOk(env, env[m.child].level, m.children.value))
  }

  ghost predicate TypeOk(env: Types, t: TypeInfo) {
    (t.mapState.Some? ==>
       forall st, p :: |p| == |t.defaults| ==> Fits(|t.defaults|, t.mapState.value(st, p))) &&
    (t.kind == Composite ==> forall p :: |p| == |t.defaults| ==> MainOk(env, t.level, t.render(p)))
  }

  /** Every class in the table is well formed. */
  ghost predicate TypesOk(env: Types) {
    forall h :: h in env ==> TypeOk(env, env[h])
  }

  function Level(env: Types, hash: int): nat
    requires hash in env
  {
    env[hash].level
  }

  /**
   * A component whose class is known, whose props fit it, whose node (if
   * any) is of a lower level and whose child holders are of lower levels.
   */
  ghost predicate NodeOk(env: Types, n: Node)
    decreases n
  {
    n.hash in env && |n.props| == |env[n.hash].defaults| &&
    (forall k :: 0 <= k < |n.children| ==>
       HolderOk(env, n.children[k]) && Level(env, n.children[k].hash) < Level(env, n.hash)) &&
    (n.main.Some? ==>
       env[n.hash].kind == Composite && n.main.value.hash == n.nodeType &&
       NodeOk(env, n.main.value) && Level(env, n.nodeType) < Level(env, n.hash))
  }

  /** What a well-formed component says about its props and children, one level down. */
  lemma NodeOkFacts(env: Types, n: Node)
    requires NodeOk(env, n)
    ensures |n.props| == |env[n.hash].defaults|
    ensures forall k :: 0 <= k < |n.children| ==>
      HolderOk(env, n.children[k]) && Level(env, n.children[k].hash) < Level(env, n.hash)
  {
  }

  /** A holder with at least one updater, all fitting its class, and a component of that class. */
  ghost predicate HolderOk(env: Types, h: Holder)
    decreases h
  {
    h.hash in env && |h.updaters| >= 1 && UpdatersFit(|env[h.hash].defaults|, h.updaters) &&
    (h.nextProps.Some? ==> |h.nextProps.value| == |env[h.hash].defaults|) &&
    (h.component.Some? ==> h.component.value.hash == h.hash && NodeOk(env, h.component.value))
  }

  /**
   * Every object that store updates reach exists: each component has its
   * node, each holder an end component holds has its component, and every
   * live component anywhere in the tree is itself mounted.
   */
  ghost predicate Mounted(env: Types, n: Node)
    requires NodeOk(env, n)
    decreases n, 1
  {
    if env[n.hash].kind == Composite then
      n.main.Some? && Mounted(env, n.main.value) &&
      forall k :: 0 <= k < |n.children| ==> HolderLive(env, n.children[k])
    else forall k :: 0 <= k < |n.children| ==> HolderMounted(env, n.children[k])
  }

  ghost predicate HolderMounted(env: Types, h: Holder)
    requires HolderOk(env, h)
    decreases h, 1
  {
    h.component.Some? && Mounted(env, h.component.value)
  }

  /** A holder whose live component, if any, is mounted. */
  ghost predicate HolderLive(env: Types, h: Holder)
    requires HolderOk(env, h)
    decreases h, 0
  {
    h.component.Some? ==> Mounted(env, h.component.value)
  }

  /**
   * A component that may not have been rendered yet, but every live
   * component below it is mounted.
   */
  ghost predicate Live(env: Types, n: Node)
    requires NodeOk(env, n)
  {
    (n.main.Some? ==> Mounted(env, n.main.value)) &&
    forall k :: 0 <= k < |n.children| ==> HolderLive(env, n.children[k])
  }

  lemma MountedIsLive(env: Types, n: Node)
    requires NodeOk(env, n) && Mounted(env, n)
    ensures Live(env, n)
  {
  }

  // ---------------------------------------------------------------- present

  /** One call of an end component's own `present`: its class, its props and the canvas it was given. */
  datatype Paint = Paint(hash: int, props: seq<Value>, canvas: Surface)

  /**
   * The calls of end components' own `present` that presenting `n` on `s`
   * makes: a component forwards `parent || updated` to its node; an end
   * component redraws when `parent || updated`, and then presents its
   * children on the canvas its own `present` returned, with flag true;
   * otherwise it presents them on `s` with flag false.
   */
  function PaintsOf(env: Types, n: Node, s: Surface, parent: bool): seq<Paint>
    requires NodeOk(env, n)
    decreases n, 1
  {
    if env[n.hash].kind == Composite then
      (if n.main.Some? then PaintsOf(env, n.main.value, s, parent || n.updated) else [])
    else if parent || n.updated then
      [Paint(n.hash, n.props, s)] + PaintsAll(env, n.children, env[n.hash].draw(n.props, s), true)
    else PaintsAll(env, n.children, s, false)
  }

  /** A holder forwards the flag it was given to its component, if it has one. */
  function HolderPaints(env: Types, h: Holder, s: Surface, parent: bool): seq<Paint>
    requires HolderOk(env, h)
    decreases h, 1
  {
    if h.component.Some? then PaintsOf(env, h.component.value, s, parent) else []
  }

  /** The holders `hs` presented one after the other. */
  function PaintsAll(env: Types, hs: seq<Holder>, s: Surface, parent: bool): seq<Paint>
    requires forall k :: 0 <= k < |hs| ==> HolderOk(env, hs[k])
    decreases hs, 0
  {
    if hs == [] then []
    else PaintsAll(env, hs[..|hs| - 1], s, parent) + HolderPaints(env, hs[|hs| - 1], s, parent)
  }

  /** `n` after `present`: the flag of every object presented is clear. */
  function AfterPresent(env: Types, n: Node): Node
    requires NodeOk(env, n)
    decreases n, 1
  {
    if env[n.hash].kind == Composite then
      n.(updated := false, main := if n.main.Some? then Some(AfterPresent(env, n.main.value)) else None)
    else n.(updated := false, children := AfterPresentAll(env, n.children))
  }

  function AfterPresentHolder(env: Types, h: Holder): Holder
    requires HolderOk(env, h)
    decreases h, 1
  {
    h.(updated := false,
       component := if h.component.Some? then Some(AfterPresent(env, h.component.value)) else None)
  }

  function AfterPresentAll(env: Types, hs: seq<Holder>): seq<Holder>
    requires forall k :: 0 <= k < |hs| ==> HolderOk(env, hs[k])
    decreases hs, 0
  {
    if hs == [] then []
    else AfterPresentAll(env, hs[..|hs| - 1]) + [AfterPresentHolder(env, hs[|hs| - 1])]
  }

  /**
   * `present(canvas, parent_updated)` on a component: `present_`, then
   * `updated_ = false`. Returns the paints made and the component after.
   */
  method Present(env: Types, n: Node, s: Surface, parent: bool) returns (log: seq<Paint>, r: Node)
    requires NodeOk(env, n)
    ensures log == PaintsOf(env, n, s, parent)
    ensures r == AfterPresent(env, n)
    decreases n, 2
  {
    if env[n.hash].kind == Composite {
      // Component::present_: forward to the node
      if n.main.Some? {
        var m;
        log, m := Present(env, n.main.value, s, parent || n.updated);
        r := n.(main := Some(m));
      } else {
        log, r := [], n;
      }
    } else {
      // EndComponent::present_
      var redraw := parent || n.updated;
      var canvas := s;
      var own := [];
      if redraw {
        own := [Paint(n.hash, n.props, s)];
        canvas := env[n.hash].draw(n.props, s);
      }
      var l, kids := PresentChildren(env, n.children, canvas, redraw);
      log := own + l;
      r := n.(children := kids);
    }
    r := r.(updated := false);
  }

  /** The loop of `EndComponent::present_`: every child, in order, on the same canvas and flag. */
  method PresentChildren(env: Types, hs: seq<Holder>, s: Surface, parent: bool)
    returns (log: seq<Paint>, rs: seq<Holder>)
    requires forall k :: 0 <= k < |hs| ==> HolderOk(env, hs[k])
    ensures log == PaintsAll(env, hs, s, parent)
    ensures rs == AfterPresentAll(env, hs)
    decreases hs, 2
  {
    log, rs := [], [];
    var i := 0;
    while i < |hs|
      invariant 0 <= i <= |hs|
      invariant log == PaintsAll(env, hs[..i], s, parent)
      invariant rs == AfterPresentAll(env, hs[..i])
    {
      var l, h := PresentHolder(env, hs[i], s, parent);
      assert hs[..i + 1][..i] == hs[..i];
      log := log + l;
      rs := rs + [h];
      i := i + 1;
    }
    assert hs[..i] == hs;
  }

  /** `present` on a holder: forward the flag to the component, if any; then clear `updated_`. */
  method PresentHolder(env: Types, h: Holder, s: Surface, parent: bool) returns (log: seq<Paint>, r: Holder)
    requires HolderOk(env, h)
    ensures log == HolderPaints(env, h, s, parent)
    ensures r == AfterPresentHolder(env, h)
    decreases h, 2
  {
    r := h;
    log := [];
    if h.component.Some? {
      var c;
      log, c := Present(env, h.component.value, s, parent);
      r := r.(component := Some(c));
    }
    r := r.(updated := false);
  }

  // ------------------------------------------------- what present promises

  /** The end components presenting `n` reaches, in order, each with its props. */
  function Ends(env: Types, n: Node): seq<(int, seq<Value>)>
    requires NodeOk(env, n)
    decreases n, 1
  {
    if env[n.hash].kind == Composite then
      (if n.main.Some? then Ends(env, n.main.value) else [])
    else [(n.hash, n.props)] + EndsAll(env, n.children)
  }

  function HolderEnds(env: Types, h: Holder): seq<(int, seq<Value>)>
    requires HolderOk(env, h)
    decreases h, 1
  {
    if h.component.Some? then Ends(env, h.component.value) else []
  }

  function EndsAll(env: Types, hs: seq<Holder>): seq<(int, seq<Value>)>
    requires forall k :: 0 <= k < |hs| ==> HolderOk(env, hs[k])
    decreases hs, 0
  {
    if hs == [] then [] else EndsAll(env, hs[..|hs| - 1]) + HolderEnds(env, hs[|hs| - 1])
  }

  /** Which end component, with which props, each paint came from. */
  function Painted(ps: seq<Paint>): (r: seq<(int, seq<Value>)>)
    ensures |r| == |ps|
  {
    if ps == [] then [] else Painted(ps[..|ps| - 1]) + [(ps[|ps| - 1].hash, ps[|ps| - 1].props)]
  }

  lemma {:induction false} PaintedConcat(a: seq<Paint>, b: seq<Paint>)
    ensures Painted(a + b) == Painted(a) + Painted(b)
    decreases |b|
  {
    if b == [] {
      assert a + b == a;
    } else {
      var init := b[..|b| - 1];
      var last := b[|b| - 1];
      assert (a + b)[..|a + b| - 1] == a + init && (a + b)[|a + b| - 1] == last;
      PaintedConcat(a, init);
    }
  }

  /**
   * When the parent was updated, every end component below is repainted,
   * each once, in tree order, and nothing else is.
   */
  lemma {:induction false} RedrawPaintsEveryEnd(env: Types, n: Node, s: Surface)
    requires NodeOk(env, n)
    ensures Painted(PaintsOf(env, n, s, true)) == Ends(env, n)
    decreases n, 1
  {
    if env[n.hash].kind == Composite {
      if n.main.Some? {
        RedrawPaintsEveryEnd(env, n.main.value, s);
      }
    } else {
      var c := env[n.hash].draw(n.props, s);
      RedrawPaintsAll(env, n.children, c);
      PaintedConcat([Paint(n.hash, n.props, s)], PaintsAll(env, n.children, c, true));
      assert Painted([Paint(n.hash, n.props, s)]) == [(n.hash, n.props)];
    }
  }

  lemma {:induction false} RedrawPaintsAll(env: Types, hs: seq<Holder>, s: Surface)
    requires forall k :: 0 <= k < |hs| ==> HolderOk(env, hs[k])
    ensures Painted(PaintsAll(env, hs, s, true)) == EndsAll(env, hs)
    decreases hs, 0
  {
    if hs != [] {
      var init, last := hs[..|hs| - 1], hs[|hs| - 1];
      RedrawPaintsAll(env, init, s);
      if last.component.Some? {
        RedrawPaintsEveryEnd(env, last.component.value, s);
      }
      PaintedConcat(PaintsAll(env, init, s, true), HolderPaints(env, last, s, true));
    }
  }

  /**
   * The end components below `n` that have a set flag on themselves or on
   * some component above them, up to and including the parent (`parent`);
   * a holder's own flag is not forwarded.
   */
  function DirtyEnds(env: Types, n: Node, parent: bool): seq<(int, seq<Value>)>
    requires NodeOk(env, n)
    decreases n, 1
  {
    if env[n.hash].kind == Composite then
      (if n.main.Some? then DirtyEnds(env, n.main.value, parent || n.updated) else [])
    else if parent || n.updated then Ends(env, n)
    else DirtyEndsAll(env, n.children)
  }

  /** The dirty end components below holders whose parent was not updated. */
  function DirtyEndsAll(env: Types, hs: seq<Holder>): seq<(int, seq<Value>)>
    requires forall k :: 0 <= k < |hs| ==> HolderOk(env, hs[k])
    decreases hs, 0
  {
    if hs == [] then [] else DirtyEndsAll(env, hs[..|hs| - 1]) + HolderDirtyEnds(env, hs[|hs| - 1])
  }

  function HolderDirtyEnds(env: Types, h: Holder): seq<(int, seq<Value>)>
    requires HolderOk(env, h)
    decreases h, 1
  {
    if h.component.Some? then DirtyEnds(env, h.component.value, false) else []
  }

  /**
   * In any tree, dirty or clean or mixed, `present` repaints exactly the end
   * components with a set flag on themselves or above them, each once, in
   * tree order.
   */
  lemma {:induction false} PaintsExactlyDirtyEnds(env: Types, n: Node, s: Surface, parent: bool)
    requires NodeOk(env, n)
    ensures Painted(PaintsOf(env, n, s, parent)) == DirtyEnds(env, n, parent)
    decreases n, 1
  {
    if env[n.hash].kind == Composite {
      if n.main.Some? {
        PaintsExactlyDirtyEnds(env, n.main.value, s, parent || n.updated);
      }
    } else if parent || n.updated {
      RedrawPaintsEveryEnd(env, n, s);
    } else {
      PaintsAllExactlyDirtyEnds(env, n.children, s);
    }
  }

  lemma {:induction false} PaintsAllExactlyDirtyEnds(env: Types, hs: seq<Holder>, s: Surface)
    requires forall k :: 0 <= k < |hs| ==> HolderOk(env, hs[k])
    ensures Painted(PaintsAll(env, hs, s, false)) == DirtyEndsAll(env, hs)
    decreases hs, 0
  {
    if hs != [] {
      var init, last := hs[..|hs| - 1], hs[|hs| - 1];
      PaintsAllExactlyDirtyEnds(env, init, s);
      if last.component.Some? {
        PaintsExactlyDirtyEnds(env, last.component.value, s, false);
      }
      PaintedConcat(PaintsAll(env, init, s, false), HolderPaints(env, last, s, false));
    }
  }

  /** No flag is set on any component that presenting `n` reaches. */
  ghost predicate Clean(env: Types, n: Node)
    requires NodeOk(env, n)
    decreases n, 1
  {
    !n.updated &&
    (env[n.hash].kind == Composite && n.main.Some? ==> Clean(env, n.main.value)) &&
    (env[n.hash].kind == End ==> forall k :: 0 <= k < |n.children| ==> HolderClean(env, n.children[k]))
  }

  ghost predicate HolderClean(env: Types, h: Holder)
    requires HolderOk(env, h)
    decreases h, 0
  {
    h.component.Some? ==> Clean(env, h.component.value)
  }

  /** A clean tree under a parent that was not updated paints nothing. */
  lemma {:induction false} CleanTreePaintsNothing(env: Types, n: Node, s: Surface)
    requires NodeOk(env, n) && Clean(env, n)
    ensures PaintsOf(env, n, s, false) == []
    decreases n, 1
  {
    if env[n.hash].kind == Composite {
      if n.main.Some? {
        CleanTreePaintsNothing(env, n.main.value, s);
      }
    } else {
      CleanChildrenPaintNothing(env, n.children, s);
    }
  }

  lemma {:induction false} CleanChildrenPaintNothing(env: Types, hs: seq<Holder>, s: Surface)
    requires forall k :: 0 <= k < |hs| ==> HolderOk(env, hs[k]) && HolderClean(env, hs[k])
    ensures PaintsAll(env, hs, s, false) == []
    decreases hs, 0
  {
    if hs != [] {
      CleanChildrenPaintNothing(env, hs[..|hs| - 1], s);
      var last := hs[|hs| - 1];
      if last.component.Some? {
        CleanTreePaintsNothing(env, last.component.value, s);
      }
    }
  }

  /** `present` changes nothing but flags: the tree stays well formed and shows the same end components. */
  lemma {:induction false} PresentKeepsTree(env: Types, n: Node)
    requires NodeOk(env, n)
    ensures NodeOk(env, AfterPresent(env, n))
    ensures Ends(env, AfterPresent(env, n)) == Ends(env, n)
    ensures Clean(env, AfterPresent(env, n))
    decreases n, 1
  {
    if env[n.hash].kind == Composite {
      if n.main.Some? {
        PresentKeepsTree(env, n.main.value);
      }
    } else {
      PresentKeepsChildren(env, n.children);
    }
  }

  lemma {:induction false} PresentKeepsHolder(env: Types, h: Holder)
    requires HolderOk(env, h)
    ensures var r := AfterPresentHolder(env, h);
      HolderOk(env, r) && HolderClean(env, r) && r.hash == h.hash &&
      HolderEnds(env, r) == HolderEnds(env, h)
    decreases h, 1
  {
    if h.component.Some? {
      PresentKeepsTree(env, h.component.value);
    }
  }

  lemma {:induction false} PresentKeepsChildren(env: Types, hs: seq<Holder>)
    requires forall k :: 0 <= k < |hs| ==> HolderOk(env, hs[k])
    ensures |AfterPresentAll(env, hs)| == |hs|
    ensures forall k :: 0 <= k < |hs| ==>
      var r := AfterPresentAll(env, hs)[k];
      HolderOk(env, r) && HolderClean(env, r) && r.hash == hs[k].hash
    ensures EndsAll(env, AfterPresentAll(env, hs)) == EndsAll(env, hs)
    decreases hs, 0
  {
    if hs != [] {
      var init, last := hs[..|hs| - 1], hs[|hs| - 1];
      PresentKeepsChildren(env, init);
      PresentKeepsHolder(env, last);
      var front := AfterPresentAll(env, init);
      var rs := front + [AfterPresentHolder(env, last)];
      assert AfterPresentAll(env, hs) == rs;
      assert rs[..|rs| - 1] == front;
      forall k | 0 <= k < |hs|
        ensures HolderOk(env, rs[k]) && HolderClean(env, rs[k]) && rs[k].hash == hs[k].hash
      {
        if k < |init| {
          assert rs[k] == front[k] && hs[k] == init[k];
        }
      }
    }
  }

  /** Presenting twice with no render in between: the second present paints nothing. */
  lemma SecondPresentPaintsNothing(env: Types, n: Node, s: Surface, t: Surface, parent: bool)
    requires NodeOk(env, n)
    ensures NodeOk(env, AfterPresent(env, n))
    ensures PaintsOf(env, AfterPresent(env, n), t, false) == []
  {
    PresentKeepsTree(env, n);
    CleanTreePaintsNothing(env, AfterPresent(env, n), t);
  }
}
