/**
 * Reconciling a component's new child holders with its previous ones
 * (`ComponentHolder::calculateNextProps`, `mergeChildren`) and building the
 * new child list (`ChildRenderer`, `ArrayRenderer`).
 */
module Reconcile {
  import opened ImmutableStruct
  import opened Props
  import opened Component

  // ------------------------------------------------------- calculateNextProps

  /**
   * `calculateNextProps(component)`: runs every updater of `h`, in order, on
   * the live component's props `current` (None for a null component). Each
   * updater that fires stores its props as `h`'s pending props. Returns
   * whether any fired.
   */
  method CalculateNextProps(env: Types, h: Holder, current: Option<seq<Value>>) returns (any: bool, r: Holder)
    requires HolderOk(env, h)
    requires current.Some? ==> |current.value| == |env[h.hash].defaults|
    ensures Calculation(any, r.nextProps) == Calculate(h.updaters, env[h.hash].defaults, current, h.nextProps)
    ensures r == h.(nextProps := r.nextProps) && HolderOk(env, r)
  {
    var defaults := env[h.hash].defaults;
    any, r := false, h;
    var k := 0;
    while k < |h.updaters|
      invariant 0 <= k <= |h.updaters|
      invariant Calculation(any, r.nextProps) == Calculate(h.updaters[..k], defaults, current, h.nextProps)
      invariant r == h.(nextProps := r.nextProps)
    {
      assert h.updaters[..k + 1][..k] == h.updaters[..k];
      var fired := Fire(h.updaters[k], defaults, current);
      if fired.Some? {
        r := r.(nextProps := fired);
      }
      any := fired.Some? || any;
      k := k + 1;
    }
    assert h.updaters[..k] == h.updaters;
    CalculateKeepsArity(h.updaters, defaults, current, h.nextProps);
  }

  /** `addPropsUpdater(u)`: `u` runs after every updater already there. */
  function AddPropsUpdater(h: Holder, u: Updater): (r: Holder)
    ensures r == h.(updaters := r.updaters) && |r.updaters| == |h.updaters| + 1
    ensures r.updaters[..|h.updaters|] == h.updaters && r.updaters[|h.updaters|] == u
  {
    h.(updaters := h.updaters + [u])
  }

  /**
   * After `addPropsUpdater(u)`, a calculation fires when it did before or
   * when `u` fires; the pending props are `u`'s when it fires and the
   * earlier result otherwise.
   */
  lemma AddedUpdaterRunsLast(env: Types, h: Holder, u: Updater, current: Option<seq<Value>>)
    requires HolderOk(env, h) && Fits(|env[h.hash].defaults|, u.attributes)
    requires current.Some? ==> |current.value| == |env[h.hash].defaults|
    ensures var d := env[h.hash].defaults;
      var r := AddPropsUpdater(h, u);
      UpdatersFit(|d|, r.updaters) &&
      var before := Calculate(h.updaters, d, current, h.nextProps);
      var after := Calculate(r.updaters, d, current, h.nextProps);
      after.any == (before.any || Fire(u, d, current).Some?) &&
      after.pending == (if Fire(u, d, current).Some? then Fire(u, d, current) else before.pending)
  {
    var r := AddPropsUpdater(h, u);
    assert r.updaters[..|r.updaters| - 1] == h.updaters;
  }

  // ------------------------------------------------------------ mergeChildren

  /** Holders are matched by class and id. */
  predicate SameKey(a: Holder, b: Holder) {
    a.hash == b.hash && a.id == b.id
  }

  /** Ids are unique among the children of one render. */
  predicate DistinctKeys(hs: seq<Holder>) {
    forall a, b :: 0 <= a < b < |hs| ==> !SameKey(hs[a], hs[b])
  }

  ghost predicate AllOk(env: Types, hs: seq<Holder>) {
    forall k :: 0 <= k < |hs| ==> HolderOk(env, hs[k])
  }

  /** `std::find_if` from position `i`: the first holder of `prev` at or after `i` with `pc`'s key. */
  function FirstMatchFrom(pc: Holder, prev: seq<Holder>, i: nat): (r: Option<nat>)
    requires i <= |prev|
    ensures r.Some? ==>
      i <= r.value < |prev| && SameKey(pc, prev[r.value]) &&
      forall j :: i <= j < r.value ==> !SameKey(pc, prev[j])
    ensures r.None? ==> forall j :: i <= j < |prev| ==> !SameKey(pc, prev[j])
    decreases |prev| - i
  {
    if i == |prev| then None
    else if SameKey(pc, prev[i]) then Some(i)
    else FirstMatchFrom(pc, prev, i + 1)
  }

  function FirstMatch(pc: Holder, prev: seq<Holder>): (r: Option<nat>)
    ensures r.Some? ==>
      r.value < |prev| && SameKey(pc, prev[r.value]) &&
      forall j :: 0 <= j < r.value ==> !SameKey(pc, prev[j])
    ensures r.None? ==> forall j :: 0 <= j < |prev| ==> !SameKey(pc, prev[j])
  {
    FirstMatchFrom(pc, prev, 0)
  }

  /** The search only looks at keys. */
  lemma {:induction false} FirstMatchSeesKeysOnly(pc: Holder, a: seq<Holder>, b: seq<Holder>, i: nat)
    requires |a| == |b| && i <= |a| && forall k :: 0 <= k < |a| ==> SameKey(a[k], b[k])
    ensures FirstMatchFrom(pc, a, i) == FirstMatchFrom(pc, b, i)
    decreases |a| - i
  {
    if i < |a| {
      FirstMatchSeesKeysOnly(pc, a, b, i + 1);
    }
  }

  /** A holder's live component has props of its class. */
  lemma ComponentFits(env: Types, h: Holder)
    requires HolderOk(env, h) && h.component.Some?
    ensures |h.component.value.props| == |env[h.hash].defaults|
  {
  }

  /** `calculateNextProps` of the new holder `pc` run on the live component of its match `p`. */
  function MatchCalculation(env: Types, pc: Holder, p: Holder): Calculation
    requires HolderOk(env, pc) && HolderOk(env, p) && SameKey(pc, p) && p.component.Some?
  {
    ComponentFits(env, p);
    Calculate(pc.updaters, env[pc.hash].defaults, Some(p.component.value.props), pc.nextProps)
  }

  /**
   * The previous holder whose live component `pc` takes: the first match,
   * when it is a different holder, has a live component, and some updater
   * of `pc` fires on that component's props.
   */
  function MovesFrom(env: Types, pc: Holder, prev: seq<Holder>): (r: Option<nat>)
    requires HolderOk(env, pc) && AllOk(env, prev)
    ensures r.Some? ==> r == FirstMatch(pc, prev) && prev[r.value].component.Some?
  {
    var m := FirstMatch(pc, prev);
    if m.None? then None
    else
      var p := prev[m.value];
      if pc.ref == p.ref || p.component.None? then None
      else if MatchCalculation(env, pc, p).any then m
      else None
  }

  /**
   * What `mergeChildren` leaves at the position of the new holder `pc`:
   * `pc` itself when there is no match, the match is `pc`, or the match
   * has no live component; `pc` holding the match's live component and the
   * pending props its updaters computed when the props changed; and the
   * match itself when they did not.
   */
  function MergeOne(env: Types, pc: Holder, prev: seq<Holder>): (r: Holder)
    requires HolderOk(env, pc) && AllOk(env, prev)
    ensures HolderOk(env, r) && SameKey(r, pc)
    ensures r == pc ||
      (FirstMatch(pc, prev).Some? && r == prev[FirstMatch(pc, prev).value]) ||
      (MovesFrom(env, pc, prev).Some? &&
       r == pc.(nextProps := r.nextProps, component := prev[MovesFrom(env, pc, prev).value].component))
    ensures FirstMatch(pc, prev).None? ==> r == pc
    ensures MovesFrom(env, pc, prev).Some? ==> r.ref == pc.ref && r.nextProps.Some?
    // the match is `pc` itself, or has no live component: `pc` stays
    ensures var m := FirstMatch(pc, prev);
      m.Some? && (prev[m.value].ref == pc.ref || prev[m.value].component.None?) ==> r == pc
    // the match is another live holder: its component moves into `pc` with the
    // computed pending props when an updater fires, and otherwise the match stays
    ensures var m := FirstMatch(pc, prev);
      m.Some? && prev[m.value].ref != pc.ref && prev[m.value].component.Some? ==>
        var p := prev[m.value];
        var c := MatchCalculation(env, pc, p);
        r == if c.any then pc.(nextProps := c.pending, component := p.component) else p
  {
    var m := FirstMatch(pc, prev);
    if m.None? then pc
    else
      var p := prev[m.value];
      if pc.ref == p.ref || p.component.None? then pc
      else
        var c := MatchCalculation(env, pc, p);
        if c.any then
          ComponentFits(env, p);
          CalculateKeepsArity(pc.updaters, env[pc.hash].defaults, Some(p.component.value.props), pc.nextProps);
          pc.(nextProps := c.pending, component := p.component)
        else p
  }

  /** The merged list: each new holder's position reconciled against the previous list. */
  function Merged(env: Types, next: seq<Holder>, prev: seq<Holder>): (r: seq<Holder>)
    requires AllOk(env, next) && AllOk(env, prev)
    ensures |r| == |next| && AllOk(env, r)
  {
    if next == [] then []
    else Merged(env, next[..|next| - 1], prev) + [MergeOne(env, next[|next| - 1], prev)]
  }

  lemma {:induction false} MergedAt(env: Types, next: seq<Holder>, prev: seq<Holder>, i: nat)
    requires AllOk(env, next) && AllOk(env, prev) && i < |next|
    ensures Merged(env, next, prev)[i] == MergeOne(env, next[i], prev)
    decreases |next|
  {
    if i < |next| - 1 {
      MergedAt(env, next[..|next| - 1], prev, i);
    }
  }

  /** Whether some new holder takes the live component of `prev[j]`. */
  function Taken(env: Types, next: seq<Holder>, prev: seq<Holder>, j: nat): bool
    requires AllOk(env, next) && AllOk(env, prev)
  {
    next != [] &&
    (Taken(env, next[..|next| - 1], prev, j) || MovesFrom(env, next[|next| - 1], prev) == Some(j))
  }

  lemma {:induction false} TakenWitness(env: Types, next: seq<Holder>, prev: seq<Holder>, j: nat)
    requires AllOk(env, next) && AllOk(env, prev)
    ensures Taken(env, next, prev, j) <==>
      exists i :: 0 <= i < |next| && MovesFrom(env, next[i], prev) == Some(j)
    decreases |next|
  {
    if next != [] {
      var init := next[..|next| - 1];
      TakenWitness(env, init, prev, j);
      assert forall i :: 0 <= i < |init| ==> init[i] == next[i];
    }
  }

  /** The previous list after the merge: every holder whose component moved is left empty. */
  function Drained(env: Types, next: seq<Holder>, prev: seq<Holder>): (r: seq<Holder>)
    requires AllOk(env, next) && AllOk(env, prev)
    ensures |r| == |prev|
    ensures forall j :: 0 <= j < |prev| ==>
      r[j] == if Taken(env, next, prev, j) then prev[j].(component := None) else prev[j]
  {
    seq(|prev|, j requires 0 <= j < |prev| =>
      if Taken(env, next, prev, j) then prev[j].(component := None) else prev[j])
  }

  /**
   * `mergeChildren(next, prev)`: walks the new holders in order and
   * reconciles each with the previous list as it stands, moving live
   * components out of it. The ids of one render are unique, so no
   * previous holder is matched twice.
   */
  method MergeChildren(env: Types, next: seq<Holder>, prev: seq<Holder>) returns (merged: seq<Holder>, drained: seq<Holder>)
    requires AllOk(env, next) && AllOk(env, prev) && DistinctKeys(next)
    ensures merged == Merged(env, next, prev)
    ensures drained == Drained(env, next, prev)
  {
    merged, drained := [], prev;
    var i := 0;
    while i < |next|
      invariant 0 <= i <= |next|
      invariant merged == Merged(env, next[..i], prev)
      invariant |drained| == |prev|
      invariant forall j :: 0 <= j < |prev| ==>
        drained[j] == if Taken(env, next[..i], prev, j) then prev[j].(component := None) else prev[j]
    {
      assert next[..i + 1][..i] == next[..i];
      var pc := next[i];
      MergeStep(env, next, prev, drained, i);
      var m := FirstMatch(pc, drained);
      if m.None? {
        merged := merged + [pc];
      } else {
        var p := drained[m.value];
        if pc.ref == p.ref || p.component.None? {
          merged := merged + [pc];
        } else {
          ComponentFits(env, p);
          var any, pc' := CalculateNextProps(env, pc, Some(p.component.value.props));
          if any {
            merged := merged + [pc'.(component := p.component)];
            drained := drained[m.value := p.(component := None)];
          } else {
            merged := merged + [p];
          }
        }
      }
      i := i + 1;
    }
    assert next[..i] == next;
  }

  /**
   * At step `i`, the list as it stands gives the same match as the
   * original, and the matched holder is still as it was.
   */
  lemma MergeStep(env: Types, next: seq<Holder>, prev: seq<Holder>, drained: seq<Holder>, i: nat)
    requires AllOk(env, next) && AllOk(env, prev) && DistinctKeys(next) && i < |next|
    requires |drained| == |prev|
    requires forall j :: 0 <= j < |prev| ==>
      drained[j] == if Taken(env, next[..i], prev, j) then prev[j].(component := None) else prev[j]
    ensures FirstMatch(next[i], drained) == FirstMatch(next[i], prev)
    ensures FirstMatch(next[i], prev).Some? ==>
      drained[FirstMatch(next[i], prev).value] == prev[FirstMatch(next[i], prev).value]
  {
    FirstMatchSeesKeysOnly(next[i], drained, prev, 0);
    var m := FirstMatch(next[i], prev);
    if m.Some? {
      TakenWitness(env, next[..i], prev, m.value);
      forall i' | 0 <= i' < i ensures MovesFrom(env, next[..i][i'], prev) != Some(m.value) {
        assert next[..i][i'] == next[i'] && !SameKey(next[i'], next[i]);
      }
    }
  }

  /** With no previous children every new holder is kept as it is. */
  lemma {:induction false} MergeWithNothing(env: Types, next: seq<Holder>)
    requires AllOk(env, next)
    ensures Merged(env, next, []) == next
    decreases |next|
  {
    if next != [] {
      MergeWithNothing(env, next[..|next| - 1]);
    }
  }

  // ------------------------------------------------ building the child list

  /** The holder addresses of a list, in order. */
  function Refs(hs: seq<Holder>): (rs: seq<nat>)
    ensures |rs| == |hs| && forall k :: 0 <= k < |hs| ==> rs[k] == hs[k].ref
  {
    seq(|hs|, k requires 0 <= k < |hs| => hs[k].ref)
  }

  /** An address no holder of `hs` has, nor any larger one. */
  function FreshRef(hs: seq<Holder>): (r: nat)
    ensures forall k :: 0 <= k < |hs| ==> hs[k].ref < r
  {
    if hs == [] then 0
    else
      var r := FreshRef(hs[..|hs| - 1]);
      assert forall k :: 0 <= k < |hs| - 1 ==> hs[..|hs| - 1][k] == hs[k];
      if r > hs[|hs| - 1].ref then r else hs[|hs| - 1].ref + 1
  }

  /**
   * The holder a ChildRenderer makes: `c`'s key, its ATTRIBUTES as the only
   * updater, no pending props, no component yet.
   */
  function NewHolder(c: ChildSpec, ref: nat): Holder {
    Holder(ref, c.id, c.hash, false, [Updater(c.attributes)], None, None)
  }

  /** The renderer objects a children block declares. */
  datatype Renderer =
    | ChildRenderer(spec: ChildSpec)
    | ArrayRenderer(holders: seq<Holder>)

  /** The holders one renderer contributes; `ref` is the address its new holder gets. */
  function Contributed(r: Renderer, ref: nat): seq<Holder> {
    match r
    case ChildRenderer(c) => [NewHolder(c, ref)]
    case ArrayRenderer(hs) => hs
  }

  /** The holders of a block in order of declaration; the `k`th renderer's new holder gets `base + k`. */
  function Declared(rs: seq<Renderer>, base: nat): seq<Holder>
    decreases |rs|
  {
    if rs == [] then [] else Contributed(rs[0], base) + Declared(rs[1..], base + 1)
  }

  /**
   * The `ArrayRenderer` destructor: walks `components` from the back,
   * putting each at the front of the list.
   */
  method ArrayRender(next: seq<Holder>, components: seq<Holder>) returns (r: seq<Holder>)
    ensures r == components + next
  {
    r := next;
    var i := |components|;
    while i > 0
      invariant 0 <= i <= |components|
      invariant r == components[i..] + next
    {
      i := i - 1;
      assert components[i..] == [components[i]] + components[i + 1..];
      r := [components[i]] + r;
    }
  }

  /**
   * The renderers of a block going out of scope: C++ destroys them in the
   * reverse order of declaration, and each puts its holders at the front
   * of the list, so the list ends up in declaration order.
   */
  method DestroyRenderers(rs: seq<Renderer>, base: nat) returns (next: seq<Holder>)
    ensures next == Declared(rs, base)
  {
    next := [];
    var k := |rs|;
    while k > 0
      invariant 0 <= k <= |rs|
      invariant next == Declared(rs[k..], base + k)
    {
      k := k - 1;
      assert rs[k..][1..] == rs[k + 1..];
      match rs[k]
      case ChildRenderer(c) =>
        next := [NewHolder(c, base + k)] + next;
      case ArrayRenderer(hs) =>
        next := ArrayRender(next, hs);
    }
  }

  /** The child renderers of specs `cs`, in order. */
  function ChildRenderers(cs: seq<ChildSpec>): (rs: seq<Renderer>)
    ensures |rs| == |cs| && forall k :: 0 <= k < |cs| ==> rs[k] == ChildRenderer(cs[k])
  {
    seq(|cs|, k requires 0 <= k < |cs| => ChildRenderer(cs[k]))
  }

  /**
   * A block of child renders yields one new holder per render, in the order
   * written, with consecutive fresh addresses.
   */
  lemma {:induction false} ChildRenderersInOrder(cs: seq<ChildSpec>, base: nat)
    ensures var hs := Declared(ChildRenderers(cs), base);
      |hs| == |cs| && forall k :: 0 <= k < |cs| ==> hs[k] == NewHolder(cs[k], base + k)
    decreases |cs|
  {
    if cs != [] {
      assert ChildRenderers(cs)[1..] == ChildRenderers(cs[1..]);
      ChildRenderersInOrder(cs[1..], base + 1);
    }
  }

  /** Holders made from well-formed specs are well formed, of the specs' classes, with distinct keys. */
  lemma NewHoldersOk(env: Types, level: nat, cs: seq<ChildSpec>, base: nat)
    requires SpecsOk(env, level, cs)
    ensures var hs := Declared(ChildRenderers(cs), base);
      AllOk(env, hs) && DistinctKeys(hs) &&
      forall k :: 0 <= k < |hs| ==>
        Level(env, hs[k].hash) < level && hs[k].ref >= base && hs[k].component.None?
  {
    ChildRenderersInOrder(cs, base);
    var hs := Declared(ChildRenderers(cs), base);
    forall k | 0 <= k < |hs| ensures HolderOk(env, hs[k]) {
      assert SpecOk(env, level, cs[k]);
    }
  }
}
