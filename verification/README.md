# TermReact core in Dafny

TermReact is a C++ header-only library for terminal user interfaces in the style of React
and Redux. A Redux-like **store** holds the application state in a copy-on-write
**immutable struct**. Dispatching an **action** runs one **reducer** per state field. When the
new state is a different buffer, the store calls every **listener** with the old and the new
state.

The **component tree** is made of two kinds of component:

- **Components** render exactly one child component (their *node*).
- **End components** draw on a **canvas** and hold the child **holders** they were given in
  their `children` prop.

A holder creates its component on first render. After that it re-renders the component only
when the props the holder's updaters computed differ from the props the component has.
Re-rendering a component **reconciles** the holders its render declares with the holders it
had before (`mergeChildren`). A **provider** registers the exit check and the root update on
the store, and creates the root.

This project models that core and proves what it promises:

- **Copy-on-write records** (`immutable_struct.dfy`, `immutable_struct_examples.dfy`): a class
  over a reference-counted buffer. `update` clones a shared buffer only when the value stored
  is not equal to the old one, and `==` compares buffers. Each unit test of the record is a
  method whose postcondition is the test's expectation.
- **Actions, reducers and the store** (`action.dfy`, `reducer.dfy`, `store.dfy`): dispatch
  reduces every field on the committed state. Listeners are called, in order, only when some
  field changed, and the built-in window size fields take the new size.
- **Props and updaters** (`props.dfy`): an ATTRIBUTES list applied to a copy of the props, the
  "changed" test as buffer identity, holder updaters and `calculateNextProps`.
- **The tree** (`component.dfy`, `reconcile.dfy`, `render.dfy`, `store_update.dfy`):
  - rendering, and the reconciliation of child holders;
  - `present`, with its "updated" flags;
  - store updates sent down the tree.

  Termination of the mutually recursive render, present and update calls rests on a *level*
  per component class. A class's level bounds the depth of what it renders.
- **The canvas and the widgets** (`canvas.dfy`, `box.dfy`, `centered_box.dfy`,
  `centered_text.dfy`, `cpp_int.dfy`): slices, `writeString`, and the geometry of `Box`,
  `CenteredBox` and `CenteredText`. C++'s truncating `/` is written out.
- **The focus registry and the provider** (`event.dfy`, `provider.dfy`).

The tree is modelled on values. A `Node` is a component with its subtree, and a `Holder` is a
holder with its component. Every operation that updates a component in place returns the
updated value. A holder carries its address (`ref`), so that "the same holder" (pointer
equality of `shared_ptr`s in `mergeChildren`) is kept apart from "a holder with the same key".

Values of fields are drawn from one datatype `Value`. Its `Incomparable` variant stands for
types without `==`, which the record treats as always different.

The component classes of an application are a table `Types` from type hash to:

- the class's kind and level;
- its default props;
- its render, as a function from props to what it renders;
- its MAP_STATE_TO_PROPS list, if any;
- for end components, its `present`.

## Model

| member | source | states |
|---|---|---|
| ImmutableStruct.IsEqualMeansEqual | src/term-react/utils/immutable-struct.hpp:104-115 | `is_equal_` never relates two different values, is symmetric, holds of every value of a type with `==` against itself, and never holds for a value without `==`, not even against itself |
| ImmutableStruct.DefaultOf | src/term-react/utils/immutable-struct.hpp:32-39 | a field's default is the declared one when given, else the type's default |
| ImmutableStruct.Defaults | src/term-react/utils/immutable-struct.hpp:36-42 | the default buffer holds, field by field, each field's default |
| ImmutableStruct.Buffer.constructor | src/term-react/utils/immutable-struct.hpp:129 | a new shared buffer holds the values and has one holder |
| ImmutableStruct.Record.Trivial | src/term-react/utils/immutable-struct.hpp:117 | a trivially constructed record has no buffer |
| ImmutableStruct.Record.Default | src/term-react/utils/immutable-struct.hpp:118-121 | exists only when every field has a default; a fresh buffer of the defaults held by this record alone |
| ImmutableStruct.Record.FromValues | src/term-react/utils/immutable-struct.hpp:125-129 | a fresh buffer of the given values held by this record alone |
| ImmutableStruct.Record.Copy | src/term-react/utils/immutable-struct.hpp:122-124 | the copy shares the other's buffer, which gains one holder |
| ImmutableStruct.Record.Move | src/term-react/utils/immutable-struct.hpp:123 | the target takes the buffer, the source becomes trivial, and the holder count is unchanged |
| ImmutableStruct.Record.Get | src/term-react/utils/immutable-struct.hpp:145-149 | `get<F>()` is the stored value of field F |
| ImmutableStruct.Record.Update | src/term-react/utils/immutable-struct.hpp:135-144 | field f holds v afterwards; an equal value leaves the buffer untouched; a shared buffer is cloned (the old one keeps its values and loses this holder); an unshared buffer is written in place |
| ImmutableStruct.Record.Assign | src/term-react/utils/immutable-struct.hpp:156-159 | copy assignment drops this record's buffer, which loses one holder, and shares the other's, which gains one; reference counts stay exact |
| ImmutableStruct.Record.MoveAssign | src/term-react/utils/immutable-struct.hpp:160-163 | move assignment takes the other's buffer with its count unchanged, leaves the other trivial, and the buffer given up loses one holder (self-move changes nothing) |
| ImmutableStructExamples.TrivialConstruction | test/immutable-struct.cpp:21-24 | a trivially constructed record converts to false |
| ImmutableStructExamples.DefaultConstruction | test/immutable-struct.cpp:26-30 | default construction leaves its `pointer` field null |
| ImmutableStructExamples.Initializer | test/immutable-struct.cpp:32-40 | construction from values stores them |
| ImmutableStructExamples.CopyConstruction | test/immutable-struct.cpp:42-59 | a copy is non-trivial and reads the same values |
| ImmutableStructExamples.MoveConstruction | test/immutable-struct.cpp:61-73 | a moved-from record is trivial and the target has the values |
| ImmutableStructExamples.CopyAssignment | test/immutable-struct.cpp:75-86 | after copy assignment the records are equal |
| ImmutableStructExamples.MoveAssignment | test/immutable-struct.cpp:88-100 | after move assignment the source is trivial and the target has the values |
| ImmutableStructExamples.NonDefaultConstructible | test/immutable-struct.cpp:102-107 | a record with a field without any default has no default constructor; one with a declared default has |
| ImmutableStructExamples.SharedOwnership | test/immutable-struct.cpp:109-113 | copies of a default-constructed record are equal |
| ImmutableStructExamples.NoChangeOnSameValue | test/immutable-struct.cpp:115-132 | updating with the stored value keeps copies equal |
| ImmutableStructExamples.NewOnUpdate | test/immutable-struct.cpp:134-146 | updating a shared record with a new value detaches it, and the copy keeps the old value |
| ImmutableStructExamples.NotEqualOnValue | test/immutable-struct.cpp:148-160 | records with equal contents in different buffers are not equal |
| ImmutableStructExamples.DefaultValue | test/immutable-struct.cpp:162-168 | a declared default is used by the default constructor |
| ImmutableStructExamples.ChainedUpdate | test/immutable-struct.cpp:170-178 | `update` returns the record, so updates chain |
| ImmutableStructExamples.IncomparableValuesDiffer | test/immutable-struct.cpp:180-190 | updating a field without `==` always detaches the record |
| Reducer.ValidFlagDecidesReduce | src/term-react/reducer.hpp:14-28 | for a flagged (`valid`) action the field's specialisation runs; for an unflagged one the field passes through |
| Reducer.SizePayload | src/term-react/reducer.hpp:32-40 | a size action's new size becomes the field's value whatever it held before |
| Reducer.Reduce | src/term-react/store.hpp:27-31 | a field is reduced by its reducer's specialisation for the action, and an action the reducer does not handle leaves it as it was |
| Reducer.WindowWidthReducer | src/term-react/reducer.hpp:32-35 | starts at -1, is valid for InitStore and UpdateWindowWidth only, takes the new width and ignores the previous value |
| Reducer.WindowHeightReducer | src/term-react/reducer.hpp:37-40 | starts at -1, is valid for InitStore and UpdateWindowHeight only, takes the new height and ignores the previous value |
| Store.StoreReducers | src/term-react/store.hpp:36-39 | the application's fields come first, then `window_height` and `window_width` |
| Store.InitialFields | src/term-react/store.hpp:21-25 | every field starts at its reducer's InitStore value |
| Store.NextFields | src/term-react/store.hpp:27-34 | every field is reduced from its committed value; fields whose reducer does not handle the action keep it |
| Store.Broadcast | src/term-react/store.hpp:59-61 | every listener is called once, in registration order, with the same (prev, next) |
| Store.UnhandledActionKeepsState | src/term-react/store.hpp:27-39 | an action no reducer handles leaves the whole state as it was |
| Store.WindowResizeSetsWidth | src/term-react/store.hpp:36-39 | a width change changes exactly `window_width`, to the new width |
| Store.WindowResizeSetsHeight | src/term-react/store.hpp:36-39 | a height change changes exactly `window_height`, to the new height |
| Store.NoChangeMeansSameFields | src/term-react/store.hpp:56-58 | when every reducer returns an equal value, the next state holds the committed values |
| Store.Store.constructor | src/term-react/store.hpp:51 | the state starts at the InitStore values, with no listeners |
| Store.Store.Get | src/term-react/store.hpp:52-53 | `get<F>()` is the committed value of F |
| Store.Store.Dispatch | src/term-react/store.hpp:55-64 | the committed state becomes the reduced state; on a change every listener is called once, in order, with (old, new), and the state gets a new buffer; with no change no listener is called and the buffer stays |
| Store.Store.ReduceInto | src/term-react/store.hpp:56-57 | every field of the copy is reduced from the committed state, which stays as it was; the copy has a new buffer exactly when some field changed |
| Store.Store.Notify | src/term-react/store.hpp:59-61 | the listener calls are appended in registration order |
| Store.Store.AddListener | src/term-react/store.hpp:65-68 | with `immediate` the listener is called at once with (state, state); the listener is appended; the state is untouched |
| Props.Apply | src/term-react/component.hpp:375-380 | applying an ATTRIBUTES list keeps the arity, and a copy reported unchanged holds the original values |
| Props.ChangedIffSomeUpdateDiffers | src/term-react/utils/immutable-struct.hpp:135-144 | the copy ends in a new buffer exactly when some update's value is not equal to the original value of its field |
| Props.LastFor | src/term-react/component.hpp:375-380 | the value of an update to the field after which no update names it; none exactly when no update names the field |
| Props.LastUpdateWins | src/term-react/component.hpp:375-380 | after the updates each field holds the value of the last update to it, or its original value |
| Props.UpdateCopy | src/term-react/component.hpp:377-380 | running the list on a shared copy leaves the values `Apply` gives, and a new buffer exactly when `Apply` reports a change |
| Props.Fire | src/term-react/component.hpp:318-328 | a holder's updater stores the ATTRIBUTES applied to the defaults when there is no component; with one, it stores the props and returns true exactly when some attribute differs from the component's props |
| Props.CalculateRunsEveryUpdater | src/term-react/component.hpp:121-127 | `calculateNextProps` is true exactly when some updater fired; no updater is skipped |
| Props.LastFiredUpdaterWins | src/term-react/component.hpp:121-127 | the pending props are those of the last updater that fired, or unchanged when none did |
| Props.CalculateKeepsArity | src/term-react/component.hpp:121-127 | pending props keep the class's arity, and a true result leaves pending props |
| Props.FirstRenderUsesLastUpdater | src/term-react/component.hpp:188-193 | with no component every updater fires, so the holder is created from the last updater's props |
| Reconcile.CalculateNextProps | src/term-react/component.hpp:121-127 | the loop's result and pending props are the fold `Calculate`; nothing else in the holder changes |
| Reconcile.AddPropsUpdater | src/term-react/component.hpp:129-131 | the updater is appended after the existing ones |
| Reconcile.AddedUpdaterRunsLast | src/term-react/component.hpp:129-131 | an added updater runs after the others: it can make the result true, and its props win when it fires |
| Reconcile.FirstMatchFrom | src/term-react/component.hpp:135-137 | the first previous holder from i on with the same type hash and id, and none exactly when no such holder exists |
| Reconcile.FirstMatch | src/term-react/component.hpp:135-137 | `find_if` over the previous holders: the first with the same key |
| Reconcile.FirstMatchSeesKeysOnly | src/term-react/component.hpp:135-137 | the search depends only on the keys of the previous holders |
| Reconcile.MovesFrom | src/term-react/component.hpp:154-169 | a component can move only from the first matching previous holder, and only when that holder has a component |
| Reconcile.MergeOne | src/term-react/component.hpp:139-175 | with no match, or when the first match is this very holder or has no component, the declared holder is kept; otherwise the previous component moves over: when some updater fires on it the declared holder takes it with the computed pending props, else the previous holder replaces the declared one; the key always stays |
| Reconcile.Merged | src/term-react/component.hpp:133-178 | the merged list has one valid holder per declared holder |
| Reconcile.MergedAt | src/term-react/component.hpp:134-177 | position i of the merged list is the merge of the i-th declared holder |
| Reconcile.TakenWitness | src/term-react/component.hpp:165-169 | a previous holder is emptied exactly when some declared holder moved its component out |
| Reconcile.Drained | src/term-react/component.hpp:165-169 | the previous holders afterwards: emptied where a component moved out, unchanged elsewhere |
| Reconcile.MergeChildren | src/term-react/component.hpp:133-178 | the loop over the declared holders, with its in-place moves, yields `Merged` and leaves the previous holders as `Drained` |
| Reconcile.MergeStep | src/term-react/component.hpp:134-169 | with unique keys, searching the partly drained previous holders finds what searching the originals finds, and that holder is still intact |
| Reconcile.MergeWithNothing | src/term-react/component.hpp:139-144 | with no previous holders every declared holder is kept as declared |
| Reconcile.ArrayRender | src/term-react/component.hpp:345-349 | pushing the array's holders to the front in reverse order puts them, in order, before the existing ones |
| Reconcile.DestroyRenderers | src/term-react/component.hpp:315-349 | renderers destroyed in reverse declaration order, each pushing to the front, leave their holders in declaration order |
| Reconcile.ChildRenderers | src/term-react/component.hpp:395-402 | each RENDER_CHILD_COMPONENT of a flat block is one child renderer, the k-th render the k-th renderer |
| Reconcile.FreshRef | src/term-react/component.hpp:316-317 | a newly allocated holder's address is larger than every address in the given list (the node's previous children) |
| Reconcile.ChildRenderersInOrder | src/term-react/component.hpp:315-330 | the k-th child render becomes the k-th holder, with its id, class and one updater made of its ATTRIBUTES, and no component |
| Reconcile.NewHoldersOk | src/term-react/component.hpp:316-329 | new holders are valid, have distinct keys and fresh addresses, are of lower classes and have no component |
| Render.NextProps | src/term-react/component.hpp:249-263 | `updateProps` keeps the arity and yields valid children |
| Render.UpdateProps | src/term-react/component.hpp:249-263 | the computed props and children are `NextProps`, and the previous holders are left as `PrevAfter` |
| Render.UnchangedMovesNothing | src/term-react/component.hpp:289-293 | when `updateProps` reports no change, no component moved out of a previous holder and the props are the previous props, so keeping the old node loses nothing |
| Render.MergedStaysLive | src/term-react/component.hpp:165-175 | merging keeps every live component mounted |
| Render.SecondHolderRenderIsNoOp | src/term-react/component.hpp:188-199 | rendering a holder twice in a row: the second render changes nothing |
| Render.CreateComponent | src/term-react/component.hpp:90-96 | a new, rendered, mounted component with the given props; a component's node is of the class its render names, with the ATTRIBUTES applied to that class's defaults |
| Render.RenderComponent | src/term-react/component.hpp:83-88 | the props are set, then the component is rendered, and it ends mounted with its flag set |
| Render.Render | src/term-react/component.hpp:31-34 | `render_` then `updated_ = true`: a component's node is rendered as `MainRendered` says; an end component's holders are each rendered as `RenderedFrom` says |
| Render.RenderChildren | src/term-react/end-component.hpp:12-19 | every child holder is rendered, in list order |
| Render.RenderHolder | src/term-react/component.hpp:188-199 | with no component, it is created from the updaters' props; with pending props, the component is re-rendered with them; otherwise it is left alone; no pending props remain and the flag is set |
| Render.RenderMain | src/term-react/component.hpp:280-294 | the node ends of the rendered class: rebuilt from defaults when the class changed or there was none, else re-rendered only when the recomputed props differ, and left exactly as it was when they do not |
| Render.RebuildMain | src/term-react/component.hpp:281-285 | a new node of the rendered class from the default props with the ATTRIBUTES applied |
| Render.UpdateMain | src/term-react/component.hpp:288-293 | the kept node is re-rendered with the recomputed props when they differ, and is otherwise kept as it was |
| Render.NextChildrenOk | src/term-react/component.hpp:249-263 | the children `updateProps` yields for a node are valid, mounted where live, and of lower classes than the node |
| Component.Present | src/term-react/component.hpp:37-40 | `present_` then `updated_ = false`: the own-`present` calls made are `PaintsOf`, and the tree afterwards is `AfterPresent` |
| Component.PaintsExactlyDirtyEnds | src/term-react/end-component.hpp:21-37 | in any tree, `present` redraws exactly the end components that are updated or lie below an updated component (or all of them under an updated parent), in tree order, and draws nothing else |
| Component.PaintsAllExactlyDirtyEnds | src/term-react/end-component.hpp:32-36 | under a parent not redrawn, presenting the children redraws exactly the end components that are updated or lie below an updated component, in order |
| Component.PresentChildren | src/term-react/end-component.hpp:21-37 | every child holder is presented, in order, on the same canvas with the same flag |
| Component.PresentHolder | src/term-react/component.hpp:201-203 | a holder forwards to its component, if any, and clears its flag |
| Component.PaintedConcat | src/term-react/end-component.hpp:26-36 | the paints of consecutive presents concatenate |
| Component.RedrawPaintsEveryEnd | src/term-react/end-component.hpp:21-37 | when the parent was updated, every end component below is redrawn once, in tree order, with its props, and nothing else is |
| Component.RedrawPaintsAll | src/term-react/end-component.hpp:26-31 | a redraw of the children redraws every end component below them |
| Component.CleanTreePaintsNothing | src/term-react/end-component.hpp:21-37 | a tree with no flag set, under a parent not updated, draws nothing |
| Component.CleanChildrenPaintNothing | src/term-react/end-component.hpp:32-36 | clean children under a non-redrawn parent draw nothing |
| Component.PresentKeepsTree | src/term-react/component.hpp:37-40 | `present` clears every flag and changes nothing else: the tree stays valid and shows the same end components |
| Component.PresentKeepsHolder | src/term-react/component.hpp:201-203 | presenting a holder keeps it valid, clears its flags and keeps its end components |
| Component.PresentKeepsChildren | src/term-react/end-component.hpp:26-36 | presenting the children keeps them valid, cleans them and keeps their end components |
| Component.SecondPresentPaintsNothing | src/term-react/component.hpp:37-40 | a second present with no render in between draws nothing |
| StoreUpdate.Mapped | src/term-react/component.hpp:440-450 | the hook's props: the MAP_STATE_TO_PROPS list applied to a copy of the props, with the props' arity |
| StoreUpdate.RunHook | src/term-react/component.hpp:440-450 | the component is re-rendered with the mapped props exactly when they are not its props, and left exactly as it was otherwise |
| StoreUpdate.OnStoreUpdate | src/term-react/component.hpp:69-72 | hook, then forward: the tree stays mounted; the component takes the mapped props and is re-rendered only when they changed; every component of the resulting tree ran its hook once, parents first; with no MAP_STATE_TO_PROPS anywhere nothing changes |
| StoreUpdate.ForwardChildren | src/term-react/end-component.hpp:43-49 | the update goes to every child holder, in list order; only their components change |
| StoreUpdate.HolderOnStoreUpdate | src/term-react/component.hpp:213-215 | a holder forwards the update to its component, which a mounted holder has |
| Canvas.Screen.constructor | src/term-react/termbox.hpp:17-26 | the terminal canvas has the terminal's size, shows blanks and has presented no frame |
| Canvas.SliceOf | src/term-react/canvas.hpp:56-58 | a slice has the requested size, and its origin is the parent's origin plus the offset |
| Canvas.SliceReportsItsSize | src/term-react/canvas.hpp:47-48 | a slice reports exactly the width and height it was built with |
| Canvas.OriginIsOffsetSum | src/term-react/canvas.hpp:50-52 | nested slices add their offsets |
| Canvas.SetCell | src/term-react/canvas.hpp:50-52 | a slice's `setCell` writes the target cell shifted by its offset, with no clipping; afterwards the terminal shows the character at the shifted cell |
| Canvas.Clear | src/term-react/canvas.hpp:49 | `clear` is forwarded unchanged to the root; afterwards every cell of the terminal shows a blank in the new colours |
| Canvas.Present | src/term-react/canvas.hpp:53 | `present` is forwarded unchanged to the root, which hands one frame over |
| Canvas.TextCell | src/term-react/canvas.hpp:23-27 | `writeString` covers exactly the cells of its row from x on, one per character, and cell x + i shows character i |
| Canvas.WriteString | src/term-react/canvas.hpp:23-27 | character i goes to cell (x + i, y), and no other cell changes |
| Box.SideBorder | src/term-react/components/box.hpp:55-76 | a side's border is its own prop, falling back to `border`; it is NO_BORDER only when both are |
| Box.Thickness | src/term-react/components/box.hpp:83-86 | a drawn border takes one cell, an absent one none |
| Box.BordersOutsideContent | src/term-react/components/box.hpp:83-98 | no border cell falls inside the content area |
| Box.TextInsideContent | src/term-react/components/box.hpp:88-95 | a fitting text lies inside the content area, centred to within one cell |
| Box.CornersShowLaterBorder | src/term-react/components/box.hpp:55-81 | borders are drawn left, top, right, bottom, so a shared corner shows the later one |
| Box.FillColumn | src/term-react/components/box.hpp:57-59 | one border column, and nothing else, is drawn |
| Box.FillRow | src/term-react/components/box.hpp:64-66 | one border row, and nothing else, is drawn |
| Box.DrawBorders | src/term-react/components/box.hpp:55-81 | exactly the border cells are drawn |
| Box.Present | src/term-react/components/box.hpp:38-99 | for any text, the box draws its borders and text on its slice and nothing else, and returns the content slice inside the borders |
| CppInt.Half | src/term-react/components/centered-box.hpp:21-22 | C++ `/ 2`: the quotient rounded toward zero |
| CppInt.HalfTowardZero | src/term-react/components/centered-box.hpp:21-22 | the quotient keeps the dividend's sign and is odd-symmetric |
| CenteredBox.MapState | src/term-react/components/centered-box.hpp:20-23 | the box is centred in the window to within one cell, or overhangs both sides evenly when larger |
| CenteredBox.WallCell | src/term-react/components/centered-box.hpp:32-40 | a wall cell is drawn exactly on the ring around the box |
| CenteredBox.InteriorIsNotWall | src/term-react/components/centered-box.hpp:32-40 | no wall is drawn inside the box |
| CenteredBox.RingIsWall | src/term-react/components/centered-box.hpp:32-40 | every cell of the ring one cell outside the box is wall |
| CenteredBox.Present | src/term-react/components/centered-box.hpp:28-43 | exactly the ring is drawn, and the given canvas is returned |
| CenteredText.Column | src/term-react/components/centered-text.hpp:18 | for any width, the message is centred to within one cell (the `size_t` difference wraps and narrows back to the floor of half the gap); it starts inside the canvas when it fits |
| CenteredText.Row | src/term-react/components/centered-text.hpp:18 | the row is the middle one, rounded toward zero |
| CenteredText.Present | src/term-react/components/centered-text.hpp:16-20 | for any message, the message and nothing else is written at the centred column of the middle row, and the given canvas is returned |
| Event.InitFocusable | src/term-react/event.hpp:19 | the registry starts not rescanning, with no focusable components |
| Event.RescanFocusable | src/term-react/event.hpp:20-22 | a rescan raises the flag and keeps the focusables, in order |
| Event.RescanKeepsRegistry | src/term-react/event.hpp:20-22 | a rescan changes nothing but the flag |
| Event.RescanIsIdempotent | src/term-react/event.hpp:20-22 | rescanning twice gives what rescanning once gives |
| Event.RescanOfInitial | src/term-react/event.hpp:19-22 | rescanning the initial registry gives an empty rescanning registry |
| Provider.ShouldExit | src/term-react/provider.hpp:11-37 | true exactly when some predicate holds on the state; false with no predicates |
| Provider.Evaluated | src/term-react/provider.hpp:24-27 | predicates are evaluated first to last and evaluation stops at the first that holds |
| Provider.Provider.constructor | src/term-react/provider.hpp:41-49 | a provider starts without a root and without exit requests |
| Provider.Provider.Deliver | src/term-react/provider.hpp:60-71 | the exit listener calls `exit_()` exactly when a predicate holds on the next state; the root listener sends the next state down the tree |
| Provider.Provider.Render | src/term-react/provider.hpp:56-74 | for a root of any class, the exit listener is registered first, with an immediate call on the current state; the root listener is registered second, without one; then the root is created from default props |

## Left out

- Terminal I/O is not modelled: termbox, the main loop, event polling and the frame timing.
  The root canvas is a map of cells with a frame counter, and `exit_()` is a counter.
- The logger and the example programs are not modelled.
- Chunk dispatch (`startChunkDispatch` / `endChunkDispatch`) is not modelled. It is
  referenced by `CHUNK_DISPATCH_*`, but no store in the library defines it.
- Focus operations other than the registry's init and rescan are not modelled, because the
  library defines no others.
- `DECL_END_PROPS`, `END_COMPONENT_WILL_*` and `MAP_STATE_TO_END_PROPS` are not modelled,
  because the library does not define them. `Box` is modelled on its props as a record
  (`Box.Props`).
- `componentWillMount`, `componentWillUpdate` and `componentWillUnmount` are not modelled.
  They are user hooks, empty in every component of the library.
- Store.Store.Dispatch: the store records each listener call rather than running it.
  `Provider.Provider.Deliver` gives the effect of the two listeners the provider registers.
- Store: a dispatched action whose tags a field's reducer has no specialisation for does not
  compile in C++. Here that reducer passes the field through, which is what the
  specialisations' `valid` flags describe.
- `std::function` values are uninterpreted: reducers, Box callbacks, exit predicates, and
  renders and MAP_STATE_TO_PROPS lists as functions of the props.
- Render: a render names its node class, its ATTRIBUTES and, optionally, a list of
  `RENDER_CHILD_COMPONENT`s.
  - Children creators nested below those child renders are not modelled.
  - A `RENDER_COMPONENT_ARRAY` that forwards received holders inside a render is not part of
    what the model's renders name. `Reconcile.ArrayRender` and `Reconcile.DestroyRenderers`
    model the renderer itself.
- Reconcile.MergeChildren: requires the declared holders to have distinct (type hash, id)
  keys. The source demands unique ids among sibling holders (component.hpp:108); with
  duplicates its behaviour depends on in-place moves this model does not follow.
- Reconcile.FreshRef: addresses are fresh among a node's previous children only, not across
  the whole tree. That is all the merge compares, since it compares addresses only between
  siblings.
- Render: the value model loses in-place update, aliasing and sharing.
  - A `shared_ptr<ComponentHolder>` held by two parents is two values here.
  - Holder identity is the `ref` address.
  - `node_type_` and `updated_` start at fixed values rather than uninitialised memory.
- Render, StoreUpdate, Component: termination rests on class levels. Every class renders only
  classes of lower levels. A program whose component classes render each other in a cycle
  is outside the model.
- Box.Present, CenteredText.Present, CenteredText.Column: widths, heights and string lengths
  are assumed to lie within the range of a 32-bit `int`. Within it, the `size_t` difference
  of a text wider than its canvas wraps, and narrowing it back to `int` gives the floor of
  half the gap, which is what the model computes. Lengths beyond that range are not modelled.
- TextCell, WriteString: a string is a sequence of characters, one cell per character, as
  for ASCII text. The source writes one cell per byte of a `std::string`. It widens each
  `char` to `uint32_t` with sign extension, so bytes of 0x80 and above give large code
  points. Centring counts bytes, not characters. Multi-byte UTF-8 text and that sign
  extension are not modelled.
- Reconcile.ChildRenderers: models a flat children block, where renders come out in the
  order written. In C++ every `RENDER_CHILD_COMPONENT` in a nested scope (an `if` or loop
  body) is destroyed when that scope ends, before the renderers of the enclosing block. So
  its holder is pushed to the front earlier, and ends up after the holders of renders
  written after the scope. Nested scopes are not modelled.
- Store.Store.Dispatch: re-entrant dispatch is not modelled. A listener that dispatches
  again would update the state, and the outer dispatch would then overwrite that update
  when it moves its `next` into the state (store.hpp:63). Listener calls are recorded here,
  not run, so a listener cannot dispatch.
- Render: a render's children are `None` when its block reaches no `RENDER_CHILD_COMPONENT`,
  and otherwise a non-empty list. An end component whose block declares no child therefore
  keeps its previous children list.
- Canvas: cell values are integers; `uint32_t` and `uint16_t` truncation is not modelled.
- Canvas.SetCell: termbox ignores cells outside the screen; the root canvas here records
  every cell written.
- Component.Present: what an end component draws is abstracted to one `Paint` record per
  call of its own `present`, with the canvas it returns given by the class table. The
  widgets' own drawing is proved separately in `box.dfy`, `centered_box.dfy` and
  `centered_text.dfy`.
