/**
 * Reducers (the REDUCER and INIT_REDUCER macros). A reducer is a family of
 * specialisations indexed by action tags: the one for `InitStore` gives the
 * field's initial value, the others map the previous value and the payload
 * to the next value. The unspecialised family member reports `valid ==
 * false`.
 */
module Reducer {
  import opened ImmutableStruct
  import opened Action

  datatype Reducer = Reducer(
    init: Value,
    handlers: map<seq<Tag>, (Value, seq<Value>) -> Value>)

  /** `reducer<tags...>::valid`: true exactly for the specialised tag lists. */
  predicate IsValid(r: Reducer, tags: seq<Tag>) {
    tags == InitStoreTags() || tags in r.handlers
  }

  /**
   * The `valid` flag says what dispatch does with a field: for a flagged
   * action other than `InitStore` the field's specialisation runs, and for
   * an unflagged one the field passes through unchanged.
   */
  lemma ValidFlagDecidesReduce(r: Reducer, a: Action, prev: Value)
    requires a.tags != InitStoreTags()
    ensures IsValid(r, a.tags) ==> Reduce(r, a, prev) == r.handlers[a.tags](prev, a.payload)
    ensures !IsValid(r, a.tags) ==> Reduce(r, a, prev) == prev
  {
  }

  /**
   * The next value of a field for an action. In the source a store whose
   * reducer lacks the action's specialisation does not compile; here that
   * reducer passes the previous value through.
   */
  function Reduce(r: Reducer, a: Action, prev: Value): (v: Value)
    ensures a.tags !in r.handlers ==> v == prev
  {
    if a.tags in r.handlers then r.handlers[a.tags](prev, a.payload) else prev
  }

  /**
   * The reduce function of a window-size action: its payload is one int,
   * the new size, which becomes the field's value whatever it held before.
   * (A payload of another shape does not compile in C++; here it leaves
   * the field as it was.)
   */
  function SizePayload(prev: Value, payload: seq<Value>): (v: Value)
    ensures |payload| == 1 && payload[0].Int? ==> v == payload[0]
    ensures v == prev || v in payload
  {
    if |payload| == 1 && payload[0].Int? then payload[0] else prev
  }

  /** `windowWidthReducer`: starts at -1 and takes the new width. */
  function WindowWidthReducer(): (r: Reducer)
    ensures r.init == Int(-1)
    ensures IsValid(r, InitStoreTags()) && IsValid(r, WindowWidthTags())
    ensures !IsValid(r, WindowHeightTags())
    ensures forall w: int, prev :: Reduce(r, Action(WindowWidthTags(), [Int(w)]), prev) == Int(w)
    ensures forall a: Action, prev :: a.tags != WindowWidthTags() ==> Reduce(r, a, prev) == prev
  {
    Reducer(Int(-1), map[WindowWidthTags() := SizePayload])
  }

  /** `windowHeightReducer`: starts at -1 and takes the new height. */
  function WindowHeightReducer(): (r: Reducer)
    ensures r.init == Int(-1)
    ensures IsValid(r, InitStoreTags()) && IsValid(r, WindowHeightTags())
    ensures !IsValid(r, WindowWidthTags())
    ensures forall h: int, prev :: Reduce(r, Action(WindowHeightTags(), [Int(h)]), prev) == Int(h)
    ensures forall a: Action, prev :: a.tags != WindowHeightTags() ==> Reduce(r, a, prev) == prev
  {
    Reducer(Int(-1), map[WindowHeightTags() := SizePayload])
  }
}
