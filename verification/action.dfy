/**
 * Actions. An action is named by a list of enumerators (`ACTION(tags...)`),
 * which selects the reducer specialisation, and carries a payload that is
 * handed to the selected `reduce` after the field's previous value.
 */
module Action {
  import opened ImmutableStruct

  /** The framework's own actions. */
  datatype BuiltinAction = InitStore | UpdateWindowWidth | UpdateWindowHeight

  /** One enumerator of an action name: a builtin action, or enumerator
    * `enumerator` of the application's enumeration number `enumeration`. */
  datatype Tag = Builtin(action: BuiltinAction) | App(enumeration: nat, enumerator: nat)

  datatype Action = Action(tags: seq<Tag>, payload: seq<Value>)

  function InitStoreTags(): seq<Tag> { [Builtin(InitStore)] }
  function WindowWidthTags(): seq<Tag> { [Builtin(UpdateWindowWidth)] }
  function WindowHeightTags(): seq<Tag> { [Builtin(UpdateWindowHeight)] }
}
