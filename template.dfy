/** Actor templates: the id an actor is created under and the optional
    trap that classifies its errors into a supervision action. */
module Template {
  import opened Wrappers
  import opened Values

  /** What a trap asks the supervisor to do with an error. A trap may return
      a value that is none of the four known actions. */
  datatype Action =
    | ActionRaise
    | ActionIgnore
    | ActionRestart
    | ActionStop
    | ActionUnknown(code: int)

  /** A template; `trap` is absent when the template supplies none. */
  datatype Template = Template(id: string, trap: Option<Err -> Action>)
}
