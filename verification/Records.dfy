/** The enumerations that the stored records share, and the moves a task may make between its states. */
module Records {
  import opened Common

  type TaskId = nat
  type Commit = nat
  type Repository = nat

  datatype TaskState =
    | Ingested | Analyzing | Planned | Implementing | Testing
    | Reviewing | Verifying | Ready | Blocked | Failed

  /** The states a task may move to from `from`. */
  predicate Allowed(from: TaskState, to: TaskState)
  {
    match from
    case Ingested => to in {Analyzing, Blocked}
    case Analyzing => to in {Planned, Blocked, Failed}
    case Blocked => to in {Analyzing, Planned, Implementing}
    case Planned => to in {Implementing, Blocked}
    case Implementing => to in {Testing, Failed, Blocked}
    case Testing => to in {Reviewing, Implementing, Blocked, Failed}
    case Reviewing => to in {Ready, Verifying, Implementing, Blocked, Failed}
    case Verifying => to in {Ready, Implementing, Blocked, Failed}
    case Ready => to == Implementing
    case Failed => to in {Analyzing, Implementing}
  }
}
