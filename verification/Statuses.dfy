/** The lifecycle statuses and the directed table of legal moves (internal/state/statuses.go). */
module Statuses {

  datatype Status =
    | Discovered | Converting | Indexing | IndexFailed | Mounting | MountFailed
    | Mounted | HooksRunning | Unmounting | Absent

  /** The archive-level hooks_status. */
  datatype HooksStatus = HooksNone | HooksPending | HooksInProgress | HooksSuccess | HooksFailed | HooksRetry

  /** The status of one row of the hooks table. */
  datatype HookStatus = HookPending | HookRunning | HookSuccess | HookFailed | HookRetry | HookSkipped

  /** ALLOWED_TRANSITIONS. */
  function Allowed(from: Status): set<Status> {
    match from
    case Discovered => {Converting, Indexing, Mounting, Unmounting, Absent}
    case Converting => {Discovered, Indexing, Mounting, MountFailed, IndexFailed, Unmounting, Absent}
    case Indexing => {IndexFailed, Mounted, HooksRunning, Unmounting, Discovered, Mounting, MountFailed}
    case IndexFailed => {Discovered, Unmounting, Absent}
    case Mounting => {Mounted, MountFailed, HooksRunning, Unmounting, Indexing}
    case MountFailed => {Converting, Mounting, Discovered, Unmounting, Absent, Indexing}
    case Mounted => {HooksRunning, Unmounting, Mounting, MountFailed}
    case HooksRunning => {Mounted, Unmounting, MountFailed}
    case Unmounting => {Absent, Mounted, Discovered, Converting, Mounting, MountFailed}
    case Absent => {Discovered}
  }

  /** ValidateTransition: a table edge, or a field-only patch. */
  predicate ValidTransition(from: Status, to: Status) {
    from == to || to in Allowed(from)
  }
}
