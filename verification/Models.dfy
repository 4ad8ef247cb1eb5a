/** Values shared by the stores: instants, statuses and status events. */
module Models {

  /** An instant in nanoseconds; 0 is Go's zero time, which the code tests with
      IsZero and which no clock reading ever equals. */
  type Time = int
  type Instant = t: int | t > 0 witness 1

  const SECOND := 1_000_000_000
  const MINUTE := 60 * SECOND
  const HOUR := 60 * MINUTE

  datatype Option<+T> = None | Some(value: T)

  /** Unset is the empty string. */
  datatype Status = Unset | Online | Degraded | Offline | Unknown | Hidden

  function StatusOrUnknown(s: Status): Status {
    if s == Unset then Unknown else s
  }

  /** NoType is the empty string, which a filter reads as "any". */
  datatype SubjectType = NoType | App | Infra

  datatype StatusEvent = StatusEvent(
    subjectType: SubjectType,
    subjectId: string,
    displayName: string,
    from: Status,
    to: Status,
    at: Time,
    note: string)

  /** The type text contains no bar, so the source's "type|id" text is a pair. */
  datatype SubjectKey = SubjectKey(kind: SubjectType, id: string)

  function EventAt(e: StatusEvent): Time {
    e.at
  }
}
