/** The records shared by the services and the app (src/types.ts). */
module Types {

  datatype Option<+T> = None | Some(value: T)

  /** A value, or the error a JavaScript `throw` / promise rejection would carry. */
  datatype Result<+R, +E> = Success(value: R) | Failure(error: E)

  datatype Importance = Low | Normal | High

  /** `TaskDetails`: optional fields are `Option`s; an ISO 8601 date-time stays
      an uninterpreted string. */
  datatype TaskDetails = TaskDetails(
    title: string,
    body: string,
    dueDateTime: Option<string>,
    importance: Importance,
    reminderDateTime: Option<string>,
    categories: Option<seq<string>>)

  /** `AnalyzedTask`: a `TaskDetails` plus the identity and timestamp the app
      assigns when it receives it (`extractedInfo` is always `{}` and is not kept). */
  datatype AnalyzedTask = AnalyzedTask(details: TaskDetails, id: string, createdAt: int)

  /** JavaScript truthiness of an optional string: present and non-empty. */
  predicate Truthy(s: Option<string>) {
    s.Some? && s.value != ""
  }

  /** One entry of a batch dispatcher's result array: `{ success: true, data }`
      or `{ success: false, error, task }`. */
  datatype BatchResult = Sent(data: string) | NotSent(error: string, task: TaskDetails)

  /** The entry recorded for `task` once its request has settled with `r`. */
  function RecordOutcome(r: Result<string, string>, task: TaskDetails): (e: BatchResult)
    ensures e.Sent? <==> r.Success?
    ensures e.Sent? ==> e.data == r.value
    ensures e.NotSent? ==> e.error == r.error && e.task == task
  {
    if r.Success? then Sent(r.value) else NotSent(r.error, task)
  }

  /** The time zone both destinations are given. */
  const SeoulTimeZone: string := "Asia/Seoul"
}
