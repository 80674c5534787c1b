/** Google Calendar dispatch (src/services/calendarService.ts): the all-day
    event built from a task, the single-event call with its failure paths, and
    the sequential batch loop. The clock, `Date` parsing and rendering, and the
    Calendar endpoint are parameters. */
module Calendar {
  import opened Types
  import opened Strings
  import opened GoogleAuth

  datatype EventDate = EventDate(date: string, timeZone: string)

  datatype ReminderOverride = ReminderOverride(reminderMethod: string, minutes: int)

  datatype Reminders = Reminders(useDefault: bool, overrides: seq<ReminderOverride>)

  datatype CalendarEvent = CalendarEvent(
    summary: string,
    description: string,
    start: EventDate,
    end: EventDate,
    reminders: Reminders)

  /** 07:30 as minutes after the start of an all-day event. */
  const ReminderMinutes: int := 450
  const EventFailedMessage: string := "이벤트 생성 실패"
  /** The `RangeError` message of `toISOString` on an invalid date. */
  const InvalidTimeMessage: string := "Invalid time value"

  /** `new Date(s).toISOString()`: the UTC rendering of the instant `s`
      denotes, or `None` when `s` is not a valid date (the call throws). */
  type IsoRendering = string -> Option<string>

  /** The instant of the `call`-th request: `Date.now()` and its ISO rendering. */
  datatype Instant = Instant(ms: int, iso: string)

  /** What the events endpoint answers: the created event, a non-OK response
      with the body's `error.message` if any, or a failed `fetch`. */
  datatype InsertResponse = Created(data: string) | NotOk(message: Option<string>) | NetworkError(reason: string)

  datatype CalendarEnv = CalendarEnv(
    clock: nat -> Instant,
    toIso: IsoRendering,
    insert: (nat, string, CalendarEvent) -> InsertResponse)

  /** `iso.split('T')[0]` */
  function DatePart(iso: string): (d: string)
    ensures 'T' !in d
  {
    Split(iso, 'T')[0]
  }

  /** The date of an ISO date-time is the text before its `T`. */
  lemma DatePartOf(date: string, time: string)
    requires 'T' !in date
    ensures DatePart(date + "T" + time) == date
  {
    SplitAfterPiece(date, time, 'T');
  }

  /** The date-time the event is placed on: the task's due time when it is
      truthy, else the current instant. */
  function DueSource(task: TaskDetails, nowIso: string): string {
    if Truthy(task.dueDateTime) then task.dueDateTime.value else nowIso
  }

  /** What an event for `task` on `date` is: titled and described by the task,
      starting and ending on that date in Seoul, with one popup at 07:30 and
      no default reminders. */
  predicate IsAllDayEventFor(task: TaskDetails, date: string, e: CalendarEvent) {
    && e.summary == task.title
    && e.description == task.body
    && e.start == EventDate(date, SeoulTimeZone)
    && e.end == e.start
    && e.reminders == Reminders(false, [ReminderOverride("popup", ReminderMinutes)])
  }

  /** `convertTaskToEvent`; it throws when the date-time it parses is invalid. */
  function ConvertTaskToEvent(task: TaskDetails, nowIso: string, toIso: IsoRendering): (r: Result<CalendarEvent, string>)
    ensures r.Success? <==> toIso(DueSource(task, nowIso)).Some?
    ensures r.Success? ==> IsAllDayEventFor(task, DatePart(toIso(DueSource(task, nowIso)).value), r.value)
    ensures r.Failure? ==> r.error == InvalidTimeMessage
  {
    var dueDateTime := if Truthy(task.dueDateTime) then task.dueDateTime.value else nowIso;
    match toIso(dueDateTime)
    case None => Failure(InvalidTimeMessage)
    case Some(iso) =>
      var dateString := DatePart(iso);
      Success(CalendarEvent(
        task.title,
        task.body,
        EventDate(dateString, SeoulTimeZone),
        EventDate(dateString, SeoulTimeZone),
        Reminders(false, [ReminderOverride("popup", ReminderMinutes)])))
  }

  /** A task with a due time is placed on the UTC date of that time, whatever
      the current instant. */
  lemma DueTaskDate(task: TaskDetails, nowIso: string, toIso: IsoRendering, date: string, time: string)
    requires Truthy(task.dueDateTime)
    requires toIso(task.dueDateTime.value) == Some(date + "T" + time) && 'T' !in date
    ensures ConvertTaskToEvent(task, nowIso, toIso).Success?
    ensures IsAllDayEventFor(task, date, ConvertTaskToEvent(task, nowIso, toIso).value)
  {
    DatePartOf(date, time);
  }

  /** A task without a due time is placed on today's UTC date. */
  lemma UndatedTaskIsToday(task: TaskDetails, nowIso: string, toIso: IsoRendering, date: string, time: string)
    requires !Truthy(task.dueDateTime)
    requires toIso(nowIso) == Some(date + "T" + time) && 'T' !in date
    ensures ConvertTaskToEvent(task, nowIso, toIso).Success?
    ensures IsAllDayEventFor(task, date, ConvertTaskToEvent(task, nowIso, toIso).value)
  {
    DatePartOf(date, time);
  }

  /** The promise outcome of the events call. */
  function InsertResult(response: InsertResponse): (r: Result<string, string>)
    ensures r.Success? <==> response.Created?
    ensures response.Created? ==> r == Success(response.data)
    ensures response.NetworkError? ==> r == Failure(response.reason)
    ensures response.NotOk? && !Truthy(response.message) ==> r == Failure(EventFailedMessage)
    ensures response.NotOk? && Truthy(response.message) ==> r == Failure(response.message.value)
  {
    match response
    case Created(data) => Success(data)
    case NotOk(message) => Failure(if Truthy(message) then message.value else EventFailedMessage)
    case NetworkError(reason) => Failure(reason)
  }

  /** The outcome of one `createCalendarEvent` and the token slot after it. */
  datatype EventAttempt = EventAttempt(result: Result<string, string>, slot: Option<StoredTokenInfo>)

  /** `createCalendarEvent`: the token is read first (a failure throws before
      anything else), then the event is built, then it is posted. */
  function CreateEvent(slot: Option<StoredTokenInfo>, task: TaskDetails, call: nat, env: CalendarEnv): (o: EventAttempt)
    ensures o.slot == AccessTokenAt(slot, env.clock(call).ms).slot
  {
    var now := env.clock(call);
    var read := AccessTokenAt(slot, now.ms);
    match read.token
    case Failure(e) => EventAttempt(Failure(e), read.slot)
    case Success(token) =>
      match ConvertTaskToEvent(task, now.iso, env.toIso)
      case Failure(e) => EventAttempt(Failure(e), read.slot)
      case Success(event) => EventAttempt(InsertResult(env.insert(call, token, event)), read.slot)
  }

  /** A call fails with the token read's error before anything is posted; with a
      token, a conversion failure is the call's failure, and otherwise the
      call settles as the endpoint answers (the created event on `Created`). It
      succeeds only when the token is read, the event is built and the endpoint
      creates it. */
  lemma CreateEventOutcome(slot: Option<StoredTokenInfo>, task: TaskDetails, call: nat, env: CalendarEnv)
    ensures var read := AccessTokenAt(slot, env.clock(call).ms);
            var o := CreateEvent(slot, task, call, env);
            && (read.token.Failure? ==> o.result == Failure(read.token.error))
            && (o.result.Success? ==>
                  && read.token.Success?
                  && ConvertTaskToEvent(task, env.clock(call).iso, env.toIso).Success?
                  && env.insert(call, read.token.value, ConvertTaskToEvent(task, env.clock(call).iso, env.toIso).value)
                     == Created(o.result.value))
    ensures var read := AccessTokenAt(slot, env.clock(call).ms);
            var conversion := ConvertTaskToEvent(task, env.clock(call).iso, env.toIso);
            var o := CreateEvent(slot, task, call, env);
            && (read.token.Success? && conversion.Failure? ==> o.result == Failure(conversion.error))
            && (read.token.Success? && conversion.Success? ==>
                  o.result == InsertResult(env.insert(call, read.token.value, conversion.value)))
            && (forall data :: read.token.Success? && conversion.Success?
                               && env.insert(call, read.token.value, conversion.value) == Created(data)
                               ==> o.result == Success(data))
  {
  }

  /** The entries of a batch and the token slot after it. */
  datatype BatchRun = BatchRun(results: seq<BatchResult>, slot: Option<StoredTokenInfo>)

  /** `createEventsInBatch` from call number `first` on: one entry per task, in
      order; the token slot threads through the calls. */
  function EventsFrom(slot: Option<StoredTokenInfo>, tasks: seq<TaskDetails>, first: nat, env: CalendarEnv): (run: BatchRun)
    ensures |run.results| == |tasks|
    ensures run.slot == slot || run.slot == None
    decreases |tasks|
  {
    if tasks == [] then BatchRun([], slot)
    else
      var attempt := CreateEvent(slot, tasks[0], first, env);
      var rest := EventsFrom(attempt.slot, tasks[1..], first + 1, env);
      BatchRun([RecordOutcome(attempt.result, tasks[0])] + rest.results, rest.slot)
  }

  /** A failed entry carries the task it was for. */
  lemma {:induction false} FailuresCarryTask(slot: Option<StoredTokenInfo>, tasks: seq<TaskDetails>, first: nat, env: CalendarEnv)
    ensures var run := EventsFrom(slot, tasks, first, env);
            forall i :: 0 <= i < |tasks| && run.results[i].NotSent? ==> run.results[i].task == tasks[i]
    decreases |tasks|
  {
    if tasks != [] {
      var attempt := CreateEvent(slot, tasks[0], first, env);
      FailuresCarryTask(attempt.slot, tasks[1..], first + 1, env);
    }
  }

  /** With no token stored, every event of the batch fails asking for a login. */
  lemma {:induction false} BatchWithoutLogin(tasks: seq<TaskDetails>, first: nat, env: CalendarEnv)
    ensures var run := EventsFrom(None, tasks, first, env);
            && run.slot == None
            && forall i :: 0 <= i < |tasks| ==> run.results[i] == NotSent(LoginRequiredMessage, tasks[i])
    decreases |tasks|
  {
    if tasks != [] {
      BatchWithoutLogin(tasks[1..], first + 1, env);
    }
  }

  /** One step of the batch: the first call's entry, then the rest of the
      batch from the slot that call leaves. */
  lemma {:induction false} EventsFromStep(slot: Option<StoredTokenInfo>, tasks: seq<TaskDetails>, first: nat, env: CalendarEnv)
    requires tasks != []
    ensures var attempt := CreateEvent(slot, tasks[0], first, env);
            var rest := EventsFrom(attempt.slot, tasks[1..], first + 1, env);
            EventsFrom(slot, tasks, first, env)
            == BatchRun([RecordOutcome(attempt.result, tasks[0])] + rest.results, rest.slot)
  {
  }

  /** Once one call finds the token expired, it is removed and every later
      event of the batch fails asking for a login. */
  lemma {:induction false} ExpiryEndsBatch(info: StoredTokenInfo, tasks: seq<TaskDetails>, first: nat, env: CalendarEnv)
    requires tasks != [] && Expired(info, env.clock(first).ms)
    ensures var run := EventsFrom(Some(info), tasks, first, env);
            && run.slot == None
            && run.results[0] == NotSent(TokenExpiredMessage, tasks[0])
            && forall i :: 1 <= i < |tasks| ==> run.results[i] == NotSent(LoginRequiredMessage, tasks[i])
  {
    var run := EventsFrom(Some(info), tasks, first, env);
    var rest := EventsFrom(None, tasks[1..], first + 1, env);
    assert run == BatchRun([NotSent(TokenExpiredMessage, tasks[0])] + rest.results, rest.slot) by {
      assert CreateEvent(Some(info), tasks[0], first, env) == EventAttempt(Failure(TokenExpiredMessage), None);
      EventsFromStep(Some(info), tasks, first, env);
    }
    BatchWithoutLogin(tasks[1..], first + 1, env);
    assert forall i :: 1 <= i < |tasks| ==> run.results[i] == rest.results[i - 1];
  }

  /** The entries are exactly the single-event outcomes when the token stays
      valid: each entry is the outcome of its own call. */
  lemma {:induction false} BatchWithValidToken(info: StoredTokenInfo, tasks: seq<TaskDetails>, first: nat, env: CalendarEnv)
    requires forall k: nat :: first <= k < first + |tasks| ==> !Expired(info, env.clock(k).ms)
    ensures var run := EventsFrom(Some(info), tasks, first, env);
            && run.slot == Some(info)
            && forall i :: 0 <= i < |tasks| ==>
                 run.results[i] == RecordOutcome(CreateEvent(Some(info), tasks[i], first + i, env).result, tasks[i])
    decreases |tasks|
  {
    if tasks != [] {
      var attempt := CreateEvent(Some(info), tasks[0], first, env);
      var rest := EventsFrom(Some(info), tasks[1..], first + 1, env);
      var run := EventsFrom(Some(info), tasks, first, env);
      assert run == BatchRun([RecordOutcome(attempt.result, tasks[0])] + rest.results, rest.slot) by {
        assert attempt.slot == Some(info);
        EventsFromStep(Some(info), tasks, first, env);
      }
      BatchWithValidToken(info, tasks[1..], first + 1, env);
      forall i | 1 <= i < |tasks|
        ensures run.results[i] == RecordOutcome(CreateEvent(Some(info), tasks[i], first + i, env).result, tasks[i])
      {
        assert run.results[i] == rest.results[i - 1];
        assert tasks[1..][i - 1] == tasks[i] && first + 1 + (i - 1) == first + i;
      }
    }
  }

  /** Appending one more call's entry to a batch run. */
  lemma {:induction false} EventsFromSnoc(slot: Option<StoredTokenInfo>, tasks: seq<TaskDetails>, first: nat, env: CalendarEnv, task: TaskDetails)
    ensures var run := EventsFrom(slot, tasks, first, env);
            var attempt := CreateEvent(run.slot, task, first + |tasks|, env);
            EventsFrom(slot, tasks + [task], first, env)
            == BatchRun(run.results + [RecordOutcome(attempt.result, task)], attempt.slot)
    decreases |tasks|
  {
    if tasks == [] {
      assert EventsFrom(CreateEvent(slot, task, first, env).slot, [], first + 1, env).results == [];
    } else {
      var attempt := CreateEvent(slot, tasks[0], first, env);
      EventsFromSnoc(attempt.slot, tasks[1..], first + 1, env, task);
      assert (tasks + [task])[1..] == tasks[1..] + [task];
    }
  }

  /** `createCalendarEvent`, against the token slot. */
  method CreateCalendarEvent(tokens: GoogleTokenSlot, task: TaskDetails, call: nat, env: CalendarEnv)
    returns (result: Result<string, string>)
    modifies tokens
    ensures EventAttempt(result, tokens.stored) == CreateEvent(old(tokens.stored), task, call, env)
  {
    var now := env.clock(call);
    var token := tokens.GetAccessToken(now.ms);
    if token.Failure? {
      return Failure(token.error);
    }
    var event := ConvertTaskToEvent(task, now.iso, env.toIso);
    if event.Failure? {
      return Failure(event.error);
    }
    var response := env.insert(call, token.value, event.value);
    result := InsertResult(response);
  }

  /** `createEventsInBatch`: one `createCalendarEvent` per task, in order; a
      failure is recorded with its task and the loop goes on. */
  method CreateEventsInBatch(tokens: GoogleTokenSlot, tasks: seq<TaskDetails>, env: CalendarEnv)
    returns (results: seq<BatchResult>)
    modifies tokens
    ensures BatchRun(results, tokens.stored) == EventsFrom(old(tokens.stored), tasks, 0, env)
  {
    results := [];
    var i := 0;
    while i < |tasks|
      invariant 0 <= i <= |tasks|
      invariant BatchRun(results, tokens.stored) == EventsFrom(old(tokens.stored), tasks[..i], 0, env)
    {
      EventsFromSnoc(old(tokens.stored), tasks[..i], 0, env, tasks[i]);
      assert tasks[..i] + [tasks[i]] == tasks[..i + 1];
      var result := CreateCalendarEvent(tokens, tasks[i], i, env);
      results := results + [RecordOutcome(result, tasks[i])];
      i := i + 1;
    }
    assert tasks[..i] == tasks;
  }
}
