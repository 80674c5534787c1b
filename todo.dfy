/** Microsoft To Do dispatch (src/services/todoService.ts): the task body built
    for one task, the request path, and the sequential batch loop. The Graph
    client, together with the token acquisition it performs, is an oracle that
    answers each POST with the response body or an error message. */
module Todo {
  import opened Types

  datatype ItemBody = ItemBody(content: string, contentType: string)

  datatype DateTimeTimeZone = DateTimeTimeZone(dateTime: string, timeZone: string)

  /** The JSON object posted as a new To Do task; an absent key is `None`. */
  datatype TodoTaskBody = TodoTaskBody(
    title: string,
    body: ItemBody,
    importance: Importance,
    dueDateTime: Option<DateTimeTimeZone>,
    isReminderOn: Option<bool>,
    reminderDateTime: Option<DateTimeTimeZone>,
    categories: Option<seq<string>>)

  datatype TodoRequest = TodoRequest(path: string, body: TodoTaskBody)

  /** The Graph client: the `call`-th POST of a batch, with its request, gives the
      created task's JSON or an error message. */
  type GraphPost = (nat, TodoRequest) -> Result<string, string>

  /** `task.categories && task.categories.length > 0` */
  predicate HasCategories(task: TaskDetails) {
    task.categories.Some? && |task.categories.value| > 0
  }

  /** What the body posted for `task` must be: title, plain-text body and
      importance always; each optional key present exactly when its source
      field is truthy, date-times in the Seoul time zone, and the reminder flag
      only together with the reminder time. */
  predicate IsTaskBodyFor(task: TaskDetails, b: TodoTaskBody) {
    && b.title == task.title
    && b.body == ItemBody(task.body, "text")
    && b.importance == task.importance
    && (b.dueDateTime.Some? <==> Truthy(task.dueDateTime))
    && (b.dueDateTime.Some? ==> b.dueDateTime.value == DateTimeTimeZone(task.dueDateTime.value, SeoulTimeZone))
    && (b.isReminderOn.Some? <==> Truthy(task.reminderDateTime))
    && (b.isReminderOn.Some? ==> b.isReminderOn.value)
    && (b.reminderDateTime.Some? <==> Truthy(task.reminderDateTime))
    && (b.reminderDateTime.Some? ==>
          b.reminderDateTime.value == DateTimeTimeZone(task.reminderDateTime.value, SeoulTimeZone))
    && (b.categories.Some? <==> HasCategories(task))
    && (b.categories.Some? ==> b.categories == task.categories)
  }

  /** The description above leaves no freedom: it fixes the body. */
  lemma TaskBodyIsDetermined(task: TaskDetails, b1: TodoTaskBody, b2: TodoTaskBody)
    requires IsTaskBodyFor(task, b1) && IsTaskBodyFor(task, b2)
    ensures b1 == b2
  {
  }

  /** The `taskBody` object of `createTask`, built field by field. */
  method BuildTaskBody(task: TaskDetails) returns (b: TodoTaskBody)
    ensures IsTaskBodyFor(task, b)
  {
    b := TodoTaskBody(task.title, ItemBody(task.body, "text"), task.importance, None, None, None, None);
    if Truthy(task.dueDateTime) {
      b := b.(dueDateTime := Some(DateTimeTimeZone(task.dueDateTime.value, SeoulTimeZone)));
    }
    if Truthy(task.reminderDateTime) {
      b := b.(isReminderOn := Some(true));
      b := b.(reminderDateTime := Some(DateTimeTimeZone(task.reminderDateTime.value, SeoulTimeZone)));
    }
    if HasCategories(task) {
      b := b.(categories := task.categories);
    }
  }

  const ListsPrefix: string := "/me/todo/lists/"
  const TasksSuffix: string := "/tasks"

  /** The path tasks of list `listId` are posted to. */
  function TasksPath(listId: string): (p: string)
    ensures ListsPrefix <= p
    ensures |p| == |ListsPrefix| + |listId| + |TasksSuffix|
  {
    ListsPrefix + listId + TasksSuffix
  }

  /** The list id is read back from the path, so distinct lists get distinct paths. */
  lemma TasksPathNamesList(listId: string)
    ensures TasksPath(listId)[|ListsPrefix|..|TasksPath(listId)| - |TasksSuffix|] == listId
    ensures TasksPath(listId)[|TasksPath(listId)| - |TasksSuffix|..] == TasksSuffix
  {
    var p := TasksPath(listId);
    assert p == ListsPrefix + (listId + TasksSuffix);
    assert p[|ListsPrefix|..] == listId + TasksSuffix;
    assert p[|ListsPrefix|..|p| - |TasksSuffix|] == (listId + TasksSuffix)[..|listId|];
  }

  lemma TasksPathInjective(a: string, b: string)
    requires TasksPath(a) == TasksPath(b)
    ensures a == b
  {
    TasksPathNamesList(a);
    TasksPathNamesList(b);
  }

  /** `createTask`: build the body, post it to the list's path; the promise
      settles with what the Graph call gives. */
  method CreateTask(listId: string, task: TaskDetails, post: GraphPost, call: nat)
    returns (request: TodoRequest, result: Result<string, string>)
    ensures request.path == TasksPath(listId)
    ensures IsTaskBodyFor(task, request.body)
    ensures result == post(call, request)
  {
    var taskBody := BuildTaskBody(task);
    request := TodoRequest(TasksPath(listId), taskBody);
    result := post(call, request);
  }

  /** `createTasksInBatch`: one `createTask` per task, in order; a failure is
      recorded with its task and the loop goes on. Nothing escapes the loop. */
  method CreateTasksInBatch(listId: string, tasks: seq<TaskDetails>, post: GraphPost)
    returns (results: seq<BatchResult>, requests: seq<TodoRequest>)
    ensures |results| == |tasks| && |requests| == |tasks|
    ensures forall i :: 0 <= i < |tasks| ==>
              && requests[i].path == TasksPath(listId)
              && IsTaskBodyFor(tasks[i], requests[i].body)
              && results[i] == RecordOutcome(post(i, requests[i]), tasks[i])
  {
    results, requests := [], [];
    var i := 0;
    while i < |tasks|
      invariant 0 <= i <= |tasks|
      invariant |results| == i && |requests| == i
      invariant forall j :: 0 <= j < i ==>
                  && requests[j].path == TasksPath(listId)
                  && IsTaskBodyFor(tasks[j], requests[j].body)
                  && results[j] == RecordOutcome(post(j, requests[j]), tasks[j])
    {
      var request, result := CreateTask(listId, tasks[i], post, i);
      requests := requests + [request];
      results := results + [RecordOutcome(result, tasks[i])];
      i := i + 1;
    }
  }
}
