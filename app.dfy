/** The application state and handlers of src/App.tsx that decide what is
    analysed, sent and shown: the send orchestration (validation, choice of
    batches, reduction of the settled results, clear-or-report), the task-list
    updates on analysis and deletion, and the combined sign-in flags. */
module App {
  import opened Types
  import opened Strings
  import Gemini
  import Todo
  import Calendar
  import GoogleAuth

  datatype AnalysisStatus = Idle | Analyzing | Succeeded | Errored

  /** The three sign-in flags (user names and e-mails are display-only and
      not kept). */
  datatype AuthState = AuthState(isAuthenticated: bool, isMicrosoftAuthenticated: bool, isGoogleAuthenticated: bool)

  const SignedOut: AuthState := AuthState(false, false, false)

  datatype TodoList = TodoList(id: string, displayName: string)

  datatype Destination = Microsoft | Google

  /** A `Promise.allSettled` entry for one batch. */
  datatype Settled = Fulfilled(entries: seq<BatchResult>) | Rejected(reason: string)

  /** The four counters of the reduction. */
  datatype Counts = Counts(msSuccess: nat, msTotal: nat, googleSuccess: nat, googleTotal: nat)

  const LoginFirstMessage: string := "먼저 Microsoft 또는 Google 계정으로 로그인해주세요."
  const NoTasksMessage: string := "전송할 작업이 없습니다."
  const SelectListMessage: string := "To-Do 목록을 선택해주세요."
  const EmptyInputMessage: string := "분석할 텍스트를 입력하거나 파일을 업로드해주세요."
  const AnalyzeFailedMessage: string := "내용을 분석하는 중 오류가 발생했습니다. 다시 시도해주세요."

  // ---------------------------------------------------------------- sending

  /** The validation of `handleSendToBoth`, in its order: no sign-in, then no
      tasks, then Microsoft signed in without a selected list. */
  function SendValidation(auth: AuthState, taskCount: nat, selectedListId: string): (r: Option<string>)
    ensures r.None? <==>
              && (auth.isMicrosoftAuthenticated || auth.isGoogleAuthenticated)
              && taskCount > 0
              && (auth.isMicrosoftAuthenticated ==> selectedListId != "")
    ensures !auth.isMicrosoftAuthenticated && !auth.isGoogleAuthenticated ==> r == Some(LoginFirstMessage)
    ensures (auth.isMicrosoftAuthenticated || auth.isGoogleAuthenticated) && taskCount == 0 ==>
              r == Some(NoTasksMessage)
    ensures auth.isMicrosoftAuthenticated && taskCount > 0 && selectedListId == "" ==>
              r == Some(SelectListMessage)
  {
    if !auth.isMicrosoftAuthenticated && !auth.isGoogleAuthenticated then Some(LoginFirstMessage)
    else if taskCount == 0 then Some(NoTasksMessage)
    else if auth.isMicrosoftAuthenticated && selectedListId == "" then Some(SelectListMessage)
    else None
  }

  /** The batches pushed onto `promises`, in push order. */
  function Dispatched(auth: AuthState, selectedListId: string): (d: seq<Destination>)
    ensures Microsoft in d <==> auth.isMicrosoftAuthenticated && selectedListId != ""
    ensures Google in d <==> auth.isGoogleAuthenticated
    ensures |d| == 2 ==> d == [Microsoft, Google]
    ensures |d| <= 2
  {
    (if auth.isMicrosoftAuthenticated && selectedListId != "" then [Microsoft] else [])
    + (if auth.isGoogleAuthenticated then [Google] else [])
  }

  /** Which counters the settled entry at `index` is written to. */
  function DestinationOf(microsoft: bool, index: nat): Option<Destination> {
    if index == 0 && microsoft then Some(Microsoft)
    else if (index == 0 && !microsoft) || (index == 1 && microsoft) then Some(Google)
    else None
  }

  /** Once validation has passed, the index mapping of the reduction names the
      batch that was pushed at that index. */
  lemma DestinationsMatchDispatch(auth: AuthState, taskCount: nat, selectedListId: string)
    requires SendValidation(auth, taskCount, selectedListId).None?
    ensures var d := Dispatched(auth, selectedListId);
            forall i :: 0 <= i < |d| ==> DestinationOf(auth.isMicrosoftAuthenticated, i) == Some(d[i])
  {
  }

  /** Without the validation the mapping can be wrong: Microsoft signed in with
      no list selected pushes only the Google batch, which index 0 would then
      count as Microsoft's. */
  lemma MappingNeedsValidation()
    ensures Dispatched(AuthState(true, true, true), "") == [Google]
    ensures DestinationOf(true, 0) == Some(Microsoft)
  {
  }

  /** `result.value.filter(r => r.success).length` */
  function SuccessCount(entries: seq<BatchResult>): (k: nat)
    ensures k <= |entries|
    ensures k == |entries| <==> forall i :: 0 <= i < |entries| ==> entries[i].Sent?
  {
    if entries == [] then 0
    else (if entries[0].Sent? then 1 else 0) + SuccessCount(entries[1..])
  }

  /** A single entry counts one exactly when it was sent. */
  lemma SuccessCountOne(e: BatchResult)
    ensures SuccessCount([e]) == if e.Sent? then 1 else 0
  {
    assert [e][1..] == [];
  }

  /** Counting works piecewise: with `SuccessCountOne`, the count is the
      number of sent entries. */
  lemma {:induction false} SuccessCountAppend(a: seq<BatchResult>, b: seq<BatchResult>)
    ensures SuccessCount(a + b) == SuccessCount(a) + SuccessCount(b)
  {
    if a == [] {
      assert a + b == b;
    } else {
      SuccessCountAppend(a[1..], b);
      assert (a + b)[1..] == a[1..] + b;
      assert (a + b)[0] == a[0];
    }
  }

  /** One `forEach` step: a fulfilled batch overwrites the counters of its
      destination; a rejected one changes nothing. */
  function Record(c: Counts, s: Settled, d: Option<Destination>): Counts {
    if s.Rejected? || d.None? then c
    else if d.value == Microsoft then c.(msSuccess := SuccessCount(s.entries), msTotal := |s.entries|)
    else c.(googleSuccess := SuccessCount(s.entries), googleTotal := |s.entries|)
  }

  /** The counters after the `forEach` over the settled batches. */
  function Tally(settled: seq<Settled>, microsoft: bool): Counts
  {
    if settled == [] then Counts(0, 0, 0, 0)
    else
      var i := |settled| - 1;
      Record(Tally(settled[..i], microsoft), settled[i], DestinationOf(microsoft, i))
  }

  /** The success and total counts one settled batch contributes. */
  function BatchCounts(s: Settled): (nat, nat) {
    if s.Fulfilled? then (SuccessCount(s.entries), |s.entries|) else (0, 0)
  }

  /** After a validated send, each destination's counters are those of its own
      batch, a rejected batch leaves 0/0, and a destination that was not
      signed in stays at 0/0. */
  lemma {:induction false} TallyByDestination(auth: AuthState, taskCount: nat, selectedListId: string, settled: seq<Settled>)
    requires SendValidation(auth, taskCount, selectedListId).None?
    requires |settled| == |Dispatched(auth, selectedListId)|
    ensures var c := Tally(settled, auth.isMicrosoftAuthenticated);
            && (auth.isMicrosoftAuthenticated ==> (c.msSuccess, c.msTotal) == BatchCounts(settled[0]))
            && (!auth.isMicrosoftAuthenticated ==> c.msSuccess == 0 && c.msTotal == 0)
            && (auth.isGoogleAuthenticated ==>
                  (c.googleSuccess, c.googleTotal) == BatchCounts(settled[|settled| - 1]))
            && (!auth.isGoogleAuthenticated ==> c.googleSuccess == 0 && c.googleTotal == 0)
  {
    var ms := auth.isMicrosoftAuthenticated;
    if |settled| == 2 {
      TallyOfTwo(settled, ms);
    } else {
      assert settled[..0] == [];
    }
  }

  lemma {:induction false} TallyOfTwo(settled: seq<Settled>, microsoft: bool)
    requires |settled| == 2
    ensures Tally(settled, microsoft)
            == Record(Record(Counts(0, 0, 0, 0), settled[0], DestinationOf(microsoft, 0)), settled[1], DestinationOf(microsoft, 1))
  {
    var first := settled[..1];
    assert first[..0] == [] && first[0] == settled[0];
    assert Tally(first, microsoft) == Record(Counts(0, 0, 0, 0), settled[0], DestinationOf(microsoft, 0));
    assert Tally(settled, microsoft) == Record(Tally(first, microsoft), settled[1], DestinationOf(microsoft, 1));
  }

  /** `allSuccess`: every signed-in destination has as many successes as entries. */
  predicate AllSuccess(auth: AuthState, c: Counts) {
    && (auth.isMicrosoftAuthenticated ==> c.msSuccess == c.msTotal)
    && (auth.isGoogleAuthenticated ==> c.googleSuccess == c.googleTotal)
  }

  /** After a validated send whose batches all settled, the tasks are cleared
      exactly when every entry of every batch was sent. */
  lemma {:induction false} ClearedIffEverySent(auth: AuthState, taskCount: nat, selectedListId: string, settled: seq<Settled>)
    requires SendValidation(auth, taskCount, selectedListId).None?
    requires |settled| == |Dispatched(auth, selectedListId)|
    requires forall i :: 0 <= i < |settled| ==> settled[i].Fulfilled?
    ensures AllSuccess(auth, Tally(settled, auth.isMicrosoftAuthenticated)) <==>
            forall i, j :: 0 <= i < |settled| && 0 <= j < |settled[i].entries| ==> settled[i].entries[j].Sent?
  {
    TallyByDestination(auth, taskCount, selectedListId, settled);
  }

  /** A batch that rejects counts as fully successful (0 of 0). */
  lemma RejectedCountsAsSuccess(reason: string)
    ensures var auth := AuthState(true, false, true);
            AllSuccess(auth, Tally([Rejected(reason)], auth.isMicrosoftAuthenticated))
  {
    assert [Rejected(reason)][..0] == [];
  }

  /** `${success}/${total}` per signed-in destination, Microsoft first. */
  function Messages(auth: AuthState, c: Counts): (m: seq<string>)
    ensures |m| == (if auth.isMicrosoftAuthenticated then 1 else 0) + (if auth.isGoogleAuthenticated then 1 else 0)
    ensures auth.isMicrosoftAuthenticated ==>
              m[0] == "Microsoft: " + NatToString(c.msSuccess) + "/" + NatToString(c.msTotal)
    ensures auth.isGoogleAuthenticated ==>
              m[|m| - 1] == "Google: " + NatToString(c.googleSuccess) + "/" + NatToString(c.googleTotal)
  {
    (if auth.isMicrosoftAuthenticated
     then ["Microsoft: " + NatToString(c.msSuccess) + "/" + NatToString(c.msTotal)] else [])
    + (if auth.isGoogleAuthenticated
       then ["Google: " + NatToString(c.googleSuccess) + "/" + NatToString(c.googleTotal)] else [])
  }

  /** The error shown when not everything was sent. */
  function SummaryMessage(auth: AuthState, c: Counts): string {
    Join(Messages(auth, c), ", ") + " 성공"
  }

  /** The report names each signed-in destination's counts, Microsoft first,
      separated by ", " and followed by " 성공". */
  lemma SummaryMessageShape(auth: AuthState, c: Counts)
    ensures var ms := "Microsoft: " + NatToString(c.msSuccess) + "/" + NatToString(c.msTotal);
            var google := "Google: " + NatToString(c.googleSuccess) + "/" + NatToString(c.googleTotal);
            && (auth.isMicrosoftAuthenticated && auth.isGoogleAuthenticated ==>
                  SummaryMessage(auth, c) == ms + ", " + google + " 성공")
            && (auth.isMicrosoftAuthenticated && !auth.isGoogleAuthenticated ==>
                  SummaryMessage(auth, c) == ms + " 성공")
            && (!auth.isMicrosoftAuthenticated && auth.isGoogleAuthenticated ==>
                  SummaryMessage(auth, c) == google + " 성공")
  {
    var m := Messages(auth, c);
    if |m| == 2 {
      assert m[1..] == [m[1]];
      assert Join(m[1..], ", ") == m[1];
      assert Join(m, ", ") == m[0] + ", " + m[1];
    } else if |m| == 1 {
      assert Join(m, ", ") == m[0];
    }
  }

  /** The report for two of three To Do tasks and all three events. */
  lemma SummaryExample()
    ensures var auth := AuthState(true, true, true);
            var c := Counts(2, 3, 3, 3);
            !AllSuccess(auth, c) && SummaryMessage(auth, c) == "Microsoft: 2/3, Google: 3/3 성공"
  {
    assert NatToString(2) == "2" && NatToString(3) == "3";
  }

  /** The `forEach` over the settled batches with its four mutable counters. */
  method TallyResults(settled: seq<Settled>, microsoft: bool) returns (c: Counts)
    ensures c == Tally(settled, microsoft)
  {
    var msSuccess: nat, msTotal: nat, googleSuccess: nat, googleTotal: nat := 0, 0, 0, 0;
    var index := 0;
    while index < |settled|
      invariant 0 <= index <= |settled|
      invariant Counts(msSuccess, msTotal, googleSuccess, googleTotal) == Tally(settled[..index], microsoft)
    {
      assert settled[..index + 1][..index] == settled[..index];
      var result := settled[index];
      if result.Fulfilled? {
        var successCount := SuccessCount(result.entries);
        var totalCount := |result.entries|;
        if index == 0 && microsoft {
          msSuccess, msTotal := successCount, totalCount;
        } else if (index == 0 && !microsoft) || (index == 1 && microsoft) {
          googleSuccess, googleTotal := successCount, totalCount;
        }
      }
      index := index + 1;
    }
    assert settled[..index] == settled;
    c := Counts(msSuccess, msTotal, googleSuccess, googleTotal);
  }

  /** `entries` are what `createTasksInBatch` gives for `details` on list
      `listId`: one request per task to the list's path with the task's body,
      and each entry the outcome of its own request. */
  predicate TodoBatchOf(listId: string, details: seq<TaskDetails>, post: Todo.GraphPost,
                        requests: seq<Todo.TodoRequest>, entries: seq<BatchResult>) {
    && |requests| == |details| && |entries| == |details|
    && forall j :: 0 <= j < |details| ==>
         && requests[j].path == Todo.TasksPath(listId)
         && Todo.IsTaskBodyFor(details[j], requests[j].body)
         && entries[j] == RecordOutcome(post(j, requests[j]), details[j])
  }

  /** The `promises` of `handleSendToBoth`: the To Do batch when Microsoft is
      signed in with a list selected, then the Calendar batch when Google is
      signed in. Neither batch rejects, so both settle fulfilled. */
  method DispatchBatches(auth: AuthState, selectedListId: string, details: seq<TaskDetails>,
                         post: Todo.GraphPost, env: Calendar.CalendarEnv, tokens: GoogleAuth.GoogleTokenSlot)
    returns (settled: seq<Settled>, requests: seq<Todo.TodoRequest>)
    modifies tokens
    ensures |settled| == |Dispatched(auth, selectedListId)|
    ensures forall i :: 0 <= i < |settled| ==> settled[i].Fulfilled? && |settled[i].entries| == |details|
    ensures auth.isMicrosoftAuthenticated && selectedListId != "" ==>
              TodoBatchOf(selectedListId, details, post, requests, settled[0].entries)
    ensures auth.isGoogleAuthenticated ==>
              Calendar.BatchRun(settled[|settled| - 1].entries, tokens.stored)
              == Calendar.EventsFrom(old(tokens.stored), details, 0, env)
    ensures !auth.isGoogleAuthenticated ==> tokens.stored == old(tokens.stored)
  {
    settled, requests := [], [];
    if auth.isMicrosoftAuthenticated && selectedListId != "" {
      var results;
      results, requests := Todo.CreateTasksInBatch(selectedListId, details, post);
      settled := settled + [Fulfilled(results)];
    }
    if auth.isGoogleAuthenticated {
      var results := Calendar.CreateEventsInBatch(tokens, details, env);
      settled := settled + [Fulfilled(results)];
    }
  }

  // ---------------------------------------------------------------- task list

  /** `handleDeleteTask`: keep the tasks whose id differs, in order. */
  function RemoveById(tasks: seq<AnalyzedTask>, id: string): (r: seq<AnalyzedTask>)
    ensures |r| <= |tasks|
    ensures forall i :: 0 <= i < |r| ==> r[i].id != id
  {
    if tasks == [] then []
    else if tasks[0].id != id then [tasks[0]] + RemoveById(tasks[1..], id)
    else RemoveById(tasks[1..], id)
  }

  /** Exactly the tasks with another id survive. */
  lemma {:induction false} RemoveByIdMembers(tasks: seq<AnalyzedTask>, id: string)
    ensures forall t :: t in RemoveById(tasks, id) <==> t in tasks && t.id != id
  {
    if tasks != [] {
      RemoveByIdMembers(tasks[1..], id);
      assert tasks == [tasks[0]] + tasks[1..];
    }
  }

  /** Removal works piecewise, so the survivors keep their relative order. */
  lemma {:induction false} RemoveByIdAppend(a: seq<AnalyzedTask>, b: seq<AnalyzedTask>, id: string)
    ensures RemoveById(a + b, id) == RemoveById(a, id) + RemoveById(b, id)
  {
    if a == [] {
      assert a + b == b;
    } else {
      var ab := a + b;
      assert ab[0] == a[0] && ab[1..] == a[1..] + b;
      RemoveByIdAppend(a[1..], b, id);
      if a[0].id != id {
        assert RemoveById(ab, id) == [a[0]] + (RemoveById(a[1..], id) + RemoveById(b, id));
        assert RemoveById(a, id) == [a[0]] + RemoveById(a[1..], id);
      } else {
        assert RemoveById(ab, id) == RemoveById(a[1..], id) + RemoveById(b, id);
      }
    }
  }

  /** A list without the id is left as it is; so deleting twice is deleting once. */
  lemma {:induction false} RemoveByIdAbsent(tasks: seq<AnalyzedTask>, id: string)
    requires forall i :: 0 <= i < |tasks| ==> tasks[i].id != id
    ensures RemoveById(tasks, id) == tasks
  {
    if tasks != [] {
      RemoveByIdAbsent(tasks[1..], id);
    }
  }

  lemma RemoveByIdIdempotent(tasks: seq<AnalyzedTask>, id: string)
    ensures RemoveById(RemoveById(tasks, id), id) == RemoveById(tasks, id)
  {
    RemoveByIdAbsent(RemoveById(tasks, id), id);
  }

  /** The items of an analysis, each given the id and timestamp minted for it. */
  function Stamp(items: seq<TaskDetails>, newId: nat -> string, clock: nat -> int): (r: seq<AnalyzedTask>)
    ensures |r| == |items|
    ensures forall i :: 0 <= i < |r| ==> r[i] == AnalyzedTask(items[i], newId(i), clock(i))
  {
    seq(|items|, i requires 0 <= i < |items| => AnalyzedTask(items[i], newId(i), clock(i)))
  }

  /** The task details sent to both destinations. */
  function Details(tasks: seq<AnalyzedTask>): (d: seq<TaskDetails>)
    ensures |d| == |tasks|
    ensures forall i :: 0 <= i < |d| ==> d[i] == tasks[i].details
  {
    seq(|tasks|, i requires 0 <= i < |tasks| => tasks[i].details)
  }

  /** A prepended analysis result is kept in front of the older tasks, and
      deleting one of its tasks leaves the older tasks in place. */
  lemma PrependThenDelete(added: seq<AnalyzedTask>, older: seq<AnalyzedTask>, id: string)
    requires forall i :: 0 <= i < |older| ==> older[i].id != id
    ensures RemoveById(added + older, id) == RemoveById(added, id) + older
  {
    RemoveByIdAppend(added, older, id);
    RemoveByIdAbsent(older, id);
  }

  // ---------------------------------------------------------------- the app

  class AppState {
    var inputText: string
    /** The attachments' data URLs. */
    var attachments: seq<string>
    var status: AnalysisStatus
    var tasks: seq<AnalyzedTask>
    var errorMsg: Option<string>
    var auth: AuthState
    var todoLists: seq<TodoList>
    var selectedListId: string
    var isSending: bool
    const gemini: Gemini.GeminiService
    const googleTokens: GoogleAuth.GoogleTokenSlot

    /** The initial `useState` values. */
    constructor(gemini: Gemini.GeminiService, googleTokens: GoogleAuth.GoogleTokenSlot)
      ensures this.gemini == gemini && this.googleTokens == googleTokens
      ensures inputText == "" && attachments == [] && status == Idle && tasks == []
      ensures errorMsg == None && auth == SignedOut && todoLists == [] && selectedListId == ""
      ensures !isSending
    {
      this.gemini := gemini;
      this.googleTokens := googleTokens;
      inputText := "";
      attachments := [];
      status := Idle;
      tasks := [];
      errorMsg := None;
      auth := SignedOut;
      todoLists := [];
      selectedListId := "";
      isSending := false;
    }

    /** `checkAuth`: Microsoft's silent sign-in outcome is given (a thrown
        error counts as not signed in); Google's is checked against the slot. */
    method CheckAuth(microsoftSignedIn: bool, now: int, userInfo: GoogleAuth.UserInfo)
      modifies this, googleTokens
      ensures var check := GoogleAuth.StoredAccount(old(googleTokens.stored), now, userInfo);
              && googleTokens.stored == check.slot
              && auth == AuthState(microsoftSignedIn || check.account.Some?, microsoftSignedIn, check.account.Some?)
      ensures auth.isAuthenticated <==> auth.isMicrosoftAuthenticated || auth.isGoogleAuthenticated
      ensures tasks == old(tasks) && selectedListId == old(selectedListId) && todoLists == old(todoLists)
      ensures inputText == old(inputText) && attachments == old(attachments) && status == old(status)
      ensures errorMsg == old(errorMsg) && isSending == old(isSending)
    {
      var newAuthState := SignedOut;
      if microsoftSignedIn {
        newAuthState := newAuthState.(isMicrosoftAuthenticated := true);
      }
      var googleAccount := googleTokens.LoginSilently(now, userInfo);
      if googleAccount.Some? {
        newAuthState := newAuthState.(isGoogleAuthenticated := true);
      }
      newAuthState := newAuthState.(isAuthenticated :=
        newAuthState.isMicrosoftAuthenticated || newAuthState.isGoogleAuthenticated);
      auth := newAuthState;
    }

    /** `handleLogout`: signs out of Microsoft (which may throw, and then
        nothing is reset) and of Google, then resets the flags and the lists. */
    method HandleLogout(microsoftLogoutThrows: bool)
      modifies this, googleTokens
      ensures old(auth).isMicrosoftAuthenticated && microsoftLogoutThrows ==>
                auth == old(auth) && todoLists == old(todoLists) && selectedListId == old(selectedListId)
                && googleTokens.stored == old(googleTokens.stored)
      ensures !(old(auth).isMicrosoftAuthenticated && microsoftLogoutThrows) ==>
                && auth == SignedOut && todoLists == [] && selectedListId == ""
                && googleTokens.stored == (if old(auth).isGoogleAuthenticated then None else old(googleTokens.stored))
      ensures tasks == old(tasks) && inputText == old(inputText) && attachments == old(attachments)
      ensures status == old(status) && errorMsg == old(errorMsg) && isSending == old(isSending)
    {
      if auth.isMicrosoftAuthenticated && microsoftLogoutThrows {
        return;
      }
      if auth.isGoogleAuthenticated {
        googleTokens.Logout();
      }
      auth := SignedOut;
      todoLists := [];
      selectedListId := "";
    }

    /** `handleDeleteTask` */
    method HandleDeleteTask(id: string)
      modifies this
      ensures tasks == RemoveById(old(tasks), id)
      ensures inputText == old(inputText) && attachments == old(attachments) && status == old(status)
      ensures errorMsg == old(errorMsg) && auth == old(auth) && selectedListId == old(selectedListId)
      ensures todoLists == old(todoLists) && isSending == old(isSending)
    {
      tasks := RemoveById(tasks, id);
    }

    /** `handleAnalyze`: refuses empty input without calling the model;
        otherwise prepends the analysed tasks, or reports the failure. The
        content sent is inside `generate`; `newId` and `clock` mint each new
        task's id and timestamp. */
    method HandleAnalyze(generate: Gemini.Oracle, newId: nat -> string, clock: nat -> int)
      requires gemini.Valid()
      modifies this, gemini
      ensures gemini.Valid()
      ensures old(inputText) == "" && old(attachments) == [] ==>
                && errorMsg == Some(EmptyInputMessage)
                && inputText == old(inputText) && attachments == old(attachments)
                && tasks == old(tasks) && status == old(status)
                && gemini.currentKeyIndex == old(gemini.currentKeyIndex)
      ensures !(old(inputText) == "" && old(attachments) == []) ==>
                var t := Gemini.Analyze(|gemini.apiKeys|, old(gemini.currentKeyIndex), generate);
                && gemini.currentKeyIndex == t.cursor
                && (t.result.Success? ==>
                      && tasks == Stamp(t.result.value, newId, clock) + old(tasks)
                      && status == Succeeded && errorMsg == None
                      && inputText == "" && attachments == [])
                && (t.result.Failure? ==>
                      && tasks == old(tasks)
                      && status == Errored && errorMsg == Some(AnalyzeFailedMessage)
                      && inputText == old(inputText) && attachments == old(attachments))
      ensures auth == old(auth) && selectedListId == old(selectedListId) && todoLists == old(todoLists)
      ensures isSending == old(isSending)
    {
      if inputText == "" && attachments == [] {
        errorMsg := Some(EmptyInputMessage);
        return;
      }
      status := Analyzing;
      errorMsg := None;
      var result, _, _ := gemini.AnalyzeContent(generate);
      match result {
        case Success(results) =>
          var newTasks := Stamp(results, newId, clock);
          tasks := newTasks + tasks;
          status := Succeeded;
          inputText := "";
          attachments := [];
        case Failure(_) =>
          errorMsg := Some(AnalyzeFailedMessage);
          status := Errored;
      }
    }

    /** `handleSendToBoth`: validate, dispatch the chosen batches (Microsoft
        first), reduce the settled results, then clear the tasks or report. */
    method HandleSendToBoth(post: Todo.GraphPost, env: Calendar.CalendarEnv)
      returns (settled: seq<Settled>, requests: seq<Todo.TodoRequest>)
      modifies this, googleTokens
      ensures auth == old(auth) && selectedListId == old(selectedListId) && todoLists == old(todoLists)
      ensures inputText == old(inputText) && attachments == old(attachments) && status == old(status)
      ensures SendValidation(old(auth), |old(tasks)|, old(selectedListId)).Some? ==> isSending == old(isSending)
      ensures SendValidation(old(auth), |old(tasks)|, old(selectedListId)).None? ==> !isSending
      ensures var check := SendValidation(old(auth), |old(tasks)|, old(selectedListId));
              check.Some? ==>
                && errorMsg == check && tasks == old(tasks) && settled == []
                && googleTokens.stored == old(googleTokens.stored)
      ensures var check := SendValidation(old(auth), |old(tasks)|, old(selectedListId));
              var c := Tally(settled, auth.isMicrosoftAuthenticated);
              var details := Details(old(tasks));
              check.None? ==>
                && |settled| == |Dispatched(auth, selectedListId)|
                && (forall i :: 0 <= i < |settled| ==>
                      settled[i].Fulfilled? && |settled[i].entries| == |details|)
                && (auth.isMicrosoftAuthenticated ==>
                      && selectedListId != ""
                      && TodoBatchOf(selectedListId, details, post, requests, settled[0].entries))
                && (auth.isGoogleAuthenticated ==>
                      Calendar.BatchRun(settled[|settled| - 1].entries, googleTokens.stored)
                      == Calendar.EventsFrom(old(googleTokens.stored), details, 0, env))
                && (!auth.isGoogleAuthenticated ==> googleTokens.stored == old(googleTokens.stored))
                && tasks == (if AllSuccess(auth, c) then [] else old(tasks))
                && errorMsg == (if AllSuccess(auth, c) then None else Some(SummaryMessage(auth, c)))
    {
      settled, requests := [], [];
      var check := SendValidation(auth, |tasks|, selectedListId);
      if check.Some? {
        errorMsg := check;
        return;
      }
      isSending := true;
      errorMsg := None;
      settled, requests := DispatchBatches(auth, selectedListId, Details(tasks), post, env, googleTokens);
      var counts := TallyResults(settled, auth.isMicrosoftAuthenticated);
      if AllSuccess(auth, counts) {
        tasks := [];
      } else {
        errorMsg := Some(SummaryMessage(auth, counts));
      }
      isSending := false;
    }
  }
}
