/** The key-rotating generation client of src/services/geminiService.ts: parsing
    of the comma-separated key list, the module-level rotation cursor, the bounded
    attempt loop of `analyzeContent` and the normalisation of what the model returns.

    The SDK call is an oracle `generate(attempt, keyIndex)`; the request it is sent
    (prompt, images, schema) does not influence the loop and is not modelled. */
module Gemini {
  import opened Types
  import opened Strings

  // ---------------------------------------------------------------- key list

  /** The pieces that are kept: non-empty ones, in their original order. */
  function NonEmpty(xs: seq<string>): (r: seq<string>)
    ensures forall s :: s in r ==> s in xs && s != ""
    ensures (forall i :: 0 <= i < |xs| ==> xs[i] != "") ==> r == xs
  {
    if xs == [] then []
    else if xs[0] == "" then NonEmpty(xs[1..])
    else [xs[0]] + NonEmpty(xs[1..])
  }

  /** One piece is kept exactly when it is non-empty. */
  lemma NonEmptyOne(x: string)
    ensures NonEmpty([x]) == if x == "" then [] else [x]
  {
    assert [x][1..] == [];
  }

  /** The filter works piecewise: together with `NonEmptyOne` this says that
      every non-empty piece is kept, and in order. */
  lemma {:induction false} NonEmptyAppend(a: seq<string>, b: seq<string>)
    ensures NonEmpty(a + b) == NonEmpty(a) + NonEmpty(b)
  {
    if a == [] {
      assert a + b == b;
    } else {
      var ab := a + b;
      assert ab[0] == a[0] && ab[1..] == a[1..] + b;
      var rest := NonEmpty(a[1..]);
      NonEmptyAppend(a[1..], b);
      assert NonEmpty(ab[1..]) == rest + NonEmpty(b);
      if a[0] != "" {
        assert NonEmpty(ab) == [a[0]] + (rest + NonEmpty(b));
        assert [a[0]] + (rest + NonEmpty(b)) == ([a[0]] + rest) + NonEmpty(b);
      }
    }
  }

  /** Every piece trimmed, in order. */
  function TrimAll(pieces: seq<string>): (r: seq<string>)
    ensures |r| == |pieces|
  {
    seq(|pieces|, i requires 0 <= i < |pieces| => Trim(pieces[i]))
  }

  lemma TrimKeepsCharacters(s: string, c: char)
    requires c !in s
    ensures c !in Trim(s)
  {
    var r := Trim(s);
    var i :| IsTrimOf(r, s, i);
    forall k | 0 <= k < |r| ensures r[k] != c {
      assert r[k] == s[i + k];
    }
  }

  /** The text `getApiKeys` reads: a missing variable reads as "". */
  function RawKeys(env: Option<string>): string {
    if env.Some? then env.value else ""
  }

  /** `getApiKeys`: the environment variable (missing reads as ""), split on
      commas, every piece trimmed, empty pieces dropped. */
  function ParseApiKeys(env: Option<string>): (keys: seq<string>)
    ensures forall k :: k in keys ==> k != "" && IsTrimmed(k) && ',' !in k
  {
    var pieces := Split(RawKeys(env), ',');
    TrimAllKeepsCharacters(pieces, ',');
    NonEmpty(TrimAll(pieces))
  }

  lemma TrimAllKeepsCharacters(pieces: seq<string>, c: char)
    requires forall i :: 0 <= i < |pieces| ==> c !in pieces[i]
    ensures forall k :: k in TrimAll(pieces) ==> c !in k
  {
    forall i | 0 <= i < |pieces| ensures c !in Trim(pieces[i]) {
      TrimKeepsCharacters(pieces[i], c);
    }
  }

  /** A missing variable gives no keys. */
  lemma NoVariableNoKeys()
    ensures ParseApiKeys(None) == []
  {
    ParseApiKeysOfPiece("");
    assert RawKeys(None) == RawKeys(Some(""));
  }

  /** A text without a comma is one key, trimmed, unless it is blank. */
  lemma ParseApiKeysOfPiece(raw: string)
    requires ',' !in raw
    ensures ParseApiKeys(Some(raw)) == if Trim(raw) == "" then [] else [Trim(raw)]
  {
    SplitNoSeparator(raw, ',');
    assert TrimAll([raw]) == [Trim(raw)];
    NonEmptyOne(Trim(raw));
  }

  /** Parsing works piece by piece: the keys of `a,b` are the keys of `a`
      followed by the keys of `b`. With `ParseApiKeysOfPiece` this gives the
      keys of any text: its trimmed non-blank comma-separated pieces, in order. */
  lemma ParseApiKeysAppend(a: string, b: string)
    ensures ParseApiKeys(Some(a + "," + b)) == ParseApiKeys(Some(a)) + ParseApiKeys(Some(b))
  {
    SplitAppend(a, b, ',');
    var pa, pb := Split(a, ','), Split(b, ',');
    assert TrimAll(pa + pb) == TrimAll(pa) + TrimAll(pb);
    NonEmptyAppend(TrimAll(pa), TrimAll(pb));
  }

  /** One space before a trimmed text is trimmed away. */
  lemma TrimLeadingSpace(k: string)
    requires k != "" && IsTrimmed(k)
    ensures Trim(" " + k) == k
  {
    var s := " " + k;
    assert s[1..] == k;
    assert LeadingWhitespace(s) == 1 + LeadingWhitespace(k);
    assert LeadingWhitespace(k) == 0;
    assert TrailingWhitespace(k) == 0;
  }

  /** The usual way of writing two keys, with a space after the comma. */
  lemma TwoKeysWithSpace(k1: string, k2: string)
    requires k1 != "" && IsTrimmed(k1) && ',' !in k1
    requires k2 != "" && IsTrimmed(k2) && ',' !in k2
    ensures ParseApiKeys(Some(k1 + ", " + k2)) == [k1, k2]
  {
    var rest := " " + k2;
    assert ',' !in rest;
    assert k1 + "," + rest == k1 + ", " + k2;
    assert ParseApiKeys(Some(k1)) == [k1] by {
      ParseApiKeysOfPiece(k1);
    }
    assert ParseApiKeys(Some(rest)) == [k2] by {
      ParseApiKeysOfPiece(rest);
      TrimLeadingSpace(k2);
    }
    ParseApiKeysAppend(k1, rest);
  }

  /** Writing keys out comma-separated and parsing them again gives the same
      keys in the same order. */
  lemma {:induction false} ParseApiKeysOfJoined(keys: seq<string>)
    requires |keys| >= 1
    requires forall i :: 0 <= i < |keys| ==> keys[i] != "" && IsTrimmed(keys[i]) && ',' !in keys[i]
    ensures ParseApiKeys(Some(Join(keys, ","))) == keys
  {
    SplitJoin(keys, ',');
    assert TrimAll(keys) == keys;
  }

  // ---------------------------------------------------------------- cursor

  /** The cursor invariant: an index into the key list, or 0 when it is empty. */
  predicate CursorInRange(n: nat, cursor: nat) {
    if n == 0 then cursor == 0 else cursor < n
  }

  // ---------------------------------------------------------------- responses

  /** What the model is asked for, one item of the returned JSON array. An
      `importance` of "" reads as missing, like an absent one. */
  datatype RawTaskItem = RawTaskItem(
    title: string,
    body: string,
    dueDateTime: Option<string>,
    importance: Option<Importance>,
    reminderDateTime: Option<string>,
    categories: Option<seq<string>>)

  /** The fields of a thrown SDK error that the loop looks at. A missing message
      reads as "". `retryInSeconds` is the number in a "Please retry in <n>s"
      message, when there is one. */
  datatype CallError = CallError(
    status: Option<int>,
    code: Option<int>,
    message: string,
    retryInSeconds: Option<nat>)

  /** One generation call: the parsed items, a response without text, or a
      thrown error (a JSON parse failure is one of these). */
  datatype Response = Generated(items: seq<RawTaskItem>) | NoText | Failed(error: CallError)

  /** The error thrown for a response without text. */
  const NoDataError: CallError := CallError(None, None, "Gemini로부터 데이터를 받지 못했습니다", None)

  function ErrorOf(r: Response): CallError
    requires !r.Generated?
  {
    if r.NoText? then NoDataError else r.error
  }

  /** Quota-class failure: status or code 429, or a message naming the quota. */
  predicate IsQuotaExceeded(e: CallError) {
    || e.status == Some(429)
    || e.code == Some(429)
    || Contains(e.message, "quota")
    || Contains(e.message, "RESOURCE_EXHAUSTED")
  }

  /** Overload-class failure: status or code 503, or a message saying so. */
  predicate IsOverloaded(e: CallError) {
    || e.status == Some(503)
    || e.code == Some(503)
    || Contains(e.message, "overloaded")
    || Contains(e.message, "UNAVAILABLE")
  }

  /** One returned item as a `TaskDetails`, with the defaults applied. */
  function NormalizeItem(item: RawTaskItem): (t: TaskDetails)
    ensures t.title == item.title && t.body == item.body
    ensures t.dueDateTime.Some? <==> Truthy(item.dueDateTime)
    ensures t.dueDateTime.Some? ==> t.dueDateTime == item.dueDateTime
    ensures t.reminderDateTime.Some? <==> Truthy(item.reminderDateTime)
    ensures t.reminderDateTime.Some? ==> t.reminderDateTime == item.reminderDateTime
    ensures item.importance.Some? ==> t.importance == item.importance.value
    ensures item.importance.None? ==> t.importance == Normal
    ensures item.categories.Some? ==> t.categories == item.categories
    ensures item.categories.None? ==> t.categories == Some([])
  {
    TaskDetails(
      item.title,
      item.body,
      if Truthy(item.dueDateTime) then item.dueDateTime else None,
      if item.importance.Some? then item.importance.value else Normal,
      if Truthy(item.reminderDateTime) then item.reminderDateTime else None,
      Some(if item.categories.Some? then item.categories.value else []))
  }

  /** The item a normalised task would be returned as. */
  function AsRawItem(t: TaskDetails): RawTaskItem {
    RawTaskItem(t.title, t.body, t.dueDateTime, Some(t.importance), t.reminderDateTime, t.categories)
  }

  /** Normalisation is idempotent: a normalised task passes through unchanged. */
  lemma NormalizeIdempotent(item: RawTaskItem)
    ensures NormalizeItem(AsRawItem(NormalizeItem(item))) == NormalizeItem(item)
  {
  }

  /** The `map` over the returned array: same length, same order. */
  function NormalizeItems(items: seq<RawTaskItem>): (r: seq<TaskDetails>)
    ensures |r| == |items|
    ensures forall i :: 0 <= i < |items| ==> r[i] == NormalizeItem(items[i])
  {
    if items == [] then [] else [NormalizeItem(items[0])] + NormalizeItems(items[1..])
  }

  // ---------------------------------------------------------------- policy

  /** `Math.max(apiKeys.length, 3)` */
  function MaxRetries(n: nat): nat {
    if n > 3 then n else 3
  }

  /** The attempt budget is the larger of the number of keys and 3. */
  lemma MaxRetriesIsMax(n: nat)
    ensures n <= MaxRetries(n) && 3 <= MaxRetries(n)
    ensures MaxRetries(n) == n || MaxRetries(n) == 3
  {
  }

  function Pow2(k: nat): nat {
    if k == 0 then 1 else 2 * Pow2(k - 1)
  }

  /** The wait before retrying an overloaded call made at `attempt`. */
  function BackoffMs(attempt: nat): nat {
    Pow2(attempt) * 1000
  }

  /** The first wait is one second and each later one doubles the one before:
      1 s, 2 s, 4 s, ... */
  lemma BackoffDoubles(attempt: nat)
    ensures BackoffMs(0) == 1000
    ensures BackoffMs(attempt + 1) == 2 * BackoffMs(attempt)
  {
  }

  /** The wait before retrying with a freshly chosen key. */
  const QuotaSwitchDelayMs: nat := 500

  /** Seconds suggested to the caller when the error names none. */
  const DefaultRetrySeconds: nat := 30

  /** `retryAfter` of the quota error: the suggested seconds in milliseconds,
      30 seconds when the message suggests none. */
  function RetryAfterMs(e: CallError): (d: nat)
    ensures e.retryInSeconds.None? ==> d == 30000
    ensures e.retryInSeconds.Some? ==> d == e.retryInSeconds.value * 1000
  {
    (if e.retryInSeconds.Some? then e.retryInSeconds.value else DefaultRetrySeconds) * 1000
  }

  /** The `i`-th index the cyclic scan looks at, starting after `current`. */
  function Probe(n: nat, current: nat, i: nat): nat
    requires n > 0
  {
    (current + i + 1) % n
  }

  lemma MulBounds(q: int, n: nat)
    requires n > 0
    ensures q * n > 0 ==> q > 0
    ensures q * n < 2 * n ==> q < 2
  {
    if q <= 0 {
      assert q * n <= 0;
    }
    if q >= 2 {
      assert q * n >= 2 * n;
    }
  }

  lemma ModWrap(a: nat, n: nat)
    requires 0 < n <= a < 2 * n
    ensures a % n == a - n
  {
    var q, r := a / n, a % n;
    assert q * n == a - r && 0 <= r < n;
    MulBounds(q, n);
  }

  lemma ProbeCovers(n: nat, current: nat, k: nat)
    requires current < n && k < n
    ensures Probe(n, current, if k > current then k - current - 1 else k + n - current - 1) == k
  {
    if k <= current {
      ModWrap(k + n, n);
    }
  }

  function ScanFrom(n: nat, current: nat, tried: set<nat>, i: nat): (r: Option<nat>)
    requires n > 0
    decreases n - i
    ensures r.Some? ==> r.value < n && r.value !in tried
    ensures r.None? ==> forall j :: i <= j < n ==> Probe(n, current, j) in tried
  {
    if i >= n then None
    else if Probe(n, current, i) !in tried then Some(Probe(n, current, i))
    else ScanFrom(n, current, tried, i + 1)
  }

  /** The first index not yet tried, scanning cyclically from `current + 1`. */
  function NextUntried(n: nat, current: nat, tried: set<nat>): (r: Option<nat>)
    requires current < n
    ensures r.Some? ==> r.value < n && r.value !in tried
    ensures r.None? <==> forall k :: 0 <= k < n ==> k in tried
  {
    var r := ScanFrom(n, current, tried, 0);
    ScanCoversAll(n, current, tried);
    r
  }

  lemma ScanCoversAll(n: nat, current: nat, tried: set<nat>)
    requires current < n
    ensures ScanFrom(n, current, tried, 0).None? ==> forall k :: 0 <= k < n ==> k in tried
  {
    if ScanFrom(n, current, tried, 0).None? {
      forall k | 0 <= k < n ensures k in tried {
        ProbeCovers(n, current, k);
      }
    }
  }

  lemma {:induction false} ScanFromIsFirst(n: nat, current: nat, tried: set<nat>, i: nat)
    requires n > 0
    decreases n - i
    ensures var r := ScanFrom(n, current, tried, i);
            r.Some? ==> exists j :: i <= j < n && r.value == Probe(n, current, j)
                                   && forall m :: i <= m < j ==> Probe(n, current, m) in tried
  {
    if i < n && Probe(n, current, i) in tried {
      ScanFromIsFirst(n, current, tried, i + 1);
    }
  }

  /** The key chosen after a quota failure is the first untried one in cyclic
      order after `current`: every index the scan passed over was tried. */
  lemma NextUntriedIsFirst(n: nat, current: nat, tried: set<nat>)
    requires current < n
    ensures var r := NextUntried(n, current, tried);
            r.Some? ==> exists j :: 0 <= j < n && r.value == Probe(n, current, j)
                                   && forall m :: 0 <= m < j ==> Probe(n, current, m) in tried
  {
    ScanFromIsFirst(n, current, tried, 0);
  }

  datatype AnalyzeError = NoApiKeys | QuotaExceeded(retryAfterMs: nat) | Rethrown(error: CallError) | AnalysisFailed

  /** A run of `analyzeContent`: what it resolves or rejects with, the global
      cursor afterwards, the key index used by each attempt and the waits made. */
  datatype Trace = Trace(
    result: Result<seq<TaskDetails>, AnalyzeError>,
    cursor: nat,
    keysUsed: seq<nat>,
    delays: seq<nat>)

  function Prepend(keys: seq<nat>, delays: seq<nat>, t: Trace): Trace {
    t.(keysUsed := keys + t.keysUsed, delays := delays + t.delays)
  }

  type Oracle = (nat, nat) -> Response

  /** What one iteration of the attempt loop does: end the call, or go on to the
      next attempt with key `next`, global cursor `cursor`, after waiting `delay`. */
  datatype Step = Finish(trace: Trace) | Retry(next: nat, cursor: nat, delay: nat, error: CallError)

  /** The retry policy for the call made at `attempt` with key `current`, when
      `tried` are the keys tried so far (`current` included): a success is never
      retried; a quota-class failure, even one that also reads as overload, moves
      to the first untried key after `current`, which is fresh, after the short
      fixed wait; any other retried failure is an overload, retried with the same
      key after the exponential wait. */
  predicate RetryFollowsPolicy(n: nat, generate: Oracle, attempt: nat, current: nat, tried: set<nat>,
                               next: nat, delay: nat)
    requires current < n
  {
    var response := generate(attempt, current);
    && !response.Generated?
    && if IsQuotaExceeded(ErrorOf(response)) then
         && Some(next) == NextUntried(n, current, tried)
         && next !in tried
         && delay == QuotaSwitchDelayMs
       else
         && IsOverloaded(ErrorOf(response))
         && next == current
         && delay == BackoffMs(attempt)
  }

  /** When the policy calls for another attempt after the call at `attempt`
      with key `current`, `tried` being the keys tried so far (`current`
      included): after a quota-class failure when some key is still untried,
      and after any other failure that reads as overload while the attempt is
      not the last one allowed. */
  predicate RetryDue(n: nat, generate: Oracle, attempt: nat, current: nat, tried: set<nat>)
    requires current < n
  {
    var response := generate(attempt, current);
    && !response.Generated?
    && if IsQuotaExceeded(ErrorOf(response)) then NextUntried(n, current, tried).Some?
       else IsOverloaded(ErrorOf(response)) && attempt + 1 < MaxRetries(n)
  }

  /** One iteration of the loop: the call at `attempt` with key `current`. */
  function StepOf(n: nat, generate: Oracle, attempt: nat, current: nat, tried: set<nat>, cursor: nat): (s: Step)
    requires current < n
    ensures s.Retry? ==> s.next < n && (s.cursor == s.next || s.cursor == cursor)
    ensures s.Finish? ==> s.trace.keysUsed == [current] && s.trace.delays == [] && s.trace.result != Failure(NoApiKeys)
  {
    var tried' := tried + {current};
    var response := generate(attempt, current);
    if response.Generated? then
      Finish(Trace(Success(NormalizeItems(response.items)), (current + 1) % n, [current], []))
    else
      var error := ErrorOf(response);
      if IsQuotaExceeded(error) then
        var next := if n > 1 then NextUntried(n, current, tried') else None;
        if next.Some? then Retry(next.value, next.value, QuotaSwitchDelayMs, error)
        else Finish(Trace(Failure(QuotaExceeded(RetryAfterMs(error))), cursor, [current], []))
      else if IsOverloaded(error) && attempt < MaxRetries(n) - 1 then
        Retry(current, cursor, BackoffMs(attempt), error)
      else
        Finish(Trace(Failure(Rethrown(error)), cursor, [current], []))
  }

  /** An iteration goes on exactly when the policy calls for a retry, and then
      it does so as the policy says, remembering this call's error. */
  lemma RetryStepPolicy(n: nat, generate: Oracle, attempt: nat, current: nat, tried: set<nat>, cursor: nat)
    requires current < n
    ensures var s := StepOf(n, generate, attempt, current, tried, cursor);
            && (s.Retry? <==> RetryDue(n, generate, attempt, current, tried + {current}))
            && (s.Retry? ==> && RetryFollowsPolicy(n, generate, attempt, current, tried + {current}, s.next, s.delay)
                             && s.error == ErrorOf(generate(attempt, current)))
  {
    var tried' := tried + {current};
    if n == 1 {
      assert NextUntried(n, current, tried').None?;
    }
  }

  /** An iteration that ends the call: a success carries the normalised items of
      this call and moves the cursor past its key; a failure leaves the cursor; a
      quota failure is reported only once every key has been tried, with the
      delay the error suggests; any other failure that ends the call is
      rethrown as this call's own error; the fallback error is never produced
      here. An answer always ends the call. */
  lemma FinishStepOutcome(n: nat, generate: Oracle, attempt: nat, current: nat, tried: set<nat>, cursor: nat)
    requires current < n
    ensures var s := StepOf(n, generate, attempt, current, tried, cursor);
            var response := generate(attempt, current);
            s.Finish? ==>
              && s.trace.result != Failure(AnalysisFailed)
              && (s.trace.result.Success? ==>
                    && response.Generated?
                    && s.trace.result.value == NormalizeItems(response.items)
                    && s.trace.cursor == (current + 1) % n)
              && (s.trace.result.Failure? ==> s.trace.cursor == cursor && !response.Generated?)
              && (s.trace.result.Failure? ==>
                    s.trace.result.error == if IsQuotaExceeded(ErrorOf(response))
                                            then QuotaExceeded(RetryAfterMs(ErrorOf(response)))
                                            else Rethrown(ErrorOf(response)))
              && (s.trace.result.Failure? && s.trace.result.error.QuotaExceeded? ==>
                    && IsQuotaExceeded(ErrorOf(response))
                    && s.trace.result.error.retryAfterMs == RetryAfterMs(ErrorOf(response))
                    && forall k :: 0 <= k < n ==> k in tried + {current})
    ensures var response := generate(attempt, current);
            response.Generated? ==>
              StepOf(n, generate, attempt, current, tried, cursor)
              == Finish(Trace(Success(NormalizeItems(response.items)), (current + 1) % n, [current], []))
  {
  }

  /** The attempt loop from iteration `attempt` on: `current` is the key index of
      this attempt, `tried` the indices tried before it, `cursor` the global
      cursor; when the iterations run out, the last error is rethrown. */
  function Attempts(n: nat, generate: Oracle, attempt: nat, current: nat, tried: set<nat>,
                    cursor: nat, lastError: Option<CallError>): (t: Trace)
    requires current < n
    decreases MaxRetries(n) - attempt, 1
    ensures t.result != Failure(NoApiKeys)
    ensures attempt < MaxRetries(n) ==> t.keysUsed != [] && t.keysUsed[0] == current
    ensures attempt >= MaxRetries(n) && lastError.Some? ==> t.result == Failure(Rethrown(lastError.value))
  {
    if attempt >= MaxRetries(n) then
      Trace(Failure(if lastError.Some? then Rethrown(lastError.value) else AnalysisFailed), cursor, [], [])
    else
      Continue(n, generate, attempt, current, tried, cursor)
  }

  /** An iteration that is run: its step, then the iterations after it. */
  function Continue(n: nat, generate: Oracle, attempt: nat, current: nat, tried: set<nat>, cursor: nat): (t: Trace)
    requires current < n && attempt < MaxRetries(n)
    decreases MaxRetries(n) - attempt, 0
    ensures t.result != Failure(NoApiKeys)
    ensures t.keysUsed != [] && t.keysUsed[0] == current
  {
    match StepOf(n, generate, attempt, current, tried, cursor)
    case Finish(t) => t
    case Retry(next, cursor', delay, error) =>
      Prepend([current], [delay], Attempts(n, generate, attempt + 1, next, tried + {current}, cursor', Some(error)))
  }

  /** `analyzeContent` as a whole, from the global cursor `cursor`: with no keys
      it rejects before any call; otherwise the loop starts at the cursor. */
  function Analyze(n: nat, cursor: nat, generate: Oracle): (t: Trace)
    requires CursorInRange(n, cursor)
    ensures t.keysUsed == [] <==> n == 0
    ensures t.result == Failure(NoApiKeys) <==> n == 0
  {
    if n == 0 then Trace(Failure(NoApiKeys), cursor, [], [])
    else Attempts(n, generate, 0, cursor, {}, cursor, None)
  }

  /** One iteration of the attempt loop, read through its step. */
  lemma AttemptsStep(n: nat, generate: Oracle, attempt: nat, current: nat, tried: set<nat>,
                     cursor: nat, lastError: Option<CallError>)
    requires current < n && attempt < MaxRetries(n)
    ensures var s := StepOf(n, generate, attempt, current, tried, cursor);
            var t := Attempts(n, generate, attempt, current, tried, cursor, lastError);
            && (s.Finish? ==> t == s.trace)
            && (s.Retry? ==> t == Prepend([current], [s.delay],
                                          Attempts(n, generate, attempt + 1, s.next, tried + {current}, s.cursor, Some(s.error))))
  {
    assert Attempts(n, generate, attempt, current, tried, cursor, lastError)
        == Continue(n, generate, attempt, current, tried, cursor);
  }

  /** The same, after the attempts and waits `keys` and `delays` already made. */
  lemma AttemptsUnfold(n: nat, generate: Oracle, attempt: nat, current: nat, tried: set<nat>,
                       cursor: nat, lastError: Option<CallError>, keys: seq<nat>, delays: seq<nat>)
    requires current < n && attempt < MaxRetries(n)
    ensures var s := StepOf(n, generate, attempt, current, tried, cursor);
            var t := Prepend(keys, delays, Attempts(n, generate, attempt, current, tried, cursor, lastError));
            && (s.Finish? ==> t == Trace(s.trace.result, s.trace.cursor, keys + [current], delays))
            && (s.Retry? ==> t == Prepend(keys + [current], delays + [s.delay],
                                          Attempts(n, generate, attempt + 1, s.next, tried + {current}, s.cursor, Some(s.error))))
  {
    AttemptsStep(n, generate, attempt, current, tried, cursor, lastError);
    var s := StepOf(n, generate, attempt, current, tried, cursor);
    if s.Retry? {
      PrependTwice(keys, delays, [current], [s.delay],
                   Attempts(n, generate, attempt + 1, s.next, tried + {current}, s.cursor, Some(s.error)));
    } else {
      assert delays + s.trace.delays == delays;
    }
  }

  lemma PrependTwice(keys: seq<nat>, delays: seq<nat>, keys': seq<nat>, delays': seq<nat>, t: Trace)
    ensures Prepend(keys, delays, Prepend(keys', delays', t)) == Prepend(keys + keys', delays + delays', t)
  {
    assert keys + (keys' + t.keysUsed) == (keys + keys') + t.keysUsed;
    assert delays + (delays' + t.delays) == (delays + delays') + t.delays;
  }

  // ---------------------------------------------------------------- lemmas

  lemma {:induction false} CardinalityBound(s: set<nat>, n: nat)
    requires forall k :: k in s ==> k < n
    ensures |s| <= n
  {
    if n == 0 {
      assert s == {};
    } else {
      CardinalityBound(s - {n - 1}, n - 1);
    }
  }

  lemma {:induction false} RangeCardinality(s: set<nat>, n: nat)
    requires forall k :: 0 <= k < n ==> k in s
    ensures |s| >= n
  {
    if n > 0 {
      RangeCardinality(s - {n - 1}, n - 1);
    }
  }

  lemma {:induction false} AttemptsKeepCursorInRange(n: nat, generate: Oracle, attempt: nat, current: nat,
                                                     tried: set<nat>, cursor: nat, lastError: Option<CallError>)
    requires current < n && cursor < n
    ensures Attempts(n, generate, attempt, current, tried, cursor, lastError).cursor < n
    decreases MaxRetries(n) - attempt
  {
    if attempt < MaxRetries(n) {
      var s := StepOf(n, generate, attempt, current, tried, cursor);
      AttemptsStep(n, generate, attempt, current, tried, cursor, lastError);
      if s.Retry? {
        AttemptsKeepCursorInRange(n, generate, attempt + 1, s.next, tried + {current}, s.cursor, Some(s.error));
      }
    }
  }

  /** Whatever the generation calls return, the global cursor stays in range. */
  lemma AnalyzeKeepsCursorInRange(n: nat, cursor: nat, generate: Oracle)
    requires CursorInRange(n, cursor)
    ensures CursorInRange(n, Analyze(n, cursor, generate).cursor)
  {
    if n > 0 {
      AttemptsKeepCursorInRange(n, generate, 0, cursor, {}, cursor, None);
    }
  }

  lemma {:induction false} AttemptsBounded(n: nat, generate: Oracle, attempt: nat, current: nat,
                                           tried: set<nat>, cursor: nat, lastError: Option<CallError>)
    requires current < n
    ensures attempt <= MaxRetries(n) ==>
      |Attempts(n, generate, attempt, current, tried, cursor, lastError).keysUsed| <= MaxRetries(n) - attempt
    decreases MaxRetries(n) - attempt
  {
    if attempt < MaxRetries(n) {
      var s := StepOf(n, generate, attempt, current, tried, cursor);
      AttemptsStep(n, generate, attempt, current, tried, cursor, lastError);
      if s.Retry? {
        AttemptsBounded(n, generate, attempt + 1, s.next, tried + {current}, s.cursor, Some(s.error));
      }
    }
  }

  /** At most max(n, 3) generation calls are made per `analyzeContent`. */
  lemma AnalyzeAttemptsBounded(n: nat, cursor: nat, generate: Oracle)
    requires CursorInRange(n, cursor)
    ensures |Analyze(n, cursor, generate).keysUsed| <= MaxRetries(n)
  {
    if n > 0 {
      AttemptsBounded(n, generate, 0, cursor, {}, cursor, None);
    }
  }

  /** The attempts of a run, from attempt `attempt` on with `tried` the keys used
      before it, follow the retry policy: every key index is in range and each
      attempt that is followed by another one led to it as the policy says; the
      last attempt, unless it used up the attempts allowed, was one the policy
      does not retry. */
  predicate FollowsPolicy(n: nat, generate: Oracle, attempt: nat, tried: set<nat>, keys: seq<nat>, delays: seq<nat>)
    decreases |keys|
  {
    |keys| >= 1 ==>
      && keys[0] < n
      && (|keys| == 1 && attempt + 1 < MaxRetries(n) ==> !RetryDue(n, generate, attempt, keys[0], tried + {keys[0]}))
      && (|keys| >= 2 ==>
            && |delays| >= 1
            && RetryFollowsPolicy(n, generate, attempt, keys[0], tried + {keys[0]}, keys[1], delays[0])
            && FollowsPolicy(n, generate, attempt + 1, tried + {keys[0]}, keys[1..], delays[1..]))
  }

  lemma {:induction false} AttemptsFollowPolicy(n: nat, generate: Oracle, attempt: nat, current: nat,
                                                tried: set<nat>, cursor: nat, lastError: Option<CallError>)
    requires current < n
    ensures var t := Attempts(n, generate, attempt, current, tried, cursor, lastError);
            FollowsPolicy(n, generate, attempt, tried, t.keysUsed, t.delays)
    decreases MaxRetries(n) - attempt
  {
    if attempt < MaxRetries(n) {
      var s := StepOf(n, generate, attempt, current, tried, cursor);
      AttemptsStep(n, generate, attempt, current, tried, cursor, lastError);
      if s.Retry? {
        var t := Attempts(n, generate, attempt, current, tried, cursor, lastError);
        var rest := Attempts(n, generate, attempt + 1, s.next, tried + {current}, s.cursor, Some(s.error));
        AttemptsFollowPolicy(n, generate, attempt + 1, s.next, tried + {current}, s.cursor, Some(s.error));
        RetryStepPolicy(n, generate, attempt, current, tried, cursor);
        assert t.keysUsed[1..] == rest.keysUsed && t.delays[1..] == rest.delays;
      }
    }
  }

  /** Every retry in a run of `analyzeContent` follows the policy, the run does
      not stop while the policy calls for a retry and attempts remain, and every
      key index used is in range. */
  lemma AnalyzeFollowsPolicy(n: nat, cursor: nat, generate: Oracle)
    requires CursorInRange(n, cursor)
    ensures var t := Analyze(n, cursor, generate);
            FollowsPolicy(n, generate, 0, {}, t.keysUsed, t.delays)
  {
    if n > 0 {
      AttemptsFollowPolicy(n, generate, 0, cursor, {}, cursor, None);
    }
  }

  /** How the attempts from `attempt` on end, read from the last one: they
      succeed only with the items of that call, after which the cursor points
      past its key; they fail with `QuotaExceeded` only after a quota-class
      failure once every key has been tried (before `attempt` or since),
      carrying that failure's suggested delay; they fail with `Rethrown` only
      with the error of the last call, and a last call that failed with an
      error outside the quota class is always rethrown; the fallback "analysis
      failed" error is never reached. */
  predicate EndsAsDescribed(n: nat, generate: Oracle, attempt: nat, tried: set<nat>, t: Trace)
    requires n > 0 && t.keysUsed != []
  {
    var lastKey := t.keysUsed[|t.keysUsed| - 1];
    var response := generate(attempt + |t.keysUsed| - 1, lastKey);
    && t.result != Failure(AnalysisFailed)
    && (t.result.Success? ==>
          && response.Generated?
          && t.result.value == NormalizeItems(response.items)
          && t.cursor == (lastKey + 1) % n)
    && (t.result.Failure? && t.result.error.QuotaExceeded? ==>
          && !response.Generated?
          && IsQuotaExceeded(ErrorOf(response))
          && t.result.error.retryAfterMs == RetryAfterMs(ErrorOf(response))
          && (forall k :: 0 <= k < n ==> k in tried || k in t.keysUsed))
    && (response.Generated? ==> t.result == Success(NormalizeItems(response.items)))
    && (t.result.Failure? && t.result.error.Rethrown? ==>
          !response.Generated? && t.result.error.error == ErrorOf(response))
    && (!response.Generated? && !IsQuotaExceeded(ErrorOf(response)) ==>
          t.result == Failure(Rethrown(ErrorOf(response))))
  }

  lemma FinishEnds(n: nat, generate: Oracle, attempt: nat, current: nat, tried: set<nat>, cursor: nat)
    requires current < n
    requires StepOf(n, generate, attempt, current, tried, cursor).Finish?
    ensures EndsAsDescribed(n, generate, attempt, tried, StepOf(n, generate, attempt, current, tried, cursor).trace)
  {
    var t := StepOf(n, generate, attempt, current, tried, cursor).trace;
    FinishStepOutcome(n, generate, attempt, current, tried, cursor);
    assert t.keysUsed == [current];
    if t.result.Failure? && t.result.error.QuotaExceeded? {
      forall k | 0 <= k < n ensures k in tried || k in t.keysUsed {
        assert k in tried + {current};
      }
    }
  }

  lemma RetryEnds(n: nat, generate: Oracle, attempt: nat, current: nat, tried: set<nat>, rest: Trace, delay: nat)
    requires n > 0 && rest.keysUsed != []
    requires EndsAsDescribed(n, generate, attempt + 1, tried + {current}, rest)
    ensures EndsAsDescribed(n, generate, attempt, tried, Prepend([current], [delay], rest))
  {
    var t := Prepend([current], [delay], rest);
    assert t.keysUsed[|t.keysUsed| - 1] == rest.keysUsed[|rest.keysUsed| - 1];
    if t.result.Failure? && t.result.error.QuotaExceeded? {
      forall k | 0 <= k < n ensures k in tried || k in t.keysUsed {
        if k !in tried && k !in rest.keysUsed {
          assert k == current;
        }
      }
    }
  }

  lemma {:induction false} AttemptsEnd(n: nat, generate: Oracle, attempt: nat, current: nat,
                                       tried: set<nat>, cursor: nat, lastError: Option<CallError>)
    requires current < n
    requires attempt < MaxRetries(n)
    ensures EndsAsDescribed(n, generate, attempt, tried, Attempts(n, generate, attempt, current, tried, cursor, lastError))
    decreases MaxRetries(n) - attempt
  {
    var s := StepOf(n, generate, attempt, current, tried, cursor);
    AttemptsStep(n, generate, attempt, current, tried, cursor, lastError);
    if s.Finish? {
      FinishEnds(n, generate, attempt, current, tried, cursor);
    } else if attempt + 1 < MaxRetries(n) {
      AttemptsEnd(n, generate, attempt + 1, s.next, tried + {current}, s.cursor, Some(s.error));
      RetryEnds(n, generate, attempt, current, tried,
                Attempts(n, generate, attempt + 1, s.next, tried + {current}, s.cursor, Some(s.error)), s.delay);
    }
  }

  /** The outcome of `analyzeContent` as described by `EndsAsDescribed`. */
  lemma AnalyzeEnds(n: nat, cursor: nat, generate: Oracle)
    requires CursorInRange(n, cursor) && n > 0
    ensures EndsAsDescribed(n, generate, 0, {}, Analyze(n, cursor, generate))
  {
    AttemptsEnd(n, generate, 0, cursor, {}, cursor, None);
  }

  /** A first call that fails with an error outside the quota class and not
      reading as overload ends the call at once: that very error is rethrown,
      the cursor stays and no wait is made. */
  lemma OtherErrorRethrownAtOnce(n: nat, cursor: nat, generate: Oracle, e: CallError)
    requires CursorInRange(n, cursor) && n > 0
    requires generate(0, cursor) == Failed(e) && !IsQuotaExceeded(e) && !IsOverloaded(e)
    ensures Analyze(n, cursor, generate) == Trace(Failure(Rethrown(e)), cursor, [cursor], [])
  {
    AttemptsStep(n, generate, 0, cursor, {}, cursor, None);
  }

  /** An overloaded first call is retried with the same key after one second;
      when that second call answers, its items are the result and the cursor
      moves past the key. */
  lemma OverloadIsRetried(n: nat, cursor: nat, generate: Oracle, e: CallError, items: seq<RawTaskItem>)
    requires CursorInRange(n, cursor) && n > 0
    requires generate(0, cursor) == Failed(e) && !IsQuotaExceeded(e) && IsOverloaded(e)
    requires generate(1, cursor) == Generated(items)
    ensures Analyze(n, cursor, generate)
            == Trace(Success(NormalizeItems(items)), (cursor + 1) % n, [cursor, cursor], [1000])
  {
    MaxRetriesIsMax(n);
    BackoffDoubles(0);
    AttemptsStep(n, generate, 0, cursor, {}, cursor, None);
    AttemptsStep(n, generate, 1, cursor, {cursor}, cursor, Some(e));
  }

  /** A quota-class failure from every call. */
  ghost predicate AlwaysQuotaExceeded(generate: Oracle) {
    forall a: nat, k: nat :: !generate(a, k).Generated? && IsQuotaExceeded(ErrorOf(generate(a, k)))
  }

  lemma {:induction false} AllQuotaAttempts(n: nat, generate: Oracle, attempt: nat, current: nat,
                                            tried: set<nat>, cursor: nat, lastError: Option<CallError>)
    requires current < n && current !in tried
    requires forall k :: k in tried ==> k < n
    requires |tried| == attempt
    requires AlwaysQuotaExceeded(generate)
    ensures var t := Attempts(n, generate, attempt, current, tried, cursor, lastError);
            t.result.Failure? && t.result.error.QuotaExceeded? && |t.keysUsed| == n - attempt
    decreases n - attempt
  {
    var tried' := tried + {current};
    assert |tried'| == attempt + 1;
    CardinalityBound(tried', n);
    var response := generate(attempt, current);
    assert !response.Generated? && IsQuotaExceeded(ErrorOf(response));
    var s := StepOf(n, generate, attempt, current, tried, cursor);
    AttemptsStep(n, generate, attempt, current, tried, cursor, lastError);
    if s.Retry? {
      CardinalityBound(tried' + {s.next}, n);
      AllQuotaAttempts(n, generate, attempt + 1, s.next, tried', s.cursor, Some(s.error));
    } else {
      RangeCardinality(tried', n);
    }
  }

  /** When every key is over its quota, the call fails with `QuotaExceeded`
      after exactly one attempt per key. */
  lemma AllKeysOverQuota(n: nat, cursor: nat, generate: Oracle)
    requires CursorInRange(n, cursor) && n > 0
    requires AlwaysQuotaExceeded(generate)
    ensures var t := Analyze(n, cursor, generate);
            && t.result.Failure? && t.result.error.QuotaExceeded?
            && |t.keysUsed| == n
            && forall k :: 0 <= k < n ==> k in t.keysUsed
  {
    AllQuotaAttempts(n, generate, 0, cursor, {}, cursor, None);
    AnalyzeEnds(n, cursor, generate);
  }

  /** Every key but `good` is over its quota; `good` answers with `items`. */
  ghost predicate OnlyKeyAnswers(generate: Oracle, good: nat, items: seq<RawTaskItem>) {
    forall a: nat, k: nat ::
      if k == good then generate(a, k) == Generated(items)
      else !generate(a, k).Generated? && IsQuotaExceeded(ErrorOf(generate(a, k)))
  }

  lemma {:induction false} OnlyKeyAttempts(n: nat, generate: Oracle, good: nat, items: seq<RawTaskItem>,
                                           attempt: nat, current: nat, tried: set<nat>, cursor: nat,
                                           lastError: Option<CallError>)
    requires current < n && current !in tried && good < n && good !in tried
    requires forall k :: k in tried ==> k < n
    requires |tried| == attempt
    requires OnlyKeyAnswers(generate, good, items)
    ensures var t := Attempts(n, generate, attempt, current, tried, cursor, lastError);
            && t.result == Success(NormalizeItems(items))
            && t.cursor == (good + 1) % n
            && |t.keysUsed| <= n - attempt
            && t.keysUsed[|t.keysUsed| - 1] == good
    decreases n - attempt
  {
    var tried' := tried + {current};
    CardinalityBound(tried', n);
    var response := generate(attempt, current);
    var s := StepOf(n, generate, attempt, current, tried, cursor);
    AttemptsStep(n, generate, attempt, current, tried, cursor, lastError);
    if current != good {
      assert !response.Generated? && IsQuotaExceeded(ErrorOf(response));
      assert good !in tried';
      assert s.Retry?;
      CardinalityBound(tried' + {s.next}, n);
      OnlyKeyAttempts(n, generate, good, items, attempt + 1, s.next, tried', s.cursor, Some(s.error));
    } else {
      assert response == Generated(items);
    }
  }

  /** Keys over quota are skipped until the one that answers, which then
      supplies the result; at most one attempt per key is made. */
  lemma FirstAnsweringKeyWins(n: nat, cursor: nat, generate: Oracle, good: nat, items: seq<RawTaskItem>)
    requires CursorInRange(n, cursor) && good < n
    requires OnlyKeyAnswers(generate, good, items)
    ensures var t := Analyze(n, cursor, generate);
            && t.result == Success(NormalizeItems(items))
            && t.cursor == (good + 1) % n
            && 1 <= |t.keysUsed| <= n
            && t.keysUsed[|t.keysUsed| - 1] == good
  {
    OnlyKeyAttempts(n, generate, good, items, 0, cursor, {}, cursor, None);
  }

  /** The scan for the next untried key: -1 when every key has been tried. */
  method FindNextUntried(n: nat, current: nat, tried: set<nat>) returns (next: int)
    requires current < n
    ensures next == -1 <==> NextUntried(n, current, tried) == None
    ensures next != -1 ==> 0 <= next && NextUntried(n, current, tried) == Some(next)
  {
    next := -1;
    var i := 0;
    while i < n
      invariant 0 <= i <= n
      invariant NextUntried(n, current, tried) == ScanFrom(n, current, tried, i)
    {
      var checkIndex := (current + i + 1) % n;
      if checkIndex !in tried {
        next := checkIndex;
        return;
      }
      i := i + 1;
    }
  }

  /** One pass of the loop body of `analyzeContent`: the call with key `current`
      and, when it fails, the choice between giving up and retrying. */
  method AttemptOnce(n: nat, generate: Oracle, attempt: nat, current: nat, tried: set<nat>, cursor: nat)
    returns (step: Step)
    requires current < n
    ensures step == StepOf(n, generate, attempt, current, tried, cursor)
  {
    var triedKeys := tried + {current};
    var response := generate(attempt, current);
    if response.Generated? {
      return Finish(Trace(Success(NormalizeItems(response.items)), (current + 1) % n, [current], []));
    }
    var error := ErrorOf(response);
    if IsQuotaExceeded(error) {
      var nextKeyIndex := -1;
      if n > 1 {
        nextKeyIndex := FindNextUntried(n, current, triedKeys);
      }
      if nextKeyIndex != -1 {
        return Retry(nextKeyIndex, nextKeyIndex, QuotaSwitchDelayMs, error);
      }
      return Finish(Trace(Failure(QuotaExceeded(RetryAfterMs(error))), cursor, [current], []));
    }
    if IsOverloaded(error) && attempt < MaxRetries(n) - 1 {
      return Retry(current, cursor, BackoffMs(attempt), error);
    }
    return Finish(Trace(Failure(Rethrown(error)), cursor, [current], []));
  }

  // ---------------------------------------------------------------- the service

  /** The module state of geminiService.ts: the key list read once at load time
      and the rotation cursor `currentKeyIndex`. */
  class GeminiService {
    const apiKeys: seq<string>
    var currentKeyIndex: nat

    ghost predicate Valid()
      reads this
    {
      CursorInRange(|apiKeys|, currentKeyIndex)
    }

    constructor (env: Option<string>)
      ensures apiKeys == ParseApiKeys(env) && currentKeyIndex == 0
      ensures Valid()
    {
      apiKeys := ParseApiKeys(env);
      currentKeyIndex := 0;
    }

    /** `getCurrentApiKey` */
    method GetCurrentApiKey() returns (r: Result<string, AnalyzeError>)
      requires Valid()
      ensures r.Success? <==> apiKeys != []
      ensures r.Success? ==> r.value == apiKeys[currentKeyIndex]
      ensures r.Failure? ==> r.error == NoApiKeys
    {
      if |apiKeys| == 0 {
        return Failure(NoApiKeys);
      }
      return Success(apiKeys[currentKeyIndex]);
    }

    /** `switchToNextApiKey` */
    method SwitchToNextApiKey() returns (switched: bool)
      requires Valid()
      modifies this
      ensures Valid()
      ensures switched <==> |apiKeys| >= 2
      ensures currentKeyIndex == if switched then (old(currentKeyIndex) + 1) % |apiKeys| else old(currentKeyIndex)
    {
      if |apiKeys| <= 1 {
        return false;
      }
      currentKeyIndex := (currentKeyIndex + 1) % |apiKeys|;
      return true;
    }

    /** `analyzeContent`: the attempt loop. Returns what the call resolves or
        rejects with, the key index used by each attempt and the waits made. */
    method AnalyzeContent(generate: Oracle)
      returns (result: Result<seq<TaskDetails>, AnalyzeError>, keysUsed: seq<nat>, delays: seq<nat>)
      requires Valid()
      modifies this
      ensures Valid()
      ensures Trace(result, currentKeyIndex, keysUsed, delays) == Analyze(|apiKeys|, old(currentKeyIndex), generate)
    {
      var n := |apiKeys|;
      var maxRetries := if n > 3 then n else 3;
      var lastError: Option<CallError> := None;
      var currentAttemptKeyIndex: nat := currentKeyIndex;
      var triedKeys: set<nat> := {};
      keysUsed, delays := [], [];

      if n == 0 {
        return Failure(NoApiKeys), keysUsed, delays;
      }

      ghost var goal := Analyze(n, currentKeyIndex, generate);
      var attempt: nat := 0;
      while attempt < maxRetries
        invariant maxRetries == MaxRetries(n) && attempt <= maxRetries
        invariant currentAttemptKeyIndex < n && currentKeyIndex < n
        invariant goal == Prepend(keysUsed, delays,
                             Attempts(n, generate, attempt, currentAttemptKeyIndex, triedKeys, currentKeyIndex, lastError))
        decreases maxRetries - attempt
      {
        var current := currentAttemptKeyIndex;
        AttemptsUnfold(n, generate, attempt, current, triedKeys, currentKeyIndex, lastError, keysUsed, delays);
        var step := AttemptOnce(n, generate, attempt, current, triedKeys, currentKeyIndex);
        triedKeys := triedKeys + {current};
        keysUsed := keysUsed + [current];
        match step
        case Finish(t) =>
          currentKeyIndex := t.cursor;
          result := t.result;
          return;
        case Retry(next, cursor, delay, error) =>
          assert goal == Prepend(keysUsed, delays + [delay],
                                 Attempts(n, generate, attempt + 1, next, triedKeys, cursor, Some(error)));
          currentAttemptKeyIndex := next;
          currentKeyIndex := cursor;
          delays := delays + [delay];
          lastError := Some(error);
          attempt := attempt + 1;
      }
      result := Failure(if lastError.Some? then Rethrown(lastError.value) else AnalysisFailed);
    }
  }
}
