/**
 * Chat tasks: the records the chat endpoint creates and the background worker
 * updates while it retrieves context and generates an answer, the rule by which a
 * finished task expires when it is looked up, and the newest-first listing.
 *
 * Times are microseconds on the server's clock (`datetime.now()`); the ISO strings
 * the server stores order the same way as the instants they denote.
 */
module ChatTasks {
  import opened Options
  import PyText

  datatype TaskStatus = Processing | Retrieving | Generating | Completed | Failed

  predicate Terminal(s: TaskStatus) {
    s == Completed || s == Failed
  }

  /** The status changes the worker makes. The demo mode (no retrieval stack) answers
      straight from `retrieving`; any unfinished task can fail. */
  predicate Advances(a: TaskStatus, b: TaskStatus) {
    || (a == Processing && b == Retrieving)
    || (a == Retrieving && b == Generating)
    || (a == Retrieving && b == Completed)
    || (a == Generating && b == Completed)
    || (!Terminal(a) && b == Failed)
  }

  /** How far along a status is. */
  function Rank(s: TaskStatus): nat {
    match s
    case Processing => 0
    case Retrieving => 1
    case Generating => 2
    case Completed => 3
    case Failed => 3
  }

  /** A sequence of statuses in which each one follows from the one before. */
  predicate Lifecycle(trace: seq<TaskStatus>) {
    forall i :: 0 <= i < |trace| - 1 ==> Advances(trace[i], trace[i + 1])
  }

  /** Along a lifecycle a task only moves forward: no status comes back, and a
      finished status can only be the last one. */
  lemma {:induction false} LifecycleMovesForward(trace: seq<TaskStatus>, i: nat, j: nat)
    requires Lifecycle(trace) && i < j < |trace|
    ensures Rank(trace[i]) < Rank(trace[j])
    ensures !Terminal(trace[i])
    decreases j - i
  {
    assert Advances(trace[i], trace[i + 1]);
    if i + 1 < j {
      LifecycleMovesForward(trace, i + 1, j);
    }
  }

  /** A message of the chat request. */
  datatype ChatMessage = ChatMessage(role: string, content: string)

  /** The position of the last "user" message among the first n, or -1. */
  function LastUserBefore(messages: seq<ChatMessage>, n: nat): (k: int)
    requires n <= |messages|
    ensures -1 <= k < n
    ensures 0 <= k ==> messages[k].role == "user"
    ensures forall j :: k < j < n ==> messages[j].role != "user"
  {
    if n == 0 then -1
    else if messages[n - 1].role == "user" then n - 1
    else LastUserBefore(messages, n - 1)
  }

  /** The content of the last message whose role is "user", if any. */
  function LastUserQuestion(messages: seq<ChatMessage>): (r: Option<string>)
    ensures r.None? <==> forall i :: 0 <= i < |messages| ==> messages[i].role != "user"
    ensures r.Some? ==> exists i :: 0 <= i < |messages| && messages[i].role == "user" && messages[i].content == r.value
                                    && forall j :: i < j < |messages| ==> messages[j].role != "user"
  {
    var k := LastUserBefore(messages, |messages|);
    if k < 0 then None else Some(messages[k].content)
  }

  /** The human-readable progress note a task carries; its wording is not modelled. */
  datatype TaskMessage =
    | Searching          // retrieval is running
    | Composing          // generation is running
    | Answered           // the chain produced the answer
    | AnsweredInDemo     // the built-in demo answer was used
    | ProcessingFailed(error: string) // retrieval or generation raised
    | SystemError(error: string)      // the worker itself raised

  /** The OpenAI-style completion stored with a finished task. */
  datatype Completion = Completion(
    id: string,
    created: int,
    model: string,
    content: string,
    promptTokens: nat,
    completionTokens: nat,
    totalTokens: nat)

  datatype ChatTask = ChatTask(
    status: TaskStatus,
    result: Option<Completion>,
    createdAt: Option<int>,
    question: Option<string>,
    message: Option<TaskMessage>,
    completedAt: Option<int>,
    failedAt: Option<int>,
    error: Option<string>)

  /** The record a chat request creates. */
  function NewTask(question: string, now: int): (t: ChatTask)
    ensures t.status == Processing && t.question == Some(question) && t.createdAt == Some(now)
    ensures t.result.None? && t.message.None? && t.completedAt.None? && t.failedAt.None? && t.error.None?
  {
    ChatTask(Processing, None, Some(now), Some(question), None, None, None, None)
  }

  // ---------------------------------------------------------------------------
  // The completion record
  // ---------------------------------------------------------------------------

  /** `len(s.split())`: the number of maximal runs of non-whitespace characters. */
  function WordCount(s: string): (n: nat)
    ensures n <= |s|
  {
    if s == [] then 0
    else
      var starts := !PyText.IsSpace(s[|s| - 1]) && (|s| == 1 || PyText.IsSpace(s[|s| - 2]));
      WordCount(s[..|s| - 1]) + (if starts then 1 else 0)
  }

  /** A text has no words exactly when it is all whitespace. */
  lemma {:induction false} NoWordsIffBlank(s: string)
    ensures WordCount(s) == 0 <==> PyText.AllSpace(s)
  {
    if s != [] {
      var init := s[..|s| - 1];
      NoWordsIffBlank(init);
      assert forall i :: 0 <= i < |init| ==> init[i] == s[i];
      if !PyText.IsSpace(s[|s| - 1]) && !PyText.AllSpace(init) {
        // some earlier character is a word character, so some word has started
        WordsUntil(s, |s| - 1);
      }
    }
  }

  /** A text whose last character is not whitespace has at least one word. */
  lemma {:induction false} WordsUntil(s: string, k: nat)
    requires k < |s| && !PyText.IsSpace(s[k])
    ensures WordCount(s[..k + 1]) >= 1
  {
    var p := s[..k + 1];
    assert p[..|p| - 1] == s[..k];
    if k > 0 && !PyText.IsSpace(s[k - 1]) {
      WordsUntil(s, k - 1);
      assert s[..k + 1][..k] == s[..k];
    }
  }

  /** `int(datetime.now().timestamp())`: seconds, truncated toward zero. */
  function Seconds(micros: int): int {
    if micros >= 0 then micros / 1_000_000 else -((-micros) / 1_000_000)
  }

  /** The completion the worker stores for an answer. */
  function MakeCompletion(taskId: string, model: string, question: string, answer: string, now: int): (c: Completion)
    ensures c.id == "chatcmpl-" + PyText.Take(taskId, 10)
    ensures c.model == model && c.content == answer && c.created == Seconds(now)
    ensures c.promptTokens == WordCount(question) && c.completionTokens == WordCount(answer)
    ensures c.totalTokens == c.promptTokens + c.completionTokens
  {
    var p, q := WordCount(question), WordCount(answer);
    Completion("chatcmpl-" + PyText.Take(taskId, 10), Seconds(now), model, answer, p, q, p + q)
  }

  // ---------------------------------------------------------------------------
  // The background worker
  // ---------------------------------------------------------------------------

  /** What the retrieval stack does with a question: the retriever raises, the chain
      raises, or the chain answers. */
  datatype RagRun = RetrievalFails(error: string) | GenerationFails(error: string) | Answers(text: string)

  /** `str(KeyError(task_id))`: the key, quoted. */
  function KeyErrorText(taskId: string): string {
    "'" + taskId + "'"
  }

  /** The statuses a task passes through while the worker runs: retrieval and then
      generation with the retrieval stack, straight to the answer in demo mode, and
      failed at once when the task is not there. */
  function Trace(present: bool, ragAvailable: bool, run: RagRun): (trace: seq<TaskStatus>)
    ensures |trace| >= 1 && Lifecycle(trace) && Terminal(trace[|trace| - 1])
    ensures present ==> trace[0] == Retrieving && Lifecycle([Processing] + trace)
    ensures !present ==> trace == [Failed]
    ensures present && ragAvailable && run.Answers? ==> trace == [Retrieving, Generating, Completed]
  {
    if !present then [Failed]
    else if !ragAvailable then [Retrieving, Completed]
    else match run
      case RetrievalFails(_) => [Retrieving, Failed]
      case GenerationFails(_) => [Retrieving, Generating, Failed]
      case Answers(_) => [Retrieving, Generating, Completed]
  }

  /** The record the worker leaves behind. A finished record keeps the creation time
      and the question of the record it replaces; it is completed with the answer (or
      the demo answer) or failed with the error, stamped with the time it ended. A
      task that is not there comes back as a bare failed record. */
  function Finish(prior: Option<ChatTask>, taskId: string, question: string, model: string,
                  ragAvailable: bool, run: RagRun, demoAnswer: string, now: int): (t: ChatTask)
    ensures t.status == Trace(prior.Some?, ragAvailable, run)[|Trace(prior.Some?, ragAvailable, run)| - 1]
    ensures prior.Some? ==> t.createdAt == prior.value.createdAt && t.question == prior.value.question
    ensures t.status == Completed ==> t.completedAt == Some(now) && t.result.Some?
                                      && t.result.value.content == (if ragAvailable then run.text else demoAnswer)
    ensures t.status == Failed ==> t.failedAt == Some(now) && t.error.Some?
    ensures prior.None? ==> t.createdAt.None? && t.question.None? && t.error == Some(KeyErrorText(taskId))
  {
    match prior
    case None =>
      var e := KeyErrorText(taskId);
      ChatTask(Failed, None, None, None, Some(SystemError(e)), None, Some(now), Some(e))
    case Some(p) =>
      if !ragAvailable then
        p.(status := Completed, message := Some(AnsweredInDemo),
           result := Some(MakeCompletion(taskId, model, question, demoAnswer, now)), completedAt := Some(now))
      else match run
        case Answers(text) =>
          p.(status := Completed, message := Some(Answered),
             result := Some(MakeCompletion(taskId, model, question, text, now)), completedAt := Some(now))
        case RetrievalFails(e) =>
          p.(status := Failed, message := Some(ProcessingFailed(e)), error := Some(e), failedAt := Some(now))
        case GenerationFails(e) =>
          p.(status := Failed, message := Some(ProcessingFailed(e)), error := Some(e), failedAt := Some(now))
  }

  // ---------------------------------------------------------------------------
  // Expiry on lookup
  // ---------------------------------------------------------------------------

  /** One hour in microseconds. */
  const OneHour: int := 3_600_000_000

  /** When a task finished: `completed_at or failed_at`. */
  function FinishedAt(t: ChatTask): (r: Option<int>)
    ensures r.Some? <==> t.completedAt.Some? || t.failedAt.Some?
    ensures t.completedAt.Some? ==> r == t.completedAt
  {
    if t.completedAt.Some? then t.completedAt else t.failedAt
  }

  /** A lookup drops the task and reports it expired: the task is finished, records
      when, and strictly more than one hour has passed since. */
  predicate Expired(t: ChatTask, now: int) {
    Terminal(t.status) && FinishedAt(t).Some? && now - FinishedAt(t).value > OneHour
  }

  /** Expiry is never undone by waiting longer. */
  lemma ExpiredStaysExpired(t: ChatTask, now: int, later: int)
    requires Expired(t, now) && now <= later
    ensures Expired(t, later)
  {
  }

  /** A task that finished at instant f is kept through f + one hour inclusive and
      expires at every later instant; an unfinished task never expires. */
  lemma ExpiryBoundary(t: ChatTask, now: int)
    ensures !Terminal(t.status) ==> !Expired(t, now)
    ensures Terminal(t.status) && t.completedAt.Some? ==> (Expired(t, now) <==> now > t.completedAt.value + OneHour)
    ensures Terminal(t.status) && t.completedAt.None? && t.failedAt.Some? ==> (Expired(t, now) <==> now > t.failedAt.value + OneHour)
  {
  }

  // ---------------------------------------------------------------------------
  // The newest-first listing
  // ---------------------------------------------------------------------------

  /** The sort key `created_at`, a missing one sorting as the empty string, below every
      time. */
  predicate KeyAtLeast(a: Option<int>, b: Option<int>) {
    b.None? || (a.Some? && a.value >= b.value)
  }

  lemma KeyTotal(a: Option<int>, b: Option<int>, c: Option<int>)
    ensures KeyAtLeast(a, b) || KeyAtLeast(b, a)
    ensures KeyAtLeast(a, b) && KeyAtLeast(b, c) ==> KeyAtLeast(a, c)
  {
  }

  type Entry = (string, ChatTask)

  ghost predicate NewestFirst(s: seq<Entry>) {
    forall i, j :: 0 <= i < j < |s| ==> KeyAtLeast(s[i].1.createdAt, s[j].1.createdAt)
  }

  /** Insert x after every entry whose key is at least its own, so that among equal
      keys earlier entries stay first. */
  function InsertNewestFirst(x: Entry, s: seq<Entry>): (r: seq<Entry>)
    requires NewestFirst(s)
    ensures NewestFirst(r)
    ensures multiset(r) == multiset(s) + multiset{x}
    ensures |r| == |s| + 1
  {
    if s == [] then [x]
    else if KeyAtLeast(s[0].1.createdAt, x.1.createdAt) then
      var rest := InsertNewestFirst(x, s[1..]);
      assert s == [s[0]] + s[1..];
      HeadBeforeInserted(x, s, rest);
      ConsNewestFirst(s[0], rest);
      [s[0]] + rest
    else
      forall k | 0 <= k < |s| ensures KeyAtLeast(x.1.createdAt, s[k].1.createdAt) {
        KeyTotal(x.1.createdAt, s[0].1.createdAt, s[k].1.createdAt);
      }
      ConsNewestFirst(x, s);
      [x] + s
  }

  /** An entry at least as new as every entry of a newest-first list can go in front. */
  lemma ConsNewestFirst(h: Entry, t: seq<Entry>)
    requires NewestFirst(t)
    requires forall k :: 0 <= k < |t| ==> KeyAtLeast(h.1.createdAt, t[k].1.createdAt)
    ensures NewestFirst([h] + t)
  {
    var r := [h] + t;
    forall i, j | 0 <= i < j < |r| ensures KeyAtLeast(r[i].1.createdAt, r[j].1.createdAt) {
      assert r[j] == t[j - 1];
      if i > 0 {
        assert r[i] == t[i - 1];
      }
    }
  }

  /** The head of a newest-first list is at least as new as every entry of its tail
      with x inserted, when it is at least as new as x. */
  lemma HeadBeforeInserted(x: Entry, s: seq<Entry>, rest: seq<Entry>)
    requires NewestFirst(s) && s != [] && KeyAtLeast(s[0].1.createdAt, x.1.createdAt)
    requires multiset(rest) == multiset(s[1..]) + multiset{x}
    ensures forall k :: 0 <= k < |rest| ==> KeyAtLeast(s[0].1.createdAt, rest[k].1.createdAt)
  {
    forall k | 0 <= k < |rest| ensures KeyAtLeast(s[0].1.createdAt, rest[k].1.createdAt) {
      assert rest[k] in multiset(rest);
      if rest[k] != x {
        assert rest[k] in multiset(s[1..]);
        var j :| 0 <= j < |s[1..]| && s[1..][j] == rest[k];
        assert s[j + 1] == rest[k];
      }
    }
  }

  /** `sorted(items, key=created_at, reverse=True)`: newest first, a stable sort. */
  function SortNewestFirst(s: seq<Entry>): (r: seq<Entry>)
    ensures NewestFirst(r)
    ensures multiset(r) == multiset(s)
    ensures |r| == |s|
  {
    if s == [] then []
    else
      assert s == s[..|s| - 1] + [s[|s| - 1]];
      InsertNewestFirst(s[|s| - 1], SortNewestFirst(s[..|s| - 1]))
  }

  /** The entries of s whose `created_at` is k, in their order in s. */
  function WithKey(s: seq<Entry>, k: Option<int>): (r: seq<Entry>)
    ensures |r| <= |s|
  {
    if s == [] then []
    else if s[0].1.createdAt == k then [s[0]] + WithKey(s[1..], k)
    else WithKey(s[1..], k)
  }

  lemma {:induction false} WithKeyAppend(a: seq<Entry>, b: seq<Entry>, k: Option<int>)
    ensures WithKey(a + b, k) == WithKey(a, k) + WithKey(b, k)
  {
    if a == [] {
      assert a + b == b;
    } else {
      var ab := a + b;
      assert ab[0] == a[0] && ab[1..] == a[1..] + b;
      WithKeyAppend(a[1..], b, k);
      if a[0].1.createdAt == k {
        assert WithKey(ab, k) == [a[0]] + (WithKey(a[1..], k) + WithKey(b, k));
      } else {
        assert WithKey(ab, k) == WithKey(a[1..], k) + WithKey(b, k);
      }
    }
  }

  lemma {:induction false} WithKeyNone(s: seq<Entry>, k: Option<int>)
    requires forall j :: 0 <= j < |s| ==> s[j].1.createdAt != k
    ensures WithKey(s, k) == []
  {
    if s != [] {
      WithKeyNone(s[1..], k);
    }
  }

  /** Inserting x keeps the entries of each key in order, x coming after the entries
      of its own key. */
  lemma {:induction false} InsertKeepsKeyOrder(x: Entry, t: seq<Entry>, k: Option<int>)
    requires NewestFirst(t)
    ensures WithKey(InsertNewestFirst(x, t), k) == WithKey(t, k) + WithKey([x], k)
    decreases |t|
  {
    if t == [] {
      assert InsertNewestFirst(x, t) == [x];
    } else if KeyAtLeast(t[0].1.createdAt, x.1.createdAt) {
      InsertBehindHead(x, t, k);
    } else {
      InsertInFront(x, t, k);
    }
  }

  /** x goes behind the head of t, which is at least as new. */
  lemma {:induction false} InsertBehindHead(x: Entry, t: seq<Entry>, k: Option<int>)
    requires NewestFirst(t) && t != [] && KeyAtLeast(t[0].1.createdAt, x.1.createdAt)
    ensures WithKey(InsertNewestFirst(x, t), k) == WithKey(t, k) + WithKey([x], k)
    decreases |t|, 0
  {
    var h, rest := t[0], InsertNewestFirst(x, t[1..]);
    assert InsertNewestFirst(x, t) == [h] + rest;
    InsertKeepsKeyOrder(x, t[1..], k);
    WithKeyAppend([h], rest, k);
    WithKeyAppend([h], t[1..], k);
    assert t == [h] + t[1..];
    Associative(WithKey([h], k), WithKey(t[1..], k), WithKey([x], k));
  }

  /** x goes in front of t, all of whose entries are older. */
  lemma InsertInFront(x: Entry, t: seq<Entry>, k: Option<int>)
    requires NewestFirst(t) && t != [] && !KeyAtLeast(t[0].1.createdAt, x.1.createdAt)
    ensures WithKey(InsertNewestFirst(x, t), k) == WithKey(t, k) + WithKey([x], k)
  {
    assert InsertNewestFirst(x, t) == [x] + t;
    WithKeyAppend([x], t, k);
    if x.1.createdAt == k {
      forall j | 0 <= j < |t| ensures t[j].1.createdAt != k {
        if j > 0 {
          assert KeyAtLeast(t[0].1.createdAt, t[j].1.createdAt);
        }
      }
      WithKeyNone(t, k);
    } else {
      WithKeyNone([x], k);
    }
  }

  lemma Associative(a: seq<Entry>, b: seq<Entry>, c: seq<Entry>)
    ensures a + (b + c) == (a + b) + c
  {
  }

  /** The sort is stable, as Python's `sorted` is also with `reverse=True`: entries with
      equal `created_at` keep their input order, which decides the ones `[:limit]`
      keeps among ties. */
  lemma {:induction false} SortKeepsKeyOrder(s: seq<Entry>, k: Option<int>)
    ensures WithKey(SortNewestFirst(s), k) == WithKey(s, k)
  {
    if s != [] {
      var init, last := s[..|s| - 1], s[|s| - 1];
      var sortedInit := SortNewestFirst(init);
      assert SortNewestFirst(s) == InsertNewestFirst(last, sortedInit);
      InsertKeepsKeyOrder(last, sortedInit, k);
      SortKeepsKeyOrder(init, k);
      WithKeyAppend(init, [last], k);
      SplitLast(s);
    }
  }

  lemma SplitLast(s: seq<Entry>)
    requires s != []
    ensures s == s[..|s| - 1] + [s[|s| - 1]]
  {
  }

  /** One line of the listing. */
  datatype TaskSummary = TaskSummary(
    taskId: string,
    status: TaskStatus,
    question: string,
    createdAt: Option<int>,
    message: Option<TaskMessage>)

  /** The question as listed: longer than 50 characters, its first 50 and "...". */
  function Preview(q: string): (r: string)
    ensures |q| <= 50 ==> r == q
    ensures |q| > 50 ==> |r| == 53 && r[..50] == q[..50] && r[50..] == "..."
  {
    if |q| > 50 then q[..50] + "..." else q
  }

  function Summarize(e: Entry): (s: TaskSummary)
    ensures s.taskId == e.0 && s.status == e.1.status && s.createdAt == e.1.createdAt && s.message == e.1.message
    ensures s.question == Preview(e.1.question.GetOr(""))
  {
    TaskSummary(e.0, e.1.status, Preview(e.1.question.GetOr("")), e.1.createdAt, e.1.message)
  }

  /** One summary per entry, in order. */
  function Summaries(s: seq<Entry>): (r: seq<TaskSummary>)
    ensures |r| == |s|
    ensures forall i :: 0 <= i < |s| ==> r[i] == Summarize(s[i])
  {
    seq(|s|, i requires 0 <= i < |s| => Summarize(s[i]))
  }

  /** The task lines `list_chat_tasks` returns: the entries sorted newest first, cut
      to `[:limit]`, each summarized. */
  function Listing(items: seq<Entry>, limit: int): seq<TaskSummary> {
    Summaries(PyText.Slice(SortNewestFirst(items), 0, limit))
  }

  /** The listing is the summaries of the newest min(limit, n) entries, newest first;
      a negative limit drops that many from the end, as `[:limit]` does. */
  lemma ListingPrefix(items: seq<Entry>, limit: int)
    ensures var sorted := SortNewestFirst(items);
      Listing(items, limit) == Summaries(sorted[..PyText.SliceIndex(limit, |items|)])
    ensures 0 <= limit ==> |Listing(items, limit)| == if limit <= |items| then limit else |items|
  {
    PyText.SliceFromStart(SortNewestFirst(items), limit);
  }

  /** The lines are listed newest first. */
  lemma ListingNewestFirst(items: seq<Entry>, limit: int)
    ensures var r := Listing(items, limit);
      forall i, j :: 0 <= i < j < |r| ==> KeyAtLeast(r[i].createdAt, r[j].createdAt)
  {
    ListingPrefix(items, limit);
  }

  /** Every line is the summary of one of the entries. */
  lemma ListingFromEntries(items: seq<Entry>, limit: int)
    ensures var r := Listing(items, limit);
      forall i :: 0 <= i < |r| ==> r[i] in Summaries(items)
  {
    ListingPrefix(items, limit);
    var sorted := SortNewestFirst(items);
    var shown := sorted[..PyText.SliceIndex(limit, |items|)];
    var r := Listing(items, limit);
    forall i | 0 <= i < |r| ensures r[i] in Summaries(items) {
      assert shown[i] == sorted[i];
      assert sorted[i] in multiset(sorted);
      assert shown[i] in multiset(items);
      var j :| 0 <= j < |items| && items[j] == shown[i];
      assert Summaries(items)[j] == r[i];
    }
  }

  /** With a limit of at least the number of entries, every entry is listed. */
  lemma ListingComplete(items: seq<Entry>, limit: int)
    requires limit >= |items|
    ensures forall e :: e in items ==> Summarize(e) in Listing(items, limit)
  {
    ListingPrefix(items, limit);
    var sorted := SortNewestFirst(items);
    assert sorted[..|items|] == sorted;
    forall e | e in items ensures Summarize(e) in Summaries(sorted) {
      assert e in multiset(sorted) by {
        assert e in multiset(items);
      }
      SummariesCover(sorted, e);
    }
  }

  /** Every entry of s has its summary among the summaries of s. */
  lemma SummariesCover(s: seq<Entry>, e: Entry)
    requires e in s
    ensures Summarize(e) in Summaries(s)
  {
    var j :| 0 <= j < |s| && s[j] == e;
    assert Summaries(s)[j] == Summarize(e);
  }

  /** What the task listing promises, together: its length, its order, that every line
      comes from an entry and that a large enough limit lists every entry. */
  lemma ListingFacts(items: seq<Entry>, limit: int)
    ensures 0 <= limit ==> |Listing(items, limit)| == if limit <= |items| then limit else |items|
    ensures var r := Listing(items, limit);
      forall i, j :: 0 <= i < j < |r| ==> KeyAtLeast(r[i].createdAt, r[j].createdAt)
    ensures var r := Listing(items, limit);
      forall i :: 0 <= i < |r| ==> r[i] in Summaries(items)
    ensures limit >= |items| ==> forall e :: e in items ==> Summarize(e) in Listing(items, limit)
  {
    ListingPrefix(items, limit);
    ListingNewestFirst(items, limit);
    ListingFromEntries(items, limit);
    if limit >= |items| {
      ListingComplete(items, limit);
    }
  }
}
