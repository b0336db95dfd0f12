/** The job that compiles the cached timeframe: wipe the table, fetch three
    pages of newest posts and store them, resolve the requests whose active
    flag is still unknown, anonymise, then query thirty day-buckets.

    The platform client and the database are seen here only through the calls
    the job makes on them. A `Services` object stands for both: it records
    every call in a log, and the answer to each call is whatever the
    environment `Env` gives for the call's position in that log, so the model
    holds for every behaviour of the two services (including pages that
    change between requests). */
module Pipeline {
  import opened Wrappers
  import opened Classifier
  import opened PostTable

  /** Every call the job makes, with its arguments. */
  datatype Call =
    | Auth
    | CreateTables
    | GetNewestPosts(sr: string, cursor: Option<string>, limit: int)
    | InsertPostList(posts: seq<PostRecord>)
    | GetNullActiveLoanRequests
    | IsPostActive(postSr: string, postId: string)
    | UpdateActiveOnLoan(id: string, active: bool)
    | AnonymizeData
    | LoanPaidAndDefaultRate(paidDay: int)
    | LoansRequestedOnDate(requestedDay: int)
    | LoansGivenOnDate(givenDay: int)
    | LoanAmountRequestedOnDate(amountRequestedDay: int)
    | LoanAmountGivenOnDate(amountGivenDay: int)
    | CloseConnection

  /** One fetched page: the posts and the cursor of the next page. */
  datatype Page = Page(posts: seq<PostRecord>, after: Option<string>)

  /** The answers of the services, by the position of the call in the log. */
  datatype Env = Env(
    pageAt: nat -> Page,
    nullIdsAt: nat -> seq<string>,
    activeAt: nat -> bool,
    countAt: nat -> int,
    rateAt: nat -> (int, int))

  /** One day-bucket of the timeframe. */
  datatype Entry = Entry(
    date: int,
    reqCount: int,
    activeCount: int,
    reqAmount: int,
    activeAmount: int,
    loansPaid: int,
    loansUnpaid: int)

  /** A value the job can hand back, as JSON sees it: Python's `None`, or a
      list of day-buckets. */
  datatype Cached = Null | Entries(entries: seq<Entry>)

  const SUBREDDIT := "borrow"
  const PAGES := 3
  const PAGE_LIMIT := 100
  const DAYS := 30

  class Services {
    const env: Env
    var log: seq<Call>

    constructor (env: Env)
      ensures this.env == env && log == []
    {
      this.env := env;
      log := [];
    }

    method Auth()
      modifies this`log
      ensures log == old(log) + [Call.Auth]
    {
      log := log + [Call.Auth];
    }

    method CreateTables()
      modifies this`log
      ensures log == old(log) + [Call.CreateTables]
    {
      log := log + [Call.CreateTables];
    }

    method GetNewestPosts(sr: string, nextPage: Option<string>, limit: int) returns (posts: seq<PostRecord>, after: Option<string>)
      modifies this`log
      ensures log == old(log) + [Call.GetNewestPosts(sr, nextPage, limit)]
      ensures posts == env.pageAt(|old(log)|).posts && after == env.pageAt(|old(log)|).after
    {
      var page := env.pageAt(|log|);
      log := log + [Call.GetNewestPosts(sr, nextPage, limit)];
      posts, after := page.posts, page.after;
    }

    method InsertPostList(posts: seq<PostRecord>)
      modifies this`log
      ensures log == old(log) + [Call.InsertPostList(posts)]
    {
      log := log + [Call.InsertPostList(posts)];
    }

    method GetNullActiveLoanRequests() returns (ids: seq<string>)
      modifies this`log
      ensures log == old(log) + [Call.GetNullActiveLoanRequests]
      ensures ids == env.nullIdsAt(|old(log)|)
    {
      ids := env.nullIdsAt(|log|);
      log := log + [Call.GetNullActiveLoanRequests];
    }

    method IsPostActive(sr: string, id: string) returns (active: bool)
      modifies this`log
      ensures log == old(log) + [Call.IsPostActive(sr, id)]
      ensures active == env.activeAt(|old(log)|)
    {
      active := env.activeAt(|log|);
      log := log + [Call.IsPostActive(sr, id)];
    }

    method UpdateActiveOnLoan(id: string, active: bool)
      modifies this`log
      ensures log == old(log) + [Call.UpdateActiveOnLoan(id, active)]
    {
      log := log + [Call.UpdateActiveOnLoan(id, active)];
    }

    method AnonymizeData()
      modifies this`log
      ensures log == old(log) + [Call.AnonymizeData]
    {
      log := log + [Call.AnonymizeData];
    }

    method LoanPaidAndDefaultRate(day: int) returns (rate: (int, int))
      modifies this`log
      ensures log == old(log) + [Call.LoanPaidAndDefaultRate(day)]
      ensures rate == env.rateAt(|old(log)|)
    {
      rate := env.rateAt(|log|);
      log := log + [Call.LoanPaidAndDefaultRate(day)];
    }

    method LoansRequestedOnDate(day: int) returns (count: int)
      modifies this`log
      ensures log == old(log) + [Call.LoansRequestedOnDate(day)]
      ensures count == env.countAt(|old(log)|)
    {
      count := env.countAt(|log|);
      log := log + [Call.LoansRequestedOnDate(day)];
    }

    method LoansGivenOnDate(day: int) returns (count: int)
      modifies this`log
      ensures log == old(log) + [Call.LoansGivenOnDate(day)]
      ensures count == env.countAt(|old(log)|)
    {
      count := env.countAt(|log|);
      log := log + [Call.LoansGivenOnDate(day)];
    }

    method LoanAmountRequestedOnDate(day: int) returns (amount: int)
      modifies this`log
      ensures log == old(log) + [Call.LoanAmountRequestedOnDate(day)]
      ensures amount == env.countAt(|old(log)|)
    {
      amount := env.countAt(|log|);
      log := log + [Call.LoanAmountRequestedOnDate(day)];
    }

    method LoanAmountGivenOnDate(day: int) returns (amount: int)
      modifies this`log
      ensures log == old(log) + [Call.LoanAmountGivenOnDate(day)]
      ensures amount == env.countAt(|old(log)|)
    {
      amount := env.countAt(|log|);
      log := log + [Call.LoanAmountGivenOnDate(day)];
    }

    method CloseConnection()
      modifies this`log
      ensures log == old(log) + [Call.CloseConnection]
    {
      log := log + [Call.CloseConnection];
    }
  }

  // ---------------------------------------------------------------------------
  // The expected call log, segment by segment

  /** Log position of the `k`-th page request. */
  function FetchAt(k: nat): nat { 2 + 2 * k }

  /** The cursor of the `k`-th page request: the empty string first, then the
      `after` of the page before. */
  function Cursor(env: Env, k: nat): Option<string> {
    if k == 0 then Some("") else env.pageAt(FetchAt(k - 1)).after
  }

  /** The first `k` page requests, each followed by storing its page. */
  function Fetches(env: Env, k: nat): (r: seq<Call>)
    ensures |r| == 2 * k
    ensures forall c :: c in r ==> c.GetNewestPosts? || c.InsertPostList?
  {
    if k == 0 then []
    else Fetches(env, k - 1) + [Call.GetNewestPosts(SUBREDDIT, Cursor(env, k - 1), PAGE_LIMIT),
                                Call.InsertPostList(env.pageAt(FetchAt(k - 1)).posts)]
  }

  const NULL_QUERY_AT := FetchAt(PAGES)

  function NullIds(env: Env): seq<string> {
    env.nullIdsAt(NULL_QUERY_AT)
  }

  /** Log position of the question about the `j`-th unresolved request. */
  function ResolveAt(j: nat): nat { NULL_QUERY_AT + 1 + 2 * j }

  /** The first `j` unresolved requests: ask the platform, store the answer. */
  function Resolutions(env: Env, ids: seq<string>, j: nat): (r: seq<Call>)
    requires j <= |ids|
    ensures |r| == 2 * j
    ensures forall c :: c in r ==> c.IsPostActive? || c.UpdateActiveOnLoan?
  {
    if j == 0 then []
    else Resolutions(env, ids, j - 1) + [Call.IsPostActive(SUBREDDIT, ids[j - 1]),
                                         Call.UpdateActiveOnLoan(ids[j - 1], env.activeAt(ResolveAt(j - 1)))]
  }

  function AnonymizeAt(env: Env): nat { ResolveAt(|NullIds(env)|) }

  predicate IsDayQuery(c: Call) {
    c.LoanPaidAndDefaultRate? || c.LoansRequestedOnDate? || c.LoansGivenOnDate?
    || c.LoanAmountRequestedOnDate? || c.LoanAmountGivenOnDate?
  }

  /** The queries for one day, in the order the entry's fields are evaluated. */
  function DayQueries(day: int): seq<Call> {
    [Call.LoanPaidAndDefaultRate(day), Call.LoansRequestedOnDate(day), Call.LoansGivenOnDate(day),
     Call.LoanAmountRequestedOnDate(day), Call.LoanAmountGivenOnDate(day)]
  }

  /** The queries for days `0 .. n-1`. */
  function Days(n: nat): (r: seq<Call>)
    ensures |r| == 5 * n
    ensures forall i :: 0 <= i < |r| ==> IsDayQuery(r[i])
  {
    seq(5 * n, i requires 0 <= i < 5 * n => DayQueries(i / 5)[i % 5])
  }

  /** One more day appends that day's five queries. */
  lemma {:induction false} DaysSnoc(n: nat)
    ensures Days(n + 1) == Days(n) + DayQueries(n)
  {
    var a, b := Days(n + 1), Days(n) + DayQueries(n);
    forall i | 0 <= i < |a| ensures a[i] == b[i] {
      if i >= 5 * n {
        assert i / 5 == n;
      }
    }
  }

  /** Log position of the first query for day `d`. */
  function DayAt(env: Env, d: nat): nat { AnonymizeAt(env) + 1 + 5 * d }

  /** The whole log of one run. */
  function Script(env: Env): seq<Call> {
    [Call.Auth, Call.CreateTables] + Fetches(env, PAGES) + [Call.GetNullActiveLoanRequests]
    + Resolutions(env, NullIds(env), |NullIds(env)|) + [Call.AnonymizeData]
    + Days(DAYS) + [Call.CloseConnection]
  }

  /** The entry for day `d`, from the answers to that day's queries. */
  function DayEntry(env: Env, today: int, d: nat): Entry {
    var at := DayAt(env, d);
    Entry(today - d * SECONDS_PER_DAY, env.countAt(at + 1), env.countAt(at + 2),
          env.countAt(at + 3), env.countAt(at + 4), env.rateAt(at).0, env.rateAt(at).1)
  }

  /** The entries for days `0 .. n-1`. */
  function Timeframe(env: Env, today: int, n: nat): (r: seq<Entry>)
    ensures |r| == n
  {
    if n == 0 then [] else Timeframe(env, today, n - 1) + [DayEntry(env, today, n - 1)]
  }

  // ---------------------------------------------------------------------------
  // The job

  /** One pass of the day loop: the five queries for `day`, in order, and the
      entry built from their answers. */
  method QueryDay(services: Services, today: int, day: nat) returns (entry: Entry)
    requires |services.log| == DayAt(services.env, day)
    modifies services`log
    ensures services.log == old(services.log) + DayQueries(day)
    ensures entry == DayEntry(services.env, today, day)
  {
    var query := services.LoanPaidAndDefaultRate(day);
    var reqCount := services.LoansRequestedOnDate(day);
    var activeCount := services.LoansGivenOnDate(day);
    var reqAmount := services.LoanAmountRequestedOnDate(day);
    var activeAmount := services.LoanAmountGivenOnDate(day);
    entry := Entry(today - day * SECONDS_PER_DAY, reqCount, activeCount,
                   reqAmount, activeAmount, query.0, query.1);
  }

  /** The page loop: three requests, each cursor taken from the page before,
      each page stored before the next request. */
  method FetchPages(services: Services)
    requires services.log == [Call.Auth, Call.CreateTables]
    modifies services`log
    ensures services.log == [Call.Auth, Call.CreateTables] + Fetches(services.env, PAGES)
  {
    var nextPage := Some("");
    for k := 0 to PAGES
      invariant services.log == [Call.Auth, Call.CreateTables] + Fetches(services.env, k)
      invariant nextPage == Cursor(services.env, k)
    {
      var posts, after := services.GetNewestPosts(SUBREDDIT, nextPage, PAGE_LIMIT);
      services.InsertPostList(posts);
      nextPage := after;
    }
  }

  /** The validation loop: every request whose active flag is unknown is asked
      about once, and the answer stored, in the order the database lists them. */
  method ResolveNullPosts(services: Services)
    requires |services.log| == NULL_QUERY_AT
    modifies services`log
    ensures services.log == old(services.log) + [Call.GetNullActiveLoanRequests]
      + Resolutions(services.env, NullIds(services.env), |NullIds(services.env)|)
  {
    var nullPosts := services.GetNullActiveLoanRequests();
    ghost var queried := services.log;
    for j := 0 to |nullPosts|
      invariant services.log == queried + Resolutions(services.env, nullPosts, j)
    {
      var active := services.IsPostActive(SUBREDDIT, nullPosts[j]);
      services.UpdateActiveOnLoan(nullPosts[j], active);
    }
  }

  /** The day loop: one entry per day, day 0 (today) first. */
  method BuildTimeframe(services: Services, today: int) returns (timeframe: seq<Entry>)
    requires |services.log| == AnonymizeAt(services.env) + 1
    modifies services`log
    ensures services.log == old(services.log) + Days(DAYS)
    ensures timeframe == Timeframe(services.env, today, DAYS)
  {
    timeframe := [];
    for day := 0 to DAYS
      invariant services.log == old(services.log) + Days(day)
      invariant timeframe == Timeframe(services.env, today, day)
    {
      var entry := QueryDay(services, today, day);
      DaysSnoc(day);
      timeframe := timeframe + [entry];
    }
  }

  /** Runs the job against fresh services. `printed` is the list the job
      builds and prints; the function ends without a `return`, so what it
      hands back to its caller, `result`, is `None`. `today` is the clock
      reading in epoch seconds. */
  method UpdateTimeframeData(env: Env, today: int) returns (result: Cached, printed: seq<Entry>, log: seq<Call>)
    ensures log == Script(env)
    ensures printed == Timeframe(env, today, DAYS)
    ensures result == Null
  {
    var services := new Services(env);
    services.Auth();
    services.CreateTables();
    FetchPages(services);
    ResolveNullPosts(services);
    services.AnonymizeData();
    printed := BuildTimeframe(services, today);
    services.CloseConnection();
    log := services.log;
    result := Null;
  }

  // ---------------------------------------------------------------------------
  // What the log shows

  /** The values `f` picks out of the log, in log order. */
  function Pick<T>(log: seq<Call>, f: Call -> Option<T>): (r: seq<T>)
    ensures |r| <= |log|
  {
    if |log| == 0 then []
    else Pick(log[..|log| - 1], f) + (match f(log[|log| - 1]) case Some(x) => [x] case None => [])
  }

  function RequestedCursor(c: Call): Option<Option<string>> {
    if c.GetNewestPosts? then Some(c.cursor) else None
  }

  function StoredPage(c: Call): Option<seq<PostRecord>> {
    if c.InsertPostList? then Some(c.posts) else None
  }

  function AskedId(c: Call): Option<string> {
    if c.IsPostActive? then Some(c.postId) else None
  }

  function StoredActive(c: Call): Option<(string, bool)> {
    if c.UpdateActiveOnLoan? then Some((c.id, c.active)) else None
  }

  lemma {:induction false} PickConcat<T>(a: seq<Call>, b: seq<Call>, f: Call -> Option<T>)
    ensures Pick(a + b, f) == Pick(a, f) + Pick(b, f)
    decreases |b|
  {
    if |b| == 0 {
      assert a + b == a;
    } else {
      assert (a + b)[..|a + b| - 1] == a + b[..|b| - 1];
      PickConcat(a, b[..|b| - 1], f);
    }
  }

  lemma {:induction false} PickNone<T>(log: seq<Call>, f: Call -> Option<T>)
    requires forall i :: 0 <= i < |log| ==> f(log[i]).None?
    ensures Pick(log, f) == []
    decreases |log|
  {
    if |log| > 0 {
      PickNone(log[..|log| - 1], f);
    }
  }

  lemma {:induction false} FetchesAt(env: Env, k: nat, i: nat)
    requires i < k
    ensures Fetches(env, k)[2 * i] == Call.GetNewestPosts(SUBREDDIT, Cursor(env, i), PAGE_LIMIT)
    ensures Fetches(env, k)[2 * i + 1] == Call.InsertPostList(env.pageAt(FetchAt(i)).posts)
    decreases k
  {
    if i < k - 1 {
      FetchesAt(env, k - 1, i);
    }
  }

  lemma {:induction false} ResolutionsAt(env: Env, ids: seq<string>, j: nat, m: nat)
    requires m < j <= |ids|
    ensures Resolutions(env, ids, j)[2 * m] == Call.IsPostActive(SUBREDDIT, ids[m])
    ensures Resolutions(env, ids, j)[2 * m + 1] == Call.UpdateActiveOnLoan(ids[m], env.activeAt(ResolveAt(m)))
    decreases j
  {
    if m < j - 1 {
      ResolutionsAt(env, ids, j - 1, m);
    }
  }

  lemma {:induction false} DaysAt(n: nat, d: nat, r: nat)
    requires d < n && r < 5
    ensures Days(n)[5 * d + r] == DayQueries(d)[r]
  {
    assert (5 * d + r) / 5 == d;
  }

  /** The log of a run, cut into its phases. */
  lemma {:induction false} ScriptSegments(env: Env)
    ensures |Script(env)| == DayAt(env, DAYS) + 1
    ensures Script(env)[..2] == [Call.Auth, Call.CreateTables]
    ensures Script(env)[2..NULL_QUERY_AT] == Fetches(env, PAGES)
    ensures Script(env)[NULL_QUERY_AT] == Call.GetNullActiveLoanRequests
    ensures Script(env)[NULL_QUERY_AT + 1..AnonymizeAt(env)] == Resolutions(env, NullIds(env), |NullIds(env)|)
    ensures Script(env)[AnonymizeAt(env)] == Call.AnonymizeData
    ensures Script(env)[AnonymizeAt(env) + 1..DayAt(env, DAYS)] == Days(DAYS)
    ensures Script(env)[DayAt(env, DAYS)] == Call.CloseConnection
  {
    var ids := NullIds(env);
    var p0 := [Call.Auth, Call.CreateTables];
    var p1 := p0 + Fetches(env, PAGES);
    var p2 := p1 + [Call.GetNullActiveLoanRequests];
    var p3 := p2 + Resolutions(env, ids, |ids|);
    var p4 := p3 + [Call.AnonymizeData];
    var p5 := p4 + Days(DAYS);
    assert Script(env) == p5 + [Call.CloseConnection];
    assert p5[..2] == p0;
    assert p5[2..NULL_QUERY_AT] == p1[2..] == Fetches(env, PAGES);
    assert p5[NULL_QUERY_AT + 1..AnonymizeAt(env)] == p3[NULL_QUERY_AT + 1..];
    assert p5[AnonymizeAt(env) + 1..] == Days(DAYS);
  }

  /** Which kind of call stands at each position of the log. */
  lemma {:induction false} CallAt(env: Env, i: nat)
    requires i < |Script(env)|
    ensures i == 0 ==> Script(env)[i] == Call.Auth
    ensures i == 1 ==> Script(env)[i] == Call.CreateTables
    ensures 2 <= i < NULL_QUERY_AT ==> Script(env)[i].GetNewestPosts? || Script(env)[i].InsertPostList?
    ensures i == NULL_QUERY_AT ==> Script(env)[i] == Call.GetNullActiveLoanRequests
    ensures NULL_QUERY_AT < i < AnonymizeAt(env) ==>
      Script(env)[i].IsPostActive? || Script(env)[i].UpdateActiveOnLoan?
    ensures i == AnonymizeAt(env) ==> Script(env)[i] == Call.AnonymizeData
    ensures AnonymizeAt(env) < i < DayAt(env, DAYS) ==> IsDayQuery(Script(env)[i])
    ensures i == DayAt(env, DAYS) ==> Script(env)[i] == Call.CloseConnection
  {
    ScriptSegments(env);
    if i < 2 {
      assert Script(env)[i] == Script(env)[..2][i];
    } else if i < NULL_QUERY_AT {
      CallInFetches(env, i);
    } else if NULL_QUERY_AT < i < AnonymizeAt(env) {
      CallInResolutions(env, i);
    } else if AnonymizeAt(env) < i < DayAt(env, DAYS) {
      CallInDays(env, i);
    }
  }

  lemma {:induction false} CallInFetches(env: Env, i: nat)
    requires 2 <= i < NULL_QUERY_AT
    ensures i < |Script(env)|
    ensures Script(env)[i].GetNewestPosts? || Script(env)[i].InsertPostList?
  {
    ScriptSegments(env);
    assert Script(env)[i] == Script(env)[2..NULL_QUERY_AT][i - 2];
  }

  lemma {:induction false} CallInResolutions(env: Env, i: nat)
    requires NULL_QUERY_AT < i < AnonymizeAt(env)
    ensures i < |Script(env)|
    ensures Script(env)[i].IsPostActive? || Script(env)[i].UpdateActiveOnLoan?
  {
    ScriptSegments(env);
    assert Script(env)[i] == Script(env)[NULL_QUERY_AT + 1..AnonymizeAt(env)][i - NULL_QUERY_AT - 1];
  }

  lemma {:induction false} CallInDays(env: Env, i: nat)
    requires AnonymizeAt(env) < i < DayAt(env, DAYS)
    ensures i < |Script(env)|
    ensures IsDayQuery(Script(env)[i])
  {
    ScriptDays(env, i - AnonymizeAt(env) - 1);
  }

  /** The wipe runs once, second, before every page request and every insert. */
  lemma {:induction false} WipeBeforeFetches(env: Env)
    ensures Script(env)[1] == Call.CreateTables
    ensures forall i :: 0 <= i < |Script(env)| && Script(env)[i] == Call.CreateTables ==> i == 1
    ensures forall i :: 0 <= i < |Script(env)| && (Script(env)[i].GetNewestPosts? || Script(env)[i].InsertPostList?) ==> 1 < i
  {
    ScriptSegments(env);
    forall i | 0 <= i < |Script(env)|
      ensures Script(env)[i] == Call.CreateTables ==> i == 1
      ensures Script(env)[i].GetNewestPosts? || Script(env)[i].InsertPostList? ==> 1 < i
    {
      CallAt(env, i);
    }
  }

  /** The log closes with the connection, and closes it only there. */
  lemma {:induction false} ClosedLast(env: Env)
    ensures Script(env)[|Script(env)| - 1] == Call.CloseConnection
    ensures forall i :: 0 <= i < |Script(env)| - 1 ==> Script(env)[i] != Call.CloseConnection
  {
    ScriptSegments(env);
    forall i | 0 <= i < |Script(env)| - 1
      ensures Script(env)[i] != Call.CloseConnection
    {
      CallAt(env, i);
    }
  }

  /** Anonymisation runs exactly once, after every stored answer and before
      every day query. */
  lemma {:induction false} AnonymizeBetween(env: Env)
    ensures Script(env)[AnonymizeAt(env)] == Call.AnonymizeData
    ensures forall i :: 0 <= i < |Script(env)| && Script(env)[i] == Call.AnonymizeData ==> i == AnonymizeAt(env)
    ensures forall i :: 0 <= i < |Script(env)| && Script(env)[i].UpdateActiveOnLoan? ==> i < AnonymizeAt(env)
    ensures forall i :: 0 <= i < |Script(env)| && IsDayQuery(Script(env)[i]) ==> AnonymizeAt(env) < i
  {
    ScriptSegments(env);
    forall i | 0 <= i < |Script(env)|
      ensures Script(env)[i] == Call.AnonymizeData ==> i == AnonymizeAt(env)
      ensures Script(env)[i].UpdateActiveOnLoan? ==> i < AnonymizeAt(env)
      ensures IsDayQuery(Script(env)[i]) ==> AnonymizeAt(env) < i
    {
      CallAt(env, i);
    }
  }

  /** A selector that only the calls in `[lo, hi)` answer picks the same
      values from that stretch as from the whole log. */
  lemma {:induction false} PickWithin<T>(log: seq<Call>, lo: nat, hi: nat, f: Call -> Option<T>)
    requires lo <= hi <= |log|
    requires forall i :: 0 <= i < |log| && !(lo <= i < hi) ==> f(log[i]).None?
    ensures Pick(log, f) == Pick(log[lo..hi], f)
  {
    PickDropSuffix(log, hi, f);
    var head := log[..hi];
    forall i | 0 <= i < lo ensures f(head[i]).None? {
      assert head[i] == log[i];
    }
    PickDropPrefix(head, lo, f);
    assert head[lo..] == log[lo..hi];
  }

  lemma {:induction false} PickDropSuffix<T>(log: seq<Call>, hi: nat, f: Call -> Option<T>)
    requires hi <= |log|
    requires forall i :: hi <= i < |log| ==> f(log[i]).None?
    ensures Pick(log, f) == Pick(log[..hi], f)
  {
    var tail := log[hi..];
    forall i | 0 <= i < |tail| ensures f(tail[i]).None? {
      assert tail[i] == log[hi + i];
    }
    PickNone(tail, f);
    assert log == log[..hi] + tail;
    PickConcat(log[..hi], tail, f);
  }

  lemma {:induction false} PickDropPrefix<T>(log: seq<Call>, lo: nat, f: Call -> Option<T>)
    requires lo <= |log|
    requires forall i :: 0 <= i < lo ==> f(log[i]).None?
    ensures Pick(log, f) == Pick(log[lo..], f)
  {
    var head := log[..lo];
    forall i | 0 <= i < |head| ensures f(head[i]).None? {
      assert head[i] == log[i];
    }
    PickNone(head, f);
    assert log == head + log[lo..];
    PickConcat(head, log[lo..], f);
  }

  /** A selector that only page requests and stores answer picks from the page loop alone. */
  lemma {:induction false} PickOnlyFetches<T>(env: Env, f: Call -> Option<T>)
    requires forall c: Call :: !c.GetNewestPosts? && !c.InsertPostList? ==> f(c).None?
    ensures Pick(Script(env), f) == Pick(Fetches(env, PAGES), f)
  {
    ScriptSegments(env);
    forall i | 0 <= i < |Script(env)| && !(2 <= i < NULL_QUERY_AT)
      ensures f(Script(env)[i]).None?
    {
      CallAt(env, i);
    }
    PickWithin(Script(env), 2, NULL_QUERY_AT, f);
  }

  /** A selector that only questions and stored answers answer picks from the validation loop alone. */
  lemma {:induction false} PickOnlyResolutions<T>(env: Env, f: Call -> Option<T>)
    requires forall c: Call :: !c.IsPostActive? && !c.UpdateActiveOnLoan? ==> f(c).None?
    ensures Pick(Script(env), f) == Pick(Resolutions(env, NullIds(env), |NullIds(env)|), f)
  {
    ScriptSegments(env);
    forall i | 0 <= i < |Script(env)| && !(NULL_QUERY_AT + 1 <= i < AnonymizeAt(env))
      ensures f(Script(env)[i]).None?
    {
      CallAt(env, i);
    }
    PickWithin(Script(env), NULL_QUERY_AT + 1, AnonymizeAt(env), f);
  }

  /** Each round of the page loop is a request followed by storing its page. */
  lemma {:induction false} FetchLayout(env: Env)
    ensures forall k :: 0 <= k < PAGES ==>
      && Script(env)[FetchAt(k)] == Call.GetNewestPosts(SUBREDDIT, Cursor(env, k), PAGE_LIMIT)
      && Script(env)[FetchAt(k) + 1] == Call.InsertPostList(env.pageAt(FetchAt(k)).posts)
  {
    ScriptSegments(env);
    var log := Script(env);
    forall k | 0 <= k < PAGES
      ensures log[FetchAt(k)] == Call.GetNewestPosts(SUBREDDIT, Cursor(env, k), PAGE_LIMIT)
      ensures log[FetchAt(k) + 1] == Call.InsertPostList(env.pageAt(FetchAt(k)).posts)
    {
      FetchesAt(env, PAGES, k);
      assert log[FetchAt(k)] == log[2..NULL_QUERY_AT][2 * k];
      assert log[FetchAt(k) + 1] == log[2..NULL_QUERY_AT][2 * k + 1];
    }
  }

  /** Three page requests, in this order and with these cursors: the empty
      string, then each time the cursor the previous page came back with; each
      page is stored right after it arrives, before the next request. */
  lemma {:induction false} PagesThreaded(env: Env)
    ensures Pick(Script(env), RequestedCursor) ==
      [Some(""), env.pageAt(FetchAt(0)).after, env.pageAt(FetchAt(1)).after]
    ensures Pick(Script(env), StoredPage) ==
      [env.pageAt(FetchAt(0)).posts, env.pageAt(FetchAt(1)).posts, env.pageAt(FetchAt(2)).posts]
    ensures forall k :: 0 <= k < PAGES ==>
      && Script(env)[FetchAt(k)] == Call.GetNewestPosts(SUBREDDIT, Cursor(env, k), PAGE_LIMIT)
      && Script(env)[FetchAt(k) + 1] == Call.InsertPostList(env.pageAt(FetchAt(k)).posts)
  {
    PickOnlyFetches(env, RequestedCursor);
    PickOnlyFetches(env, StoredPage);
    PickCursors(env, PAGES);
    PickPages(env, PAGES);
    FetchLayout(env);
  }

  /** The cursors requested by the first `k` rounds. */
  lemma {:induction false} PickCursors(env: Env, k: nat)
    ensures Pick(Fetches(env, k), RequestedCursor) == seq(k, i requires 0 <= i => Cursor(env, i))
    decreases k
  {
    if k > 0 {
      PickCursors(env, k - 1);
      var round := [Call.GetNewestPosts(SUBREDDIT, Cursor(env, k - 1), PAGE_LIMIT),
                    Call.InsertPostList(env.pageAt(FetchAt(k - 1)).posts)];
      PickConcat(Fetches(env, k - 1), round, RequestedCursor);
      assert round[..1] == [round[0]];
      assert [round[0]][..0] == [];
      assert seq(k, i requires 0 <= i => Cursor(env, i))
          == seq(k - 1, i requires 0 <= i => Cursor(env, i)) + [Cursor(env, k - 1)];
    }
  }

  /** The pages stored by the first `k` rounds. */
  lemma {:induction false} PickPages(env: Env, k: nat)
    ensures Pick(Fetches(env, k), StoredPage) == seq(k, i requires 0 <= i => env.pageAt(FetchAt(i)).posts)
    decreases k
  {
    if k > 0 {
      PickPages(env, k - 1);
      var round := [Call.GetNewestPosts(SUBREDDIT, Cursor(env, k - 1), PAGE_LIMIT),
                    Call.InsertPostList(env.pageAt(FetchAt(k - 1)).posts)];
      PickConcat(Fetches(env, k - 1), round, StoredPage);
      assert round[..1] == [round[0]];
      assert [round[0]][..0] == [];
      assert seq(k, i requires 0 <= i => env.pageAt(FetchAt(i)).posts)
          == seq(k - 1, i requires 0 <= i => env.pageAt(FetchAt(i)).posts) + [env.pageAt(FetchAt(k - 1)).posts];
    }
  }

  /** The pairs stored by the first `j` rounds: each id with the answer to
      the question asked about it. */
  function Answers(env: Env, ids: seq<string>, j: nat): (r: seq<(string, bool)>)
    requires j <= |ids|
    ensures |r| == j
    ensures forall m :: 0 <= m < j ==> r[m] == (ids[m], env.activeAt(ResolveAt(m)))
  {
    if j == 0 then [] else Answers(env, ids, j - 1) + [(ids[j - 1], env.activeAt(ResolveAt(j - 1)))]
  }

  lemma {:induction false} PickAsked(env: Env, ids: seq<string>, j: nat)
    requires j <= |ids|
    ensures Pick(Resolutions(env, ids, j), AskedId) == ids[..j]
    decreases j
  {
    if j > 0 {
      PickAsked(env, ids, j - 1);
      var round := [Call.IsPostActive(SUBREDDIT, ids[j - 1]),
                    Call.UpdateActiveOnLoan(ids[j - 1], env.activeAt(ResolveAt(j - 1)))];
      PickConcat(Resolutions(env, ids, j - 1), round, AskedId);
      assert round[..1] == [round[0]];
      assert [round[0]][..0] == [];
      assert ids[..j] == ids[..j - 1] + [ids[j - 1]];
    }
  }

  lemma {:induction false} PickAnswers(env: Env, ids: seq<string>, j: nat)
    requires j <= |ids|
    ensures Pick(Resolutions(env, ids, j), StoredActive) == Answers(env, ids, j)
    decreases j
  {
    if j > 0 {
      PickAnswers(env, ids, j - 1);
      var round := [Call.IsPostActive(SUBREDDIT, ids[j - 1]),
                    Call.UpdateActiveOnLoan(ids[j - 1], env.activeAt(ResolveAt(j - 1)))];
      PickConcat(Resolutions(env, ids, j - 1), round, StoredActive);
      assert round[..1] == [round[0]];
      assert [round[0]][..0] == [];
    }
  }

  /** Each round of the validation loop is a question followed by storing its answer. */
  lemma {:induction false} ResolveLayout(env: Env)
    ensures forall j :: 0 <= j < |NullIds(env)| ==>
      && Script(env)[ResolveAt(j)] == Call.IsPostActive(SUBREDDIT, NullIds(env)[j])
      && Script(env)[ResolveAt(j) + 1] == Call.UpdateActiveOnLoan(NullIds(env)[j], env.activeAt(ResolveAt(j)))
  {
    ScriptSegments(env);
    var log := Script(env);
    var ids := NullIds(env);
    forall j | 0 <= j < |ids|
      ensures log[ResolveAt(j)] == Call.IsPostActive(SUBREDDIT, ids[j])
      ensures log[ResolveAt(j) + 1] == Call.UpdateActiveOnLoan(ids[j], env.activeAt(ResolveAt(j)))
    {
      ResolutionsAt(env, ids, |ids|, j);
      assert log[ResolveAt(j)] == log[NULL_QUERY_AT + 1..AnonymizeAt(env)][2 * j];
      assert log[ResolveAt(j) + 1] == log[NULL_QUERY_AT + 1..AnonymizeAt(env)][2 * j + 1];
    }
  }

  /** Each id the database lists as unresolved is asked about exactly once, in
      list order, and the platform's answer is stored for it right after. */
  lemma {:induction false} NullIdsResolvedOnce(env: Env)
    ensures Pick(Script(env), AskedId) == NullIds(env)
    ensures Pick(Script(env), StoredActive) == Answers(env, NullIds(env), |NullIds(env)|)
    ensures forall j :: 0 <= j < |NullIds(env)| ==>
      && Script(env)[ResolveAt(j)] == Call.IsPostActive(SUBREDDIT, NullIds(env)[j])
      && Script(env)[ResolveAt(j) + 1] == Call.UpdateActiveOnLoan(NullIds(env)[j], env.activeAt(ResolveAt(j)))
  {
    var ids := NullIds(env);
    PickOnlyResolutions(env, AskedId);
    PickOnlyResolutions(env, StoredActive);
    PickAsked(env, ids, |ids|);
    PickAnswers(env, ids, |ids|);
    assert ids[..|ids|] == ids;
    ResolveLayout(env);
  }

  lemma {:induction false} TimeframeAt(env: Env, today: int, n: nat, d: nat)
    requires d < n
    ensures Timeframe(env, today, n)[d] == DayEntry(env, today, d)
    decreases n
  {
    if d < n - 1 {
      TimeframeAt(env, today, n - 1, d);
    }
  }

  /** The day loop's stretch of the log is the day queries, position by position. */
  lemma {:induction false} ScriptDays(env: Env, j: nat)
    requires j < 5 * DAYS
    ensures AnonymizeAt(env) + 1 + j < |Script(env)|
    ensures Script(env)[AnonymizeAt(env) + 1 + j] == Days(DAYS)[j]
  {
    ScriptSegments(env);
    assert Script(env)[AnonymizeAt(env) + 1 + j] == Script(env)[AnonymizeAt(env) + 1..DayAt(env, DAYS)][j];
  }

  /** Query `k` of day `d` stands at offset `k` from the day's start. */
  lemma {:induction false} DayQueryAt(env: Env, d: nat, k: nat)
    requires d < DAYS && k < 5
    ensures DayAt(env, d) + k < |Script(env)|
    ensures Script(env)[DayAt(env, d) + k] == DayQueries(d)[k]
  {
    ScriptDays(env, 5 * d + k);
    DaysAt(DAYS, d, k);
  }

  /** Each day's five queries stand together, in field order. */
  lemma {:induction false} DayLayout(env: Env, d: nat)
    requires d < DAYS
    ensures DayAt(env, d) + 4 < |Script(env)|
    ensures Script(env)[DayAt(env, d)] == Call.LoanPaidAndDefaultRate(d)
    ensures Script(env)[DayAt(env, d) + 1] == Call.LoansRequestedOnDate(d)
    ensures Script(env)[DayAt(env, d) + 2] == Call.LoansGivenOnDate(d)
    ensures Script(env)[DayAt(env, d) + 3] == Call.LoanAmountRequestedOnDate(d)
    ensures Script(env)[DayAt(env, d) + 4] == Call.LoanAmountGivenOnDate(d)
  {
    DayQueryAt(env, d, 0);
    DayQueryAt(env, d, 1);
    DayQueryAt(env, d, 2);
    DayQueryAt(env, d, 3);
    DayQueryAt(env, d, 4);
  }

  /** Thirty entries, day 0 first: entry `d` is dated `d` days before the
      clock reading, and each of its figures is the answer to that day's
      query of the same name, `loansPaid`/`loansUnpaid` being the two halves
      of the paid-and-default query. */
  lemma {:induction false} TimeframeFromQueries(env: Env, today: int)
    ensures |Timeframe(env, today, DAYS)| == DAYS
    ensures forall d :: 0 <= d < DAYS ==>
      var e, at := Timeframe(env, today, DAYS)[d], DayAt(env, d);
      && e.date == today - d * SECONDS_PER_DAY
      && Script(env)[at] == Call.LoanPaidAndDefaultRate(d)
      && e.loansPaid == env.rateAt(at).0 && e.loansUnpaid == env.rateAt(at).1
      && Script(env)[at + 1] == Call.LoansRequestedOnDate(d) && e.reqCount == env.countAt(at + 1)
      && Script(env)[at + 2] == Call.LoansGivenOnDate(d) && e.activeCount == env.countAt(at + 2)
      && Script(env)[at + 3] == Call.LoanAmountRequestedOnDate(d) && e.reqAmount == env.countAt(at + 3)
      && Script(env)[at + 4] == Call.LoanAmountGivenOnDate(d) && e.activeAmount == env.countAt(at + 4)
  {
    forall d | 0 <= d < DAYS
      ensures Timeframe(env, today, DAYS)[d] == DayEntry(env, today, d)
      ensures Script(env)[DayAt(env, d)] == Call.LoanPaidAndDefaultRate(d)
      ensures Script(env)[DayAt(env, d) + 1] == Call.LoansRequestedOnDate(d)
      ensures Script(env)[DayAt(env, d) + 2] == Call.LoansGivenOnDate(d)
      ensures Script(env)[DayAt(env, d) + 3] == Call.LoanAmountRequestedOnDate(d)
      ensures Script(env)[DayAt(env, d) + 4] == Call.LoanAmountGivenOnDate(d)
    {
      TimeframeAt(env, today, DAYS, d);
      DayLayout(env, d);
    }
  }
}
