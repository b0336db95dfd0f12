# loan-data-visualizer: a Dafny model of the classifier, the post table, the refresh job and its cache

The system reads the newest posts of the `borrow` subreddit, classifies each
post title into a loan record (status tag, currency, principal, whether a
request was answered), stores the records in a Postgres `Posts` table, and
serves thirty day-buckets of lending figures from a cache that a protected
endpoint refreshes in the background.

This project models the logic of that system in Dafny and proves what it
guarantees:

- `wrappers.dfy`: `Option`.
- `text.dfy`: the string operations the Python code relies on. These are
  `str.upper`, `in`, `str.replace(c, "", 1)`, `str.split`, `int` on a digit
  string, `re.findall(r"(\d+)")` (its first element) and `re.sub` with the
  date pattern, which is modelled as Python's backtracking matcher picks its
  matches.
- `classifier.dfy`: the backend `Post` (`src/backend/models.py`). There is a
  pure `Classify` and the five steps it is made of. The `Post` class runs the
  parse methods in the source's order over its own fields, and its
  constructor is proved to build `Classify`'s record.
- `legacy_classifier.dfy`: the older `Post` (`src/models.py`) and where it
  differs from the backend one.
- `post_table.dfy`: the `Posts` table as a sequence of rows. It has the
  primary key, `ON CONFLICT DO NOTHING` inserts, `executemany`, the `WHERE`
  filters and the 0–90 day clamp.
- `database.dfy` and `legacy_database.dfy`: the two `Database` classes over
  that table.
- `reddit.dfy`: page shaping in `APITool.GetNewestPosts` and the comment scan
  of `APITool.IsPostActive`, over decoded replies.
- `pipeline.dfy`: `UpdateTimeframeData`. It runs against a `Services` object
  that logs every call the job makes; each answer is an arbitrary function of
  the call's position in the log. The proofs are therefore about every
  answer the platform and the database can give, in runs where no call
  raises: the call order, the cursor threading, the per-id resolution and
  the thirty entries.
- `refresh_cache.dfy`: the lock and cache of `api_server.py` as a state
  machine, and the `App` class whose endpoints update it.

Timestamps are integer epoch seconds. A calendar day is `timestamp / 86400`.
`CURRENT_DATE`, `NOW()` and `datetime.today()` are parameters (`today`,
`now`).

Two behaviours of the code are worth stating up front:

- The amount text loses only its first `,` and its first `.`. So
  `"[PAID] (CANADA) $1,200.00 THANK YOU"` reads `120000`, and the range check
  makes it INVALID.
- The refresh job stores `None` in the cache, not the thirty entries. See
  Findings.

## Model

| member | source | states |
|---|---|---|
| Text.Upper | src/backend/models.py:33 | same length; no lower-case letter is left; other characters unchanged; each ASCII letter moved to upper case |
| Text.UpperIdempotent | src/backend/models.py:33 | upper-casing the stored title again changes nothing |
| Text.ContainsIsSubstring | src/backend/models.py:47 | the `__contains__` search holds exactly when the needle is a slice of the title at some position |
| Text.FirstDigitRunIs | src/backend/models.py:118 | `re.findall(r"(\d+)", s)[0]` exists exactly when `s` holds a digit, and it is the leftmost maximal digit run |
| Text.DecimalRoundTrip | src/backend/models.py:118 | `int` of the rendered number gives the number back |
| Text.RemoveFirstDeletesFirst | src/backend/models.py:109-110 | `replace(c, "", 1)` deletes the first `c` only and keeps the rest in order |
| Text.RemoveFirst | src/backend/models.py:109-110 | without `c` the text is unchanged; with one, it is one character shorter |
| Text.JoinSplit | src/backend/models.py:115 | joining the parts of `split` gives the text back |
| Text.SplitJoin | src/backend/models.py:115 | splitting undoes joining, for parts without the separator |
| Text.Split | src/backend/models.py:115 | `split` never returns an empty list, and no part holds the separator |
| Text.StripDatesWithoutDigits | src/backend/models.py:108 | a text without digits holds no date and comes back unchanged |
| Text.DateMatch | src/backend/models.py:108 | a date match starts with a digit and is at least two characters long |
| Text.DateMatchSlash | src/backend/models.py:108 | with day digits, a slash, month digits and no second slash, the match ends after the year digits that follow (possibly none) |
| Text.DateMatchSlashYear | src/backend/models.py:108 | with a second slash after the month, the match runs through it and up to four year digits |
| Text.DateMatchDayMonth | src/backend/models.py:108 | `D/D` to `DD/DD` followed by neither a digit nor `/` matches exactly the day, the slash and the month |
| Text.DigitsFromIs | src/backend/models.py:108 | a greedy `\d{0,max}` takes exactly the digits present, up to `max` |
| Text.DateMatchSecondSlash | src/backend/models.py:108 | `D/D/` to `DD/DD/` matches through the second slash and the first four or fewer digits after it |
| Text.DateMatchWithYear | src/backend/models.py:108 | `D/D/` to `DD/DD/` followed by 0 to 4 year digits matches through the year digits, which stop at four or before a non-digit |
| Text.DateMatchOrdinal | src/backend/models.py:108 | one or two digits followed by `TH`, `ND` or `ST` match together with the suffix |
| Text.StripDatesThreeDigitOrdinal | src/backend/models.py:108 | in `123TH`, the first digit is kept and `23TH` is deleted, because the pattern takes at most two digits |
| Text.IntText | src/backend/reddit_api.py:102 | the rendered limit is non-empty and starts with `-` exactly for a negative limit |
| Classifier.TagPriority | src/backend/models.py:44-56 | the status is REQ, PAID, UNPAID, LATE exactly when that tag occurs and no earlier tag does; INVALID exactly when none occurs |
| Classifier.CurrencyPrecedence | src/backend/models.py:72-100 | the currency rule table gives the source's if/elif chain, branch for branch |
| Classifier.FirstMarkedGroup | src/backend/models.py:115-116 | the index found holds a currency marker and no earlier group does; None only when no group holds one |
| Classifier.FindMarkedGroup | src/backend/models.py:115-121 | the loop over the `)`-groups with its early return finds the first marked group |
| Classifier.AmountDigits | src/backend/models.py:113-128 | the digits the amount is read from are a non-empty digit string |
| Classifier.RunSteps | src/backend/models.py:35-42 | the constructor's steps compose in order: type, active, currency, amount, range check |
| Classifier.Classify | src/backend/models.py:31-42 | id and timestamp kept, title stored upper-cased; a status other than INVALID implies 5 ≤ amount ≤ 12000 |
| Classifier.ClassifyProperties | src/backend/models.py:27-128 | INVALID exactly when there is no tag, no currency, no amount digits or the amount is out of range; otherwise the status is the tag's; the currency is the chain's and XXX forces INVALID; no digits keeps amount 0; `isActive` is None unless the tag is REQ, True for ARRANGED, False below 3 comments, else None, and an invalidation does not reset it |
| Classifier.ClassifyStoredTitle | src/backend/models.py:31-33 | classifying the stored title again gives the same record |
| Classifier.Post.constructor | src/backend/models.py:31-42 | the object's fields are the record `Classify` gives for the four inputs |
| Classifier.Post.ParsePostType | src/backend/models.py:44-56 | sets only the status, to the title's tag |
| Classifier.Post.ParseIsActive | src/backend/models.py:58-70 | sets only `isActive`, as the active step does |
| Classifier.Post.ParseCurrencyType | src/backend/models.py:72-100 | sets the currency by the chain, and INVALID only on XXX |
| Classifier.Post.ParseCurrencyAmount | src/backend/models.py:102-128 | sets the amount from the digits found, or only invalidates the status when there are none |
| Classifier.Records | src/backend/db_api.py:56-58 | one row tuple per post, in list order |
| LegacyClassifier.LegacyCurrencyPrecedence | src/models.py:53-86 | the older rule table gives the older if/elif chain, whose location rule knows only `USA)` |
| LegacyClassifier.CurrencyChainsDiffer | src/models.py:77-82 | the two chains disagree exactly on titles whose only hint is `US)`; there the backend says USD and the older code says CAD or XXX |
| LegacyClassifier.LegacyClassify | src/models.py:26-31 | id kept, title stored upper-cased |
| LegacyClassifier.LegacyClassifyProperties | src/models.py:26-110 | INVALID exactly when there is no tag or no amount digits; the currency never touches the status; the amount is a digit string |
| LegacyClassifier.AmountsAgreeWithoutPunctuation | src/models.py:93-110 | on titles without `,` `.` `(` `)` both classifiers read the same digits |
| LegacyClassifier.UnknownCurrencyStaysValid | src/models.py:84-86 | `"[REQ] 7"` has currency XXX and stays REQ in the older code; the backend makes it INVALID |
| LegacyClassifier.LegacyPost.constructor | src/models.py:26-31 | the object's fields are `LegacyClassify`'s record |
| LegacyClassifier.LegacyPost.ParsePostType | src/models.py:34-51 | the status becomes the title's tag |
| LegacyClassifier.LegacyPost.ParseCurrencyType | src/models.py:53-86 | the currency follows the older chain; XXX sets the stray `Status` attribute and leaves `status` alone |
| LegacyClassifier.LegacyPost.ParseCurrencyAmount | src/models.py:88-110 | the digit string of the first `(`-group with a marker, or of the whole text, becomes the amount; without digits only the status changes |
| PostTable.Select | src/backend/db_api.py:63-76 | the rows returned are exactly the stored rows the `WHERE` clause keeps, and no more of them |
| PostTable.SelectKeepsUnique | src/backend/db_api.py:38 | a query on a table with a primary key returns rows with distinct, stored ids |
| PostTable.InsertKeepsUnique | src/backend/db_api.py:47-51 | one insert keeps the ids distinct and adds the row's id to the stored ones |
| PostTable.InsertAllProperties | src/backend/db_api.py:53-61 | a batch insert keeps the ids distinct and stores exactly the old ids plus the batch's |
| PostTable.InsertAllSize | src/backend/db_api.py:53-61 | the table grows by the number of distinct new ids |
| PostTable.InsertAllConcat | src/backend/db_api.py:53-61 | `executemany` is one insert after another, in list order |
| PostTable.InsertAllStoredKeys | src/backend/db_api.py:49 | rows whose ids are already stored change nothing |
| PostTable.InsertAllIdempotent | src/backend/db_api.py:53-61 | inserting the same list twice stores what inserting it once stores |
| PostTable.InsertAllFirstWins | src/backend/db_api.py:53-61 | of duplicate ids in a batch, the earliest row is the one stored |
| PostTable.InsertAllFrom | src/backend/db_api.py:53-61 | every stored row was stored before or comes from the batch |
| PostTable.InsertAllKeepsPrefix | src/backend/db_api.py:49 | stored rows are never overwritten or moved |
| PostTable.InsertAllFits | src/backend/db_api.py:36-44 | the column limits hold after inserting rows that respect them |
| PostTable.UniqueIdsCount | src/backend/db_api.py:38 | with a primary key there are as many ids as rows |
| PostTable.UniqueRowsCount | src/backend/db_api.py:38 | with a primary key there are as many distinct rows as rows |
| PostTable.SelectCount | src/backend/db_api.py:89-94 | on a table with a primary key, `count(*)` of a query is the number of distinct stored rows its `WHERE` clause keeps |
| PostTable.SelectConcat | src/backend/db_api.py:63-76 | the model's queries return rows in stored order: over rows stored as `a` then `b`, `a`'s matches come first |
| PostTable.SelectNarrower | src/db_api.py:76-82 | filtering a wider query's result with a narrower clause gives the narrower query's result, in the same order |
| PostTable.Clamp | src/backend/db_api.py:83 | the day offset ends up in [0, 90], equal to the input inside that range and to the nearer bound outside it |
| Db.Database.constructor | src/backend/db_api.py:9-21 | the connection sees the rows already stored |
| Db.Database.CreateTables | src/backend/db_api.py:23-45 | the table is empty afterwards |
| Db.Database.InsertPost | src/backend/db_api.py:47-51 | an insert that fits the columns is first-insert-wins on the id; one that does not changes nothing and reports failure |
| Db.Database.InsertPostList | src/backend/db_api.py:53-61 | the row tuples are built in list order and inserted as sequential inserts; one unfit row aborts the batch |
| Db.Database.GetAllPosts | src/backend/db_api.py:63-66 | returns every stored row |
| Db.Database.GetPostsByCurrency | src/backend/db_api.py:68-71 | exactly the stored rows with that currency, with distinct ids |
| Db.Database.GetPostsByStatus | src/backend/db_api.py:73-76 | exactly the stored rows with that status, with distinct ids |
| Db.Database.GetPostsByTimestamp | src/backend/db_api.py:78-87 | exactly the rows dated today minus the clamped offset |
| Db.Database.LoansRequestedOnDate | src/backend/db_api.py:89-94 | `count(*)` is the number of distinct stored REQ rows dated today minus the unclamped offset; each matching row is counted once |
| Db.Database.GetPostsByStatusAndTimestamp | src/backend/db_api.py:97-111 | for REQ and PAID, exactly the rows of that status on the clamped day; for any other status, no rows |
| LegacyDb.LegacyDatabase.constructor | src/db_api.py:10-16 | the connection sees the rows already stored |
| LegacyDb.LegacyDatabase.CreateTables | src/db_api.py:18-40 | the table is empty afterwards |
| LegacyDb.LegacyDatabase.InsertPost | src/db_api.py:42-46 | first-insert-wins on the id, for a row that fits the columns |
| LegacyDb.LegacyDatabase.InsertPostList | src/db_api.py:48-56 | sequential inserts in list order; one unfit row aborts the batch |
| LegacyDb.LegacyDatabase.GetAllPosts | src/db_api.py:58-61 | returns every stored row |
| LegacyDb.LegacyDatabase.GetPostsByCurrency | src/db_api.py:63-66 | exactly the stored rows with that currency |
| LegacyDb.LegacyDatabase.GetPostsByStatus | src/db_api.py:68-71 | exactly the stored rows with that status |
| LegacyDb.LegacyDatabase.GetPostsByTimestamp | src/db_api.py:73-85 | for 1, 7 or 30 days, the rows strictly newer than now minus that many days; otherwise no rows |
| LegacyDb.WindowsNest | src/db_api.py:76-82 | the 1-day query returns exactly the 7-day query's rows that are under a day old, and the 7-day query exactly the 30-day query's rows that are under a week old, in the same order |
| Reddit.PageSize | src/backend/reddit_api.py:96-97 | the page size is `min(limit, 100)` and never above 100 |
| Reddit.NewestPostsUrlDeterminesCursor | src/backend/reddit_api.py:100-104 | the URL determines the cursor, except that a null cursor and the string `None` give the same URL |
| Reddit.Kept | src/backend/reddit_api.py:108-110 | no more posts than children |
| Reddit.KeptMembers | src/backend/reddit_api.py:108-110 | a child is kept exactly when its author is not `[deleted]` |
| Reddit.KeptConcat | src/backend/reddit_api.py:108-110 | filtering a listing in two parts gives the two filtered parts in order |
| Reddit.PageRecordsClassifyKept | src/backend/reddit_api.py:108-114 | one post per kept child, in listing order, each classified from that child's id, title, created and comment count |
| Reddit.MentionsLoanIgnoresCase | src/backend/reddit_api.py:129 | a body mentions a loan exactly when five of its characters spell `$loan` in some mix of letter case |
| Reddit.PlainBeforeUnique | src/backend/reddit_api.py:128-130 | the comment that ends the scan is the only one that can |
| Reddit.APITool.constructor | src/backend/reddit_api.py:18-19 | the tool answers through the given replies |
| Reddit.APITool.GetNewestPosts | src/backend/reddit_api.py:92-116 | the request goes to the URL the cursor selects; the cursor returned is the reply's `after`; the posts are the kept children, classified |
| Reddit.APITool.PostsOf | src/backend/reddit_api.py:108-114 | the loop builds one fresh post per kept child, in order |
| Reddit.APITool.NewPost | src/backend/reddit_api.py:111-114 | a fresh post holding the child's classification |
| Reddit.APITool.IsPostActive | src/backend/reddit_api.py:126-132 | True exactly when a comment mentions `$LOAN` before any `more` stub; False exactly when all comments are plain (so no comments give False); a failure exactly when a `more` stub comes first |
| Pipeline.Services.constructor | src/backend/loan_data_visualizer.py:12-13 | fresh services with an empty log |
| Pipeline.Services.Auth | src/backend/loan_data_visualizer.py:14 | logs the call |
| Pipeline.Services.CreateTables | src/backend/loan_data_visualizer.py:15 | logs the call |
| Pipeline.Services.GetNewestPosts | src/backend/loan_data_visualizer.py:20 | logs the call with its arguments and answers the page the environment gives for that position |
| Pipeline.Services.InsertPostList | src/backend/loan_data_visualizer.py:21 | logs the call with the posts |
| Pipeline.Services.GetNullActiveLoanRequests | src/backend/loan_data_visualizer.py:25 | logs the call and answers the environment's id list |
| Pipeline.Services.IsPostActive | src/backend/loan_data_visualizer.py:29 | logs the call and answers the environment's flag |
| Pipeline.Services.UpdateActiveOnLoan | src/backend/loan_data_visualizer.py:29 | logs the call with the id and the flag |
| Pipeline.Services.AnonymizeData | src/backend/loan_data_visualizer.py:33 | logs the call |
| Pipeline.Services.LoanPaidAndDefaultRate | src/backend/loan_data_visualizer.py:37 | logs the call and answers the environment's pair |
| Pipeline.Services.LoansRequestedOnDate | src/backend/loan_data_visualizer.py:39 | logs the call and answers the environment's count |
| Pipeline.Services.LoansGivenOnDate | src/backend/loan_data_visualizer.py:40 | logs the call and answers the environment's count |
| Pipeline.Services.LoanAmountRequestedOnDate | src/backend/loan_data_visualizer.py:41 | logs the call and answers the environment's amount |
| Pipeline.Services.LoanAmountGivenOnDate | src/backend/loan_data_visualizer.py:42 | logs the call and answers the environment's amount |
| Pipeline.Services.CloseConnection | src/backend/loan_data_visualizer.py:49 | logs the call |
| Pipeline.Fetches | src/backend/loan_data_visualizer.py:18-22 | two calls per round, all of them page requests or stores |
| Pipeline.Resolutions | src/backend/loan_data_visualizer.py:26-29 | two calls per id, all of them questions or stored answers |
| Pipeline.Days | src/backend/loan_data_visualizer.py:36-42 | five queries per day, all of them day queries |
| Pipeline.DaysSnoc | src/backend/loan_data_visualizer.py:36-42 | one more day appends that day's five queries, in field order |
| Pipeline.Timeframe | src/backend/loan_data_visualizer.py:36-47 | one entry per day |
| Pipeline.Answers | src/backend/loan_data_visualizer.py:26-29 | the `m`-th stored pair is the `m`-th id with the answer to the question about it |
| Pipeline.QueryDay | src/backend/loan_data_visualizer.py:37-47 | the day's five queries in order, and the entry built from their answers |
| Pipeline.FetchPages | src/backend/loan_data_visualizer.py:18-22 | the page loop makes exactly the three request-and-store rounds |
| Pipeline.ResolveNullPosts | src/backend/loan_data_visualizer.py:25-30 | one question and one stored answer per listed id, in list order |
| Pipeline.BuildTimeframe | src/backend/loan_data_visualizer.py:35-47 | the day loop logs the thirty days' queries and builds the timeframe |
| Pipeline.UpdateTimeframeData | src/backend/loan_data_visualizer.py:8-49 | the job's log is the expected script, the list it prints is the thirty entries, and it hands back `None` because it has no `return` |
| Pipeline.ScriptSegments | src/backend/loan_data_visualizer.py:8-49 | the log is auth, wipe, fetch rounds, null query, resolutions, anonymise, day queries, close, in that order |
| Pipeline.CallAt | src/backend/loan_data_visualizer.py:8-49 | which kind of call stands at each position of the log |
| Pipeline.WipeBeforeFetches | src/backend/loan_data_visualizer.py:14-22 | the wipe happens once, second, before every page request and every insert |
| Pipeline.ClosedLast | src/backend/loan_data_visualizer.py:49 | the connection is closed last and only there |
| Pipeline.AnonymizeBetween | src/backend/loan_data_visualizer.py:25-37 | anonymisation runs once, after every stored answer and before every day query |
| Pipeline.PagesThreaded | src/backend/loan_data_visualizer.py:18-22 | three page requests with cursors `""` and then each page's `after`; each page is stored right after it arrives |
| Pipeline.NullIdsResolvedOnce | src/backend/loan_data_visualizer.py:25-30 | each listed id is asked about exactly once, in list order, and its answer stored right after |
| Pipeline.DayLayout | src/backend/loan_data_visualizer.py:37-42 | each day's five queries stand together in field order |
| Pipeline.TimeframeFromQueries | src/backend/loan_data_visualizer.py:36-47 | thirty entries, today first; entry `d` is dated `d` days back and each figure is the answer to that day's query of the same name |
| RefreshCache.Init | src/backend/api_server.py:39-42 | a missing lock is created as False together with an empty cache; an existing state is unchanged |
| RefreshCache.Trigger | src/backend/api_server.py:37-49 | 403 exactly for a wrong code, 409 exactly while the lock is held, 202 otherwise; only 202 takes the lock and schedules one job |
| RefreshCache.Complete | src/backend/api_server.py:28-32 | a job that returns stores its value and releases the lock; one that raises changes neither |
| RefreshCache.Served | src/backend/api_server.py:21-25 | `[]` before the cache exists, else the cache unchanged |
| RefreshCache.StartValid | src/backend/api_server.py:21-25 | a fresh server is consistent and serves `[]` |
| RefreshCache.TriggerValid | src/backend/api_server.py:37-49 | a request keeps at most one job pending, and only under the lock |
| RefreshCache.CompleteValid | src/backend/api_server.py:28-32 | finishing the job keeps the state consistent |
| RefreshCache.WrongCodeChangesNothing | src/backend/api_server.py:43-44 | a wrong code gets 403 and changes nothing, even while a job runs |
| RefreshCache.SecondTriggerConflicts | src/backend/api_server.py:45-49 | two correct requests with no job finishing between them give 202 then 409 |
| RefreshCache.StuckAfterRaised | src/backend/api_server.py:28-32 | after a job raises, the lock is never released and no request is accepted |
| RefreshCache.RefreshServesNull | src/backend/loan_data_visualizer.py:8-49 | storing the `None` the job hands back makes the read endpoint serve `null`, not the thirty entries |
| RefreshCache.RefreshServesTimeframe | src/backend/api_server.py:28-32 | with the timeframe returned, the endpoint serves the thirty entries and the next refresh is accepted |
| RefreshCache.App.constructor | src/backend/api_server.py:18 | a fresh server with neither attribute |
| RefreshCache.App.GetTimeframe | src/backend/api_server.py:21-25 | answers what `Served` gives for the current state |
| RefreshCache.App.UpdateTimeframe | src/backend/api_server.py:37-49 | the new state and the status code are those of `Trigger` |
| RefreshCache.App.StartUpdateTimeframeJob | src/backend/api_server.py:28-32 | runs `UpdateTimeframeData` and stores what it hands back: the new state is `Complete` of a returned `None`, and the read endpoint then serves `null` |
| RefreshCache.App.AbortUpdateTimeframeJob | src/backend/api_server.py:28-32 | a job whose pipeline raises leaves the lock and the cache as they were: the new state is `Complete` of a raise |

## Left out

- HTTP, OAuth, the `.env` checks and the platform's JSON are not modelled. `APITool` takes two functions from URL to decoded reply instead.
- The rate limiter of `GetRequest` is not modelled. It works with wall-clock time, `sleep` and float headers.
- The test helpers `TestConnection`, `GetNewestPostsRaw` and `GetCommentsOnPostRaw` are not modelled.
- The psycopg connection, its retry loop and `CloseConnection` are not modelled. The table is a field of the `Database` classes.
- SQL types are kept to the column limits the inserts can break: `VARCHAR(7)`, `VARCHAR(200)` and `INTEGER`. An insert that breaks one raises in the source; here it reports `ok == false` and changes nothing.
- `datetime.fromtimestamp`, `timedelta` and time zones are not modelled. Timestamps are integer seconds, a day is 86400 seconds, and the clock is a parameter.
- `ParseRepayAmount` is not modelled. It raises `NotImplementedError` before any of its code runs.
- Python's `\d`, `int` and `upper` are modelled on ASCII only. Other Unicode digits and case mappings are not part of this model.
- FastAPI routing, JSON encoding and the background-task runner are not modelled. A scheduled job is counted and then run by an explicit call: `App.StartUpdateTimeframeJob` runs the pipeline and stores what it returns, and `App.AbortUpdateTimeframeJob` stands for a run that raises.
- Concurrent requests are not modelled. Requests and jobs are one sequence of calls.
- The database methods the job calls but `src/backend/db_api.py` does not define (`GetNullActiveLoanRequests`, `UpdateActiveOnLoan`, `AnonymizeData`, `LoansGivenOnDate`, `LoanAmountRequestedOnDate`, `LoanAmountGivenOnDate`, `LoanPaidAndDefaultRate`) are not part of this model. The job sees them only as logged calls with arbitrary answers.
- The job's progress counter and its `print` calls are not modelled.
- Pipeline.UpdateTimeframeData: only runs in which no call raises are modelled. In the source a failing request, or an insert that breaks a column limit (a title over 200 characters, which `Db.Database.InsertPostList` reports as `ok == false`), raises and ends the job before `CloseConnection`; such a run appears only as `RefreshCache.App.AbortUpdateTimeframeJob`, the `Raised` outcome.
- Pipeline.Services.IsPostActive: answers a bool. The failure that `Reddit.APITool.IsPostActive` reports for a `more` stub (an exception in the source) is not threaded through the job.
- Pipeline.Services.GetNewestPosts: answers the stored records of a page directly. The classification of each child is proved separately, in `Reddit.APITool.GetNewestPosts`.
- LegacyDb.LegacyDatabase.InsertPost: takes the backend's `Post`. The older `Post` sets neither `timestamp` nor `isActive`, which the row tuple reads, so inserting one raises in the source.
- Classifier.Classify: the timestamp is kept as given. `datetime.fromtimestamp` is not applied.
- PostTable.Select: returns the matching rows in stored order. PostgreSQL promises no order without `ORDER BY`, so `PostTable.SelectConcat`, `PostTable.SelectNarrower` and `LegacyDb.WindowsNest` speak about order only for this model.
- Db.Database.GetAllPosts: states the rows as a set with the same count. It does not fix their order, which `SELECT *` leaves unspecified.

## Findings

| source | as written | input that shows it | evidently intended | confidence | as-written member | corrected member |
|---|---|---|---|---|---|---|
| src/models.py:84-86 | the unknown-currency branch assigns `self.Status` (capital S), a new attribute, so `status` keeps the tag | title `"[REQ] 7"`: currency XXX, status stays REQ | an unknown currency invalidates the post, as the backend classifier does at src/backend/models.py:98-100 | high, not executed | LegacyClassifier.UnknownCurrencyStaysValid | Classifier.ClassifyProperties |
| src/backend/loan_data_visualizer.py:8-49 | `UpdateTimeframeData` builds `timeframe` but has no `return`, so it returns `None` despite its `list[dict]` annotation; the job at src/backend/api_server.py:31 stores that | any refresh that completes: `/get-timeframe` then serves `null` | return the thirty entries, so the cache holds them | high, not executed | Pipeline.UpdateTimeframeData, RefreshCache.App.StartUpdateTimeframeJob, RefreshCache.RefreshServesNull | RefreshCache.RefreshServesTimeframe |
