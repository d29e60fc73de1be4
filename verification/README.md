# MyHire job-import core, modelled in Dafny

MyHire is a job-application tracker. This project models its deterministic
decision code and proves properties of it:

- the keyword classifiers `inferPlatform` and `inferWorkMode` and the
  `isOverdue` test (`lib/jobs.ts`);
- `POST /api/import` (`app/api/import/route.ts`): the `extractField` regular
  expression, the title and company fallback chains, the truncations, the
  `ai_insights` text, and the whole request as a state machine. The machine
  covers authentication, validation, the `processing` audit row in
  `job_imports`, fetch and extraction, the optional model call, the job
  insert, and the audit row's final `done` or `failed`;
- the jobs table (`components/jobs/jobs-table.tsx`): match-score
  normalisation and colour bands, the row filter, the checkbox selection,
  delete-selected, the import dialog's request body, and the CV-linkage merge
  into `ai_insights_json`;
- the CV-version list (`components/files/my-files-manager.tsx`): add,
  set-default, remove, attach-file, and the newest-first ordering, with the
  invariant "ids are unique and a non-empty list has exactly one default id";
- the route guard (`middleware.ts`);
- the overdue sweep (`lib/actions/overdue.ts`), as a transform of a sequence
  of rows;
- the browser extension's "Add Job" handler (`public/chrome-plugin/content.js`):
  the base-URL normalisation, the whitespace collapse and truncation, and the
  payload.

Every external step is an input rather than a call. This covers the session
lookup, `request.json()`, each Supabase call, the fetch with JSDOM and
Readability, the OpenAI call with `JSON.parse`, the clock, the UUID, and the
browser's DOM and file reads. For example, `ImportRoute.Oracle` holds one
outcome per step. `ImportRoute.Post` returns three things: the response, the
sequence of external requests it made, and the rows it left behind.

Modules, one per source file or concern:

| file | module | models |
|---|---|---|
| outcomes.dfy | `Outcomes` | `Option` and `Result` |
| strings.dfy | `Strings` | `\s`, `trim`, ASCII `toLowerCase`, `includes`, `slice`, `\|\|` on strings |
| json.dfy | `Json` | parsed JSON values and `String(v)` |
| encoding.dfy | `Encoding` | UTF-8 encoding and the Windows-1252 decoding |
| db.dfy | `Db` | the enums and the application row of `types/db.ts` |
| jobs.dfy | `Jobs` | `lib/jobs.ts` |
| field_extract.dfy | `FieldExtract` | `extractField` |
| import_route.dfy | `ImportRoute` | `POST /api/import` |
| jobs_table.dfy | `JobsTable` | the jobs table and its import dialog |
| cv_versions.dfy | `CvVersions` | the CV-version list |
| route_guard.dfy | `RouteGuard` | the middleware |
| overdue.dfy | `Overdue` | the overdue sweep |
| clipper.dfy | `Clipper` | the extension's click handler |

## How the parts meet, as the code is written

- The callers send more than the route reads. The import dialog sends `url`,
  `content` and `cvText` (components/jobs/jobs-table.tsx:88-92). The
  extension also sends `cvVersionName` and `cvFilePath`
  (public/chrome-plugin/content.js:71-77). The route reads only `url`
  (app/api/import/route.ts:37-38) and answers 400 when it is blank, whatever
  else the body holds. `ImportRoute.RouteIgnoresAllButUrl`,
  `JobsTable.ManualPasteWithoutUrlIsRejected` and
  `Clipper.ServerSeesOnlyTheUrl` state this.
- The route makes one model call, for the bullet insights
  (app/api/import/route.ts:96-115), and writes no match score. The jobs table
  reads a score from the row or from its insight JSON
  (components/jobs/jobs-table.tsx:29-34); the route fills neither.
- `isOverdue` (lib/jobs.ts:21-24) calls an application overdue after more
  than 21 calendar days. The sweep (lib/actions/overdue.ts:13-19) rejects
  applications with `applied_at <= now - 21 days`. An application exactly 21
  days old is swept but not shown as overdue (`Overdue.DayTwentyOneGap`).

## Model

| member | source | states |
|---|---|---|
| `Db.StatusNameInjective` | types/db.ts:1-7 | distinct statuses are stored as distinct strings, so filtering by the string is filtering by the status |
| `Jobs.InferPlatform` | lib/jobs.ts:4-11 | the platform is `linkedin` iff the URL contains "linkedin", letters compared without case; `indeed` iff it contains "indeed" but not "linkedin"; `wellfound` iff it contains "wellfound" or "angel.co" and neither earlier keyword; otherwise `other` (greenhouse and lever included) |
| `Jobs.InferPlatformIgnoresCase` | lib/jobs.ts:5 | the platform of a URL equals the platform of its lower-cased form |
| `Jobs.InferWorkMode` | lib/jobs.ts:13-19 | by keyword, letters compared without case: hybrid beats remote, remote beats on-site/onsite, and the result is null exactly when none of the four keywords occurs |
| `Jobs.InferWorkModeIgnoresCase` | lib/jobs.ts:14 | the work mode of a text equals the work mode of its lower-cased form |
| `Jobs.LinkedInLinkExample` | lib/jobs.ts:6 | a LinkedIn job link is classified `linkedin` |
| `Jobs.UnknownBoardExample` | lib/jobs.ts:9-10 | a link to an unknown board is classified `other` |
| `Jobs.RemotePostingExample` | lib/jobs.ts:16 | the capitalised posting "Remote role" is classified remote |
| `Jobs.HybridPostingExample` | lib/jobs.ts:15 | a text naming both hybrid and remote is hybrid |
| `Jobs.IsOverdue` | lib/jobs.ts:21-24 | no date is never overdue; a date is overdue iff at least 22 calendar days have passed |
| `Jobs.IsOverdueStays` | lib/jobs.ts:21-24 | once overdue, an application stays overdue on every later day |
| `FieldExtract.ExtractField` | app/api/import/route.ts:10-14 | a found value is trimmed and holds no newline |
| `FieldExtract.ExtractFieldIsRegexMatch` | app/api/import/route.ts:10-14 | the result is null iff the pattern (label ignoring case, whitespace, one of `:`, `\|`, `-`, whitespace, a non-empty run of non-newline characters) matches nowhere; otherwise it is the trimmed capture of the leftmost, greedy match |
| `FieldExtract.SalaryExample` | app/api/import/route.ts:86 | the "Salary" line of a posting yields its value up to the line end |
| `FieldExtract.BlankValueExample` | app/api/import/route.ts:10-14 | "Company: " yields the empty string, which callers treat as absent |
| `ImportRoute.Extract` | app/api/import/route.ts:66-90 | text is article text, else body text, else ""; title and company are never empty and follow their fallback chains; location and salary are trimmed, one line and non-empty when present; the description is the first 12000 characters of the text, or all of it when shorter; platform and work mode come from the classifiers |
| `ImportRoute.ArticleTitleWins` | app/api/import/route.ts:71-72 | a non-empty Readability title is the job title |
| `ImportRoute.JobTitleLineIsThirdChoice` | app/api/import/route.ts:71-75 | without an article or a document title, the "Job Title" field is used, else "Untitled role" |
| `ImportRoute.ComputeInsights` | app/api/import/route.ts:93-116 | with no key, the placeholder insight and null JSON; with a key, a model failure aborts with its message; a reply succeeds iff its `bullet_insights` can be mapped and `String` converts every item (an object with its own `toString` member throws a `TypeError`, which aborts the import), and then the model's JSON is stored and the text is every item behind "â€¢ ", one per line, as the source spells it |
| `ImportRoute.BulletItems` | app/api/import/route.ts:113-114 | a null reply, or a `bullet_insights` that is present and neither null nor an array, throws a `TypeError`; an absent or null member gives no items, an array gives its items |
| `ImportRoute.StoredInsightsLines` | app/api/import/route.ts:113-115 | the stored `ai_insights` text splits back into one line per item, each "â€¢ " and the item, when no item holds a newline |
| `ImportRoute.UrlField` | app/api/import/route.ts:37 | a missing or null `url` reads as the empty string; a string `url` is taken as it is |
| `ImportRoute.ToStringItemFails` | app/api/import/route.ts:113-115 | a reply whose one bullet item is an object with its own `toString` member makes the import fail with the `TypeError` |
| `ImportRoute.StringItemsStringify` | app/api/import/route.ts:113-115 | items that are all strings always convert, so such replies never take the `TypeError` path |
| `ImportRoute.Post` | app/api/import/route.ts:16-191 | every run answers 200, 400, 401 or 500; 400 and 401 make no request and store nothing; a job is stored iff the answer is 200 (the full list of guarantees is `ImportRoute.PostGuarantees`) |
| `ImportRoute.PostGuarantees` | app/api/import/route.ts:16-191 | every run answers 200, 400, 401 or 500; 200 iff a job was created; 400 and 401 make no request; requests happen in the route's order, each at most once, starting with the `processing` row and, once fetched, ending with its update; a stored job has a title, a company, a description of at most 12000 characters and a brief that is its first 400 characters, or all of it when shorter; `done` only with a 200 naming the job; `failed` only with a 500 and a message; no model call without a key |
| `ImportRoute.UnauthenticatedIsRejected` | app/api/import/route.ts:25-27 | without a session the answer is 401 "Unauthorized" and nothing is requested |
| `ImportRoute.BlankUrlIsRejected` | app/api/import/route.ts:37-38 | a missing, null or blank `url` is answered 400 "URL is required" with no audit row and no job |
| `ImportRoute.ContentWithoutUrlIsRejected` | app/api/import/route.ts:37-38 | pasted content and CV text without a URL are still rejected with 400 |
| `ImportRoute.RouteIgnoresAllButUrl` | app/api/import/route.ts:37 | two bodies with the same `url` member produce the same run |
| `ImportRoute.FetchesTrimmedUrl` | app/api/import/route.ts:37-62 | the audit row is inserted in `processing` with the trimmed URL and its platform, and the fetch requests that URL |
| `ImportRoute.ImportInsertFailureStops` | app/api/import/route.ts:43-56 | a failed audit-row insert answers 500 naming the error, with no further request and no job |
| `ImportRoute.FetchFailureMarksFailed` | app/api/import/route.ts:177-190 | a failed fetch marks the audit row `failed` with the error and answers 500 with the generic manual-copy message |
| `ImportRoute.InsightsFailureMarksFailed` | app/api/import/route.ts:177-190 | when the model call fails, or `bullet_insights` is neither absent, null nor an array, the catch block runs after the model request: the audit row is marked `failed` with that error, the answer is 500 with the generic manual-copy message, and no job is inserted |
| `ImportRoute.NoKeyStoresPlaceholder` | app/api/import/route.ts:93-96 | without a key, a stored job carries "(AI disabled: no key)" and no insight JSON |
| `ImportRoute.PromptCarriesDescription` | app/api/import/route.ts:96-110 | with a key, the third request is the one model call, its prompt is the fixed prefix plus the description, and the stored description is that same text |
| `ImportRoute.JobInsertFailureMarksFailed` | app/api/import/route.ts:141-152 | a failed job insert answers 500 naming the error, ends by marking the audit row `failed` with that message, and stores no job |
| `ImportRoute.SuccessMarksDone` | app/api/import/route.ts:154-176 | when every step succeeds, the answer is 200 with the new id, and the audit row is `done` with that id and the extracted title, company, location and salary |
| `ImportRoute.DoneUpdateFailureWarns` | app/api/import/route.ts:164-174 | a failed `done` update still answers 200 with the job id, plus a warning naming the error; the audit row stays `processing` |
| `ImportRoute.InsightsTextLines` | app/api/import/route.ts:113-115 | the intended insight text splits back into one line per item, each the U+2022 bullet, a space and the item |
| `ImportRoute.BulletPrefixAsWrittenIsMisdecoded` | app/api/import/route.ts:114 | the prefix spelled in the source is exactly U+2022 encoded as UTF-8 and decoded as Windows-1252 |
| `ImportRoute.InsightsTextAsWrittenShowsMojibake` | app/api/import/route.ts:113-115 | as written, an insight is stored behind "â€¢ " and differs from the intended text |
| `Encoding.AsciiSurvives` | app/api/import/route.ts:114 | text in ASCII is unchanged by encoding as UTF-8 and decoding as Windows-1252, so only the bullet is garbled |
| `JobsTable.ChosenScore` | components/jobs/jobs-table.tsx:30 | the row's own score is used unless it is null or undefined, then the insight JSON's score |
| `JobsTable.MatchScore` | components/jobs/jobs-table.tsx:29-34 | null exactly for a value that is not a number, otherwise an integer in [0, 100] |
| `JobsTable.Round` | components/jobs/jobs-table.tsx:33 | `Math.round` gives the integer within half of the value, rounding halves up |
| `JobsTable.Clamp` | components/jobs/jobs-table.tsx:33 | values inside [0, 100] are kept; the rest go to the nearer bound |
| `JobsTable.ScoreIsNearestInRange` | components/jobs/jobs-table.tsx:31-33 | a number in range shows as its nearest integer; below -0.5 it shows 0, and from 100.5 up it shows 100 |
| `JobsTable.UnscoredRowShowsZero` | components/jobs/jobs-table.tsx:30-31 | a row with neither score shows 0, because `Number(null)` is 0 |
| `JobsTable.RowScoreWins` | components/jobs/jobs-table.tsx:30 | when the row has its own score, the insight JSON's score makes no difference |
| `JobsTable.WholePercentShowsItself` | components/jobs/jobs-table.tsx:33 | an integer from 0 to 100 is shown as itself |
| `JobsTable.ScoreMonotone` | components/jobs/jobs-table.tsx:33 | a larger number never shows a smaller score |
| `JobsTable.ScoreTone` | components/jobs/jobs-table.tsx:36-41 | slate iff unscored, emerald iff at least 80, amber iff 60 to 79, rose iff below 60 |
| `JobsTable.ToneMonotone` | components/jobs/jobs-table.tsx:38-40 | a higher score never gets a lower band |
| `JobsTable.ScoreLabel` | components/jobs/jobs-table.tsx:177 | the label is "Not scored" exactly for an unscored row |
| `JobsTable.FilterRows` | components/jobs/jobs-table.tsx:132-144 | the table never shows more rows than were loaded; which rows and in what order are `JobsTable.FilterRowsMembers`, `JobsTable.FilterKeepsOrder` and `JobsTable.FilterRowsAppend` |
| `JobsTable.FilterRowsMembers` | components/jobs/jobs-table.tsx:132-144 | the table shows exactly the loaded rows the filter keeps |
| `JobsTable.FilterKeepsOrder` | components/jobs/jobs-table.tsx:134 | the shown rows keep the loaded order |
| `JobsTable.FilterRowsAppend` | components/jobs/jobs-table.tsx:134 | filtering distributes over concatenation |
| `JobsTable.FilterRowsIdempotent` | components/jobs/jobs-table.tsx:134-141 | filtering the shown rows again changes nothing |
| `JobsTable.NoFilterKeepsNamedRows` | components/jobs/jobs-table.tsx:136-137 | with empty filters, exactly the rows with a title and a company are shown |
| `JobsTable.TextMatchIgnoresCase` | components/jobs/jobs-table.tsx:136-137 | a text filter matches iff the value contains it, ignoring case |
| `JobsTable.Dedup` | components/jobs/jobs-table.tsx:156 | `[...new Set(s)]` has no duplicates and the same elements |
| `JobsTable.Check` | components/jobs/jobs-table.tsx:156 | checking adds the id once and keeps every other selected id |
| `JobsTable.CheckAppendsOnce` | components/jobs/jobs-table.tsx:156 | on a duplicate-free selection, checking appends a new id and leaves a present one unchanged |
| `JobsTable.Uncheck` | components/jobs/jobs-table.tsx:157 | unchecking removes every occurrence of the id and nothing else |
| `JobsTable.UncheckUndoesCheck` | components/jobs/jobs-table.tsx:156-157 | checking then unchecking an unselected id restores the selection |
| `JobsTable.DeleteSelected` | components/jobs/jobs-table.tsx:76-82 | an empty selection makes no request; a database error alerts and changes nothing; success removes exactly the selected rows and clears the selection |
| `JobsTable.DeleteKeepsOrder` | components/jobs/jobs-table.tsx:80 | the remaining rows keep their order |
| `JobsTable.DeleteTwice` | components/jobs/jobs-table.tsx:76-82 | after a successful delete, pressing delete again changes nothing and sends no request |
| `JobsTable.InitialCvId` | components/jobs/jobs-table.tsx:56-63 | the dialog preselects the first default CV when one exists, else the first CV, and nothing for an empty list |
| `JobsTable.InitialCvIsDefault` | components/jobs/jobs-table.tsx:61 | on a well-formed CV list, the preselected CV is the default |
| `JobsTable.CvText` | components/jobs/jobs-table.tsx:85-91 | the CV text is the selected CV's summary, a newline and its skills, or "" when no CV has that id |
| `JobsTable.ImportBody` | components/jobs/jobs-table.tsx:86-93 | the body has exactly `url`, `content` and `cvText`; `content` is the pasted text only in manual mode |
| `JobsTable.SubmitEnabled` | components/jobs/jobs-table.tsx:331 | the button is enabled iff nothing is pending and the URL or the pasted text is not blank |
| `JobsTable.ManualPasteWithoutUrlIsRejected` | components/jobs/jobs-table.tsx:331 | the dialog enables a manual paste with a blank URL, and the route rejects that request with 400 "URL is required" |
| `JobsTable.ReactTo` | components/jobs/jobs-table.tsx:95-96 | the dialog proceeds iff the answer is 2xx with a job id; otherwise it alerts the route's error, or "AI import failed." for a success without an id |
| `JobsTable.RouteErrorsAreShown` | components/jobs/jobs-table.tsx:96 | every non-200 answer of the route carries an error, and the dialog alerts exactly that error |
| `JobsTable.LinkCv` | components/jobs/jobs-table.tsx:98-110 | the merged insight JSON keeps every existing key and sets `cv_version_id` and `cv_version_name` to the selected CV |
| `JobsTable.LinkCvIdempotent` | components/jobs/jobs-table.tsx:103-107 | linking the same CV twice is linking it once |
| `JobsTable.LatestCvWins` | components/jobs/jobs-table.tsx:103-107 | linking a second CV overwrites the first link |
| `CvVersions.OneDefaultPosition` | components/files/my-files-manager.tsx:62 | in a well-formed list, no two positions hold a default row, so the new default flag leaves exactly one |
| `CvVersions.StripExtension` | components/files/my-files-manager.tsx:54 | the result is the name, or the name cut before its last dot when a non-empty extension follows |
| `CvVersions.StripExtensionIff` | components/files/my-files-manager.tsx:54 | a name changes iff it has a last dot followed by at least one character, and then it is cut exactly there |
| `CvVersions.FallbackName` | components/files/my-files-manager.tsx:54 | never empty; without a file, "Uploaded CV"; with one, its name without the extension, or "Uploaded CV" when that is empty |
| `CvVersions.UploadPath` | components/files/my-files-manager.tsx:47 | the storage path lies under the user's folder for this CV row |
| `CvVersions.AddVersion` | components/files/my-files-manager.tsx:40-71 | a blank name without a file changes nothing; a failed upload alerts and changes nothing; without a file nothing is uploaded and the new row has no file path; otherwise one row is prepended with the new id, the trimmed name or fallback name, trimmed summary and skills, the uploaded path, and the default flag iff the list was empty |
| `CvVersions.AddVersionKeepsWellformed` | components/files/my-files-manager.tsx:55-66 | adding keeps ids unique and exactly one default id |
| `CvVersions.SetDefault` | components/files/my-files-manager.tsx:73-75 | only the flags change, and a row is default iff it has the id |
| `CvVersions.SetDefaultKeepsWellformed` | components/files/my-files-manager.tsx:73-75 | choosing a listed row makes it the only default |
| `CvVersions.SetDefaultUnknownIdClearsDefault` | components/files/my-files-manager.tsx:74 | choosing an id not in the list clears every default |
| `CvVersions.WithoutId` | components/files/my-files-manager.tsx:78 | the filter keeps exactly the rows with another id |
| `CvVersions.WithoutIdCons` | components/files/my-files-manager.tsx:78 | a single row is kept iff its id differs |
| `CvVersions.WithoutIdAppend` | components/files/my-files-manager.tsx:78 | the filter distributes over concatenation, so the kept rows stay in their order |
| `CvVersions.RemoveRow` | components/files/my-files-manager.tsx:77-81 | every row with the id goes; apart from the default flag, the rest are unchanged and in order; when no remaining row is default, the first remaining row becomes default and every other row is as filtered; otherwise the result is the filtered list itself |
| `CvVersions.RemoveRowKeepsWellformed` | components/files/my-files-manager.tsx:77-81 | a non-empty remainder keeps exactly one default id |
| `CvVersions.AttachFile` | components/files/my-files-manager.tsx:83-90 | the file is uploaded to `${userId}/cv-versions/${rowId}/${now}-${name}`; after a successful upload only the matching rows' file path changes, to that path; after a failed one the list is unchanged and the error is shown |
| `CvVersions.AttachFileKeepsWellformed` | components/files/my-files-manager.tsx:89 | attaching a file keeps the list well formed |
| `CvVersions.SortNewestFirst` | components/files/my-files-manager.tsx:92 | the result is a permutation of the rows, newest first |
| `CvVersions.InsertKeepsNewestFirst` | components/files/my-files-manager.tsx:92 | inserting into a newest-first list keeps it newest first |
| `CvVersions.SortKeepsWellformed` | components/files/my-files-manager.tsx:92 | sorting keeps ids unique and one default |
| `CvVersions.SortOfNewestFirst` | components/files/my-files-manager.tsx:92 | a list already newest first is left as it is |
| `CvVersions.NewestAddStaysOnTop` | components/files/my-files-manager.tsx:55-66 | a version added now stays first after sorting |
| `RouteGuard.IsProtected` | middleware.ts:4-32 | a path is protected iff it starts with "/dashboard", "/jobs" or "/settings" |
| `RouteGuard.Decide` | middleware.ts:34-46 | anonymous on a protected path goes to "/login"; signed in on exactly "/login" goes to "/dashboard"; every other case passes |
| `RouteGuard.NoRedirectLoop` | middleware.ts:32-46 | following a redirect never redirects again |
| `RouteGuard.AnonymousLoginPasses` | middleware.ts:34-40 | an anonymous visit to "/login" passes |
| `RouteGuard.DashboardNeedsSession` | middleware.ts:34-38 | "/dashboard" needs a session |
| `RouteGuard.Guard` | middleware.ts:49-51 | the guard decides only on matched paths and lets every other path pass |
| `RouteGuard.MatchedRootsAreProtected` | middleware.ts:4-51 | every matched path except "/login" is protected |
| `RouteGuard.PrefixWiderThanMatcher` | middleware.ts:32-51 | "/jobsearch" counts as protected but is outside the matcher, so it passes anonymously |
| `Overdue.Sweep` | lib/actions/overdue.ts:5-20 | a row changes iff there is a user and it is theirs, `applied` or `no_answer`, and applied no later than 21 days before now; a changed row becomes `rejected` with `status_updated_at` now, and no other field changes |
| `Overdue.NoUserNoChange` | lib/actions/overdue.ts:11 | without a user nothing changes |
| `Overdue.OtherUsersUntouched` | lib/actions/overdue.ts:18 | other users' rows are untouched |
| `Overdue.NoCandidateLeft` | lib/actions/overdue.ts:15-20 | after the sweep, no row matches the update's filter |
| `Overdue.SweepIdempotent` | lib/actions/overdue.ts:17-19 | sweeping twice at the same instant is sweeping once |
| `Overdue.SettledStatusesKept` | lib/actions/overdue.ts:19 | rows not waiting for an answer are untouched |
| `Overdue.OverdueIsSwept` | lib/actions/overdue.ts:13 | every application the list shows as overdue is swept, at any time of the day |
| `Overdue.DayTwentyOneGap` | lib/actions/overdue.ts:13 | an application exactly 21 days old is swept, although the list does not show it as overdue |
| `Overdue.NotYetDue` | lib/actions/overdue.ts:13 | an application at most 20 days old is neither overdue nor swept |
| `Clipper.DropTrailingSlash` | public/chrome-plugin/content.js:60 | at most one trailing slash is removed, and one is removed iff the text ends with one |
| `Clipper.BaseUrl` | public/chrome-plugin/content.js:60 | the address is the trimmed input, or that minus one trailing slash |
| `Clipper.BaseUrlEmptyIff` | public/chrome-plugin/content.js:60-61 | the address is empty iff the field is blank or holds a lone "/" |
| `Clipper.OnlyOneSlashDropped` | public/chrome-plugin/content.js:60 | an address typed with "//" at the end keeps one slash, so normalising again would change it |
| `Clipper.CollapseWs` | public/chrome-plugin/content.js:68 | whitespace appears only as single spaces, never two in a row; the non-whitespace characters are kept in order; the result starts and ends with whitespace iff the input does |
| `Clipper.CollapseJoinsRuns` | public/chrome-plugin/content.js:68 | a run of whitespace between a part not ending in whitespace and a part not starting with it becomes exactly one space, and each part is collapsed on its own |
| `Clipper.RunThenText` | public/chrome-plugin/content.js:68 | a leading run of whitespace becomes one space in front of the collapsed rest |
| `Clipper.CollapsedIsFixed` | public/chrome-plugin/content.js:68 | a collapsed text is left unchanged |
| `Clipper.CollapseWsIdempotent` | public/chrome-plugin/content.js:68 | collapsing twice is collapsing once |
| `Clipper.VisibleText` | public/chrome-plugin/content.js:68 | the page text is collapsed, and is the first 12000 characters of the collapsed body text, or all of it when shorter |
| `Clipper.BuildPayload` | public/chrome-plugin/content.js:71-88 | the payload has the tab's address and the composed content; without a file, the CV text is "" and both file fields are null; with a file, both are its name and the CV text is its text, or "" when reading fails |
| `Clipper.AddJob` | public/chrome-plugin/content.js:59-90 | an empty address stops with "Please provide your MyHire URL."; otherwise the payload is sent, and the status shows the read-failure notice iff a chosen file could not be read, then "Submitting job to MyHire..." |
| `Clipper.Content` | public/chrome-plugin/content.js:69-73 | the content starts with the "Job Title" line naming the tab's title, or "Untitled role" |
| `Clipper.ContentEndsWithPageText` | public/chrome-plugin/content.js:73 | the content ends with the visible page text |
| `Clipper.ContentLines` | public/chrome-plugin/content.js:68-73 | split at newlines, the content is exactly four lines: "Job Title: " and the title (or "Untitled role"), "Summary: " and the meta description (or "" without one), an empty line, and the page text, whenever the title and description hold no newline |
| `Clipper.SendStatuses` | public/chrome-plugin/content.js:79-90 | the last status is "Submitting job to MyHire...", and the read-failure notice is among them iff a chosen file could not be read |
| `Clipper.UntitledTabUsesPlaceholder` | public/chrome-plugin/content.js:69 | an untitled tab is clipped as "Untitled role" |
| `Clipper.PayloadJson` | public/chrome-plugin/content.js:71-77 | the posted JSON's `url` member is the tab's address |
| `Clipper.ServerSeesOnlyTheUrl` | public/chrome-plugin/content.js:71-77 | the route answers the clipped payload exactly as it answers `{ url }` alone |

## Left out

- I/O: the Supabase client and storage, `fetch`, JSDOM and Readability,
  OpenAI, `JSON.parse` of the model reply, localStorage, `chrome.storage`,
  `chrome.runtime` messaging and the DOM. Each is an input or an oracle
  outcome, and the model does not know their internals.
- The response handling of the extension (public/chrome-plugin/content.js:92-109)
  and the background relay are not part of this model. They only format
  status text from the relay's answer.
- Clocks and identifiers: `Date.now()`, `new Date()` and `randomUUID()` are
  parameters. The sweep reads the clock twice (lib/actions/overdue.ts:13 and
  line 17), and so does `addVersion`: `Date.now()` for the upload path before
  the upload (components/files/my-files-manager.tsx:47) and `new Date()` for
  `createdAt` after it (line 63). In both cases the model takes the two reads
  as one instant.
- Dates: `applied_at` is a day number for `isOverdue` and milliseconds for the
  sweep. ISO-8601 parsing and time zones are not modelled.
  `differenceInCalendarDays` is the difference of the two day numbers.
- Floating point: `Number(...)` and `Math.round` work on reals. Infinities are
  not represented. A non-numeric score is the single `NaN` case.
- Text: `toLowerCase` folds ASCII letters only. `slice(0, n)` counts
  characters, not UTF-16 code units. `String(error)` of a thrown `TypeError`
  is an abstract text, not the engine's wording.
- JSON numbers are integers. `ai_insights_json` holds what the model sent.
- Next.js matcher syntax is reduced to "the path, or the path followed by /".
- `ImportRoute.UrlField`: reads a `url` that is an object, or an array, as
  `String` renders it. A `url` object with its own `toString` member (or an array
  holding one) makes app/api/import/route.ts:37 throw. That line lies outside
  every try, so the request ends in an exception that Next.js answers. How the
  framework answers is not part of the source, so the model does not promise
  that case; both in-app callers always send a string `url`
  (components/jobs/jobs-table.tsx:88-89, public/chrome-plugin/content.js:72).
- `ImportRoute.PostGuarantees`: does not state that the audit row always ends
  `done` or `failed`. A failing final update leaves it `processing`, and the
  model keeps that case.
- `CvVersions.SortNewestFirst`: states a permutation ordered newest first. It
  does not state that equal times keep their order, although the insertion
  sort used as reference does keep it. `enrichedRows` also sorts the React
  state array in place; the model returns a new sequence. Because of that
  in-place sort, the stored list is newest first once the page has rendered,
  so the `next[0]` that `removeRow` makes default
  (components/files/my-files-manager.tsx:79) is the newest remaining row.
  `CvVersions.RemoveRow` picks the first remaining row in the order it is
  given, which is the same row when that order is newest first
  (`CvVersions.SortOfNewestFirst`).
- The `uploading` flag of the files page, the cover-letter upload, status
  changes from the table, signed downloads, and the page refresh are not
  modelled. They only call the database or redraw the page.
- `DropTrailingSlash`, `CollapseWs`: the regular expressions are modelled by
  their effect on the text, not by a regular-expression engine.

## Findings

| source | as written | input that shows it | evidently intended | confidence | as-written member | corrected member |
|---|---|---|---|---|---|---|
| app/api/import/route.ts:114 | each insight is prefixed with the three characters "â€¢" and a space. These are the UTF-8 bytes of U+2022 BULLET, mis-decoded as Windows-1252 | a model reply with `bullet_insights: ["Fast team"]` is stored as "â€¢ Fast team" | "• Fast team", with the U+2022 bullet | not executed | `ImportRoute.InsightsTextAsWrittenShowsMojibake` | `ImportRoute.InsightsTextLines` |
